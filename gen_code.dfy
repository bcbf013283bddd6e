/** The code the generator emits, as structured declarations rather than
    Go text: each generate* function appends declarations whose fixed
    parts (symbols, FixSymbol calls, the loops over list elements and map
    entries, the type-assertion chain over a oneof) are the same for every
    message and are given meaning by the runtime modules; what varies from
    field to field is recorded here. The functions below say what each
    generate* function emits for a message. */
module GenCode {
  import opened Bytes
  import opened Options
  import opened Schema
  import opened GenRules

  /** typeMarshal, listMarshal and mapMarshal: a block guarded by
      IsEmpty<goName>, writing the quoted JSON name, ':', the value(s) and
      ','. ref is the enum or message type the values belong to. */
  datatype MarshalBlock =
    | TypeBlock(goName: string, jsonName: Bytes, w: Option<Writer>, ref: TypeRef)
    | ListBlock(goName: string, jsonName: Bytes, w: Option<Writer>, ref: TypeRef)
    | MapBlock(goName: string, jsonName: Bytes, key: Option<Writer>, w: Option<Writer>, ref: TypeRef)

  /** oneofTypeMarshal: the arm of the type-assertion chain for one
      variant (ident is its wrapper type). */
  datatype VariantBlock = VariantBlock(ident: string, goName: string, jsonName: Bytes, w: Option<Writer>, ref: TypeRef)

  datatype OneofBlock = OneofBlock(goName: string, variants: seq<VariantBlock>)

  /** One case of FastUnmarshal's switch on the key. typ is the Go type
      name of the values (whose New function builds a nested message),
      elemType the element type of the slice a list case builds, keyType
      and valType the types of the map a map case builds. */
  datatype UnmarshalCase =
    | TypeCase(jsonName: Bytes, goName: string, r: Option<Reader>, typ: string)
    | ListCase(jsonName: Bytes, goName: string, elemType: string, r: Option<Reader>, typ: string)
    | MapCase(jsonName: Bytes, goName: string, keyType: string, valType: string, r: Option<Reader>, typ: string)
    | OneofCase(jsonName: Bytes, oneof: string, ident: string, goName: string, r: Option<Reader>, typ: string)

  /** typeDestructor, listDestructor and mapDestructor for one field. ref
      is the type of the field's values (of a map's values), whose
      Destructor and Set the emitted calls resolve to. */
  datatype FieldReset =
    | TypeReset(goName: string, action: ResetAction, ref: TypeRef)
    | ListReset(goName: string, destructEach: bool, ref: TypeRef)
    | MapReset(goName: string, destructEach: bool, ref: TypeRef)

  /** One arm of the destructor's chain over a oneof: the wrapper type, the
      variant's field and its message type. */
  datatype VariantReset = VariantReset(ident: string, goName: string, ref: TypeRef)

  /** The destructor's handling of one oneof: its message-kind variants,
      destructed through the chain. */
  datatype OneofReset = OneofReset(goName: string, variants: seq<VariantReset>)

  /** The declarations of a generated file. */
  datatype Decl =
    | MarshalFunc(typ: string, blocks: seq<MarshalBlock>, oneofs: seq<OneofBlock>)
    | UnmarshalFunc(typ: string, cases: seq<UnmarshalCase>)
    | PoolDecl(typ: string)
    | DestructorFunc(typ: string, resets: seq<FieldReset>, oneofResets: seq<OneofReset>)
    | EmptyFunc(typ: string, field: string, test: EmptyTest)
    | EnumGetters(typ: string)
    | EnumSetters(typ: string)

  /** f applied to each element of xs, in order. */
  function Each<A, T>(xs: seq<A>, f: A -> T): seq<T> {
    if xs == [] then [] else Each(xs[..|xs| - 1], f) + [f(xs[|xs| - 1])]
  }

  // ---------------------------------------------------------------
  // generateMarshal
  // ---------------------------------------------------------------

  function MarshalBlockOf(f: Field): MarshalBlock {
    match f.card
    case List => ListBlock(f.goName, f.jsonName, ValWriter(f.kind), f.ref)
    case Map(key, val, valRef) => MapBlock(f.goName, f.jsonName, KeyWriter(key), ValWriter(val), valRef)
    case Singular => TypeBlock(f.goName, f.jsonName, ValWriter(f.kind), f.ref)
  }

  function VariantBlockOf(f: Field): VariantBlock {
    VariantBlock(f.ident, f.goName, f.jsonName, ValWriter(f.kind), f.ref)
  }

  function OneofBlockOf(o: Oneof): OneofBlock {
    OneofBlock(o.goName, Each(o.fields, VariantBlockOf))
  }

  function MarshalDecl(m: Message): Decl {
    MarshalFunc(m.goName, Each(PlainFields(m.fields), MarshalBlockOf), Each(m.oneofs, OneofBlockOf))
  }

  // ---------------------------------------------------------------
  // generateUnmarshal
  // ---------------------------------------------------------------

  /** typeUnmarshal, listUnmarshal or mapUnmarshal for a field outside
      every oneof; the type names are computed in the order the Go code
      computes them, so the first panic is the one reported. */
  function UnmarshalCaseOf(f: Field, messages: map<string, Message>, enums: map<string, EnumType>): Gen<UnmarshalCase> {
    match f.card
    case List =>
      (match TypeName(f.kind, f.ref, true)
       case Crashed(e) => Crashed(e)
       case Emitted(elem) =>
         match TypeName(f.kind, f.ref, false)
         case Crashed(e) => Crashed(e)
         case Emitted(typ) => Emitted(ListCase(f.jsonName, f.goName, elem, ValReader(f.kind), typ)))
    case Map(key, val, valRef) =>
      (match MapKeyTypeName(key)
       case Crashed(e) => Crashed(e)
       case Emitted(kt) =>
         match MapValTypeName(val, valRef, true, messages, enums)
         case Crashed(e) => Crashed(e)
         case Emitted(vt) =>
           match MapValTypeName(val, valRef, false, messages, enums)
           case Crashed(e) => Crashed(e)
           case Emitted(typ) => Emitted(MapCase(f.jsonName, f.goName, kt, vt, ValReader(val), typ)))
    case Singular =>
      match TypeName(f.kind, f.ref, false)
      case Crashed(e) => Crashed(e)
      case Emitted(typ) => Emitted(TypeCase(f.jsonName, f.goName, ValReader(f.kind), typ))
  }

  /** oneofTypeUnmarshal */
  function OneofCaseOf(o: Oneof, f: Field): Gen<UnmarshalCase> {
    match TypeName(f.kind, f.ref, false)
    case Crashed(e) => Crashed(e)
    case Emitted(typ) => Emitted(OneofCase(f.jsonName, o.goName, f.ident, f.goName, ValReader(f.kind), typ))
  }

  /** Two steps in sequence: the first panic aborts the rest. */
  function Chain<T>(a: Gen<seq<T>>, b: Gen<seq<T>>): Gen<seq<T>> {
    match a
    case Crashed(e) => Crashed(e)
    case Emitted(x) =>
      match b
      case Crashed(e) => Crashed(e)
      case Emitted(y) => Emitted(x + y)
  }

  function Single<T>(g: Gen<T>): Gen<seq<T>> {
    match g
    case Crashed(e) => Crashed(e)
    case Emitted(x) => Emitted([x])
  }

  /** Steps run over xs in order, as far as the first one that aborts. */
  function Collect<A, T>(xs: seq<A>, step: A -> Gen<seq<T>>): Gen<seq<T>> {
    if xs == [] then Emitted([]) else Chain(Collect(xs[..|xs| - 1], step), step(xs[|xs| - 1]))
  }

  /** The case of a field outside every oneof; oneof fields get none here. */
  function PlainCase(messages: map<string, Message>, enums: map<string, EnumType>): Field -> Gen<seq<UnmarshalCase>> {
    (f: Field) => if f.inOneof then Emitted([]) else Single(UnmarshalCaseOf(f, messages, enums))
  }

  function VariantCase(o: Oneof): Field -> Gen<seq<UnmarshalCase>> {
    (f: Field) => Single(OneofCaseOf(o, f))
  }

  /** The cases of one oneof's variants. */
  function OneofCases(o: Oneof): Gen<seq<UnmarshalCase>> {
    Collect(o.fields, VariantCase(o))
  }

  function UnmarshalDecl(m: Message, messages: map<string, Message>, enums: map<string, EnumType>): Gen<Decl> {
    match Chain(Collect(m.fields, PlainCase(messages, enums)), Collect(m.oneofs, OneofCases))
    case Crashed(e) => Crashed(e)
    case Emitted(cs) => Emitted(UnmarshalFunc(m.goName, cs))
  }

  // ---------------------------------------------------------------
  // generateDestructor, generateEmpty, generatePool, generateEnum
  // ---------------------------------------------------------------

  function FieldResetOf(f: Field): FieldReset {
    match f.card
    case List => ListReset(f.goName, f.kind == MessageKind, f.ref)
    case Map(_, val, vref) => MapReset(f.goName, val == MessageKind, vref)
    case Singular => TypeReset(f.goName, ResetOf(f.kind), f.ref)
  }

  /** The message-kind variants of a oneof, in order. */
  function MessageVariants(fs: seq<Field>): seq<VariantReset> {
    if fs == [] then []
    else
      var f := fs[|fs| - 1];
      MessageVariants(fs[..|fs| - 1]) + (if f.kind == MessageKind then [VariantReset(f.ident, f.goName, f.ref)] else [])
  }

  function OneofResetOf(o: Oneof): OneofReset {
    OneofReset(o.goName, MessageVariants(o.fields))
  }

  function DestructorDecl(m: Message): Decl {
    DestructorFunc(m.goName, Each(PlainFields(m.fields), FieldResetOf), Each(m.oneofs, OneofResetOf))
  }

  function EmptyDeclOf(typ: string, f: Field): Decl {
    EmptyFunc(typ, f.goName, EmptyTestOf(f))
  }

  /** generateEmpty: an IsEmpty<Field> method per field outside every oneof. */
  function EmptyDecls(typ: string, ps: seq<Field>): seq<Decl> {
    if ps == [] then [] else EmptyDecls(typ, ps[..|ps| - 1]) + [EmptyDeclOf(typ, ps[|ps| - 1])]
  }

  function PoolDeclOf(m: Message): Decl {
    PoolDecl(m.goName)
  }

  /** generateEnum: the getters, then the setters. */
  function EnumDecls(e: EnumType): seq<Decl> {
    [EnumGetters(e.goName), EnumSetters(e.goName)]
  }

  function EnumsDecls(es: seq<EnumType>): seq<Decl> {
    if es == [] then [] else EnumsDecls(es[..|es| - 1]) + EnumDecls(es[|es| - 1])
  }

  // ---------------------------------------------------------------
  // genMessage and generateMessage
  // ---------------------------------------------------------------

  /** genMessage: the message's own declarations, then those of its nested
      messages that are not map entries, then its nested enums. */
  function MessageDecls(m: Message, messages: map<string, Message>, enums: map<string, EnumType>): Gen<seq<Decl>>
    decreases m, 1
  {
    match UnmarshalDecl(m, messages, enums)
    case Crashed(e) => Crashed(e)
    case Emitted(u) =>
      Chain(Chain(Emitted(OwnDecls(m, u)), NestedDecls(m, |m.messages|, messages, enums)), Emitted(EnumsDecls(m.enums)))
  }

  /** What genMessage emits for m itself, u being its FastUnmarshal. */
  function OwnDecls(m: Message, u: Decl): seq<Decl> {
    [MarshalDecl(m), u, PoolDeclOf(m), DestructorDecl(m)] + EmptyDecls(m.goName, PlainFields(m.fields))
  }

  /** The declarations of the first n nested messages of parent. */
  function NestedDecls(parent: Message, n: nat, messages: map<string, Message>, enums: map<string, EnumType>): Gen<seq<Decl>>
    requires n <= |parent.messages|
    decreases parent, 0, n
  {
    if n == 0 then Emitted([])
    else Chain(NestedDecls(parent, n - 1, messages, enums), ChildDecls(parent.messages[n - 1], messages, enums))
  }

  /** A nested message is generated unless it is a map entry. */
  function ChildDecls(c: Message, messages: map<string, Message>, enums: map<string, EnumType>): Gen<seq<Decl>>
    decreases c, 2
  {
    if c.isMapEntry then Emitted([]) else MessageDecls(c, messages, enums)
  }

  /** generateMessage's first loop: the declarations of the first n
      top-level messages. */
  function TopDecls(ms: seq<Message>, n: nat, messages: map<string, Message>, enums: map<string, EnumType>): Gen<seq<Decl>>
    requires n <= |ms|
  {
    if n == 0 then Emitted([])
    else Chain(TopDecls(ms, n - 1, messages, enums), MessageDecls(ms[n - 1], messages, enums))
  }

  /** generateMessage: the top-level messages, then the top-level enums. */
  function FileDecls(file: File, messages: map<string, Message>, enums: map<string, EnumType>): Gen<seq<Decl>> {
    Chain(TopDecls(file.messages, |file.messages|, messages, enums), Emitted(EnumsDecls(file.enums)))
  }

  // ---------------------------------------------------------------
  // Running steps in sequence
  // ---------------------------------------------------------------

  lemma EachAppend<A, T>(xs: seq<A>, x: A, f: A -> T)
    ensures Each(xs + [x], f) == Each(xs, f) + [f(x)]
  {
    assert (xs + [x])[..|xs|] == xs;
  }

  lemma EachStep<A, T>(xs: seq<A>, i: nat, f: A -> T)
    requires i < |xs|
    ensures Each(xs[..i + 1], f) == Each(xs[..i], f) + [f(xs[i])]
  {
    assert xs[..i + 1][..i] == xs[..i];
  }

  /** Each keeps the length and maps position by position. */
  lemma {:induction false} EachElements<A, T>(xs: seq<A>, f: A -> T)
    ensures |Each(xs, f)| == |xs|
    ensures forall i :: 0 <= i < |xs| ==> Each(xs, f)[i] == f(xs[i])
  {
    if xs != [] {
      EachElements(xs[..|xs| - 1], f);
    }
  }

  lemma EmptyAppend(typ: string, ps: seq<Field>, f: Field)
    ensures EmptyDecls(typ, ps + [f]) == EmptyDecls(typ, ps) + [EmptyDeclOf(typ, f)]
  {
    assert (ps + [f])[..|ps|] == ps;
  }

  /** genMessage either aborts in FastUnmarshal or emits its own
      declarations, then the nested messages', then the nested enums'. */
  lemma MessageDeclsCases(m: Message, messages: map<string, Message>, enums: map<string, EnumType>)
    ensures UnmarshalDecl(m, messages, enums).Crashed? ==>
      MessageDecls(m, messages, enums) == Crashed(UnmarshalDecl(m, messages, enums).message)
    ensures UnmarshalDecl(m, messages, enums).Emitted? ==>
      MessageDecls(m, messages, enums) ==
        Chain(Chain(Emitted(OwnDecls(m, UnmarshalDecl(m, messages, enums).value)),
                    NestedDecls(m, |m.messages|, messages, enums)),
              Emitted(EnumsDecls(m.enums)))
  {
  }

  /** One more step extends the run over a prefix. */
  lemma CollectStep<A, T>(xs: seq<A>, i: nat, step: A -> Gen<seq<T>>)
    requires i < |xs|
    ensures Collect(xs[..i + 1], step) == Chain(Collect(xs[..i], step), step(xs[i]))
  {
    assert xs[..i + 1][..i] == xs[..i];
  }

  /** A run that has aborted stays aborted, whatever comes after. */
  lemma ChainAborts<T>(a: Gen<seq<T>>, b: Gen<seq<T>>)
    requires a.Crashed?
    ensures Chain(a, b) == a
  {
  }

  /** Once a prefix aborts, the whole run aborts with the same message. */
  lemma {:induction false} CollectAborts<A, T>(xs: seq<A>, i: nat, step: A -> Gen<seq<T>>)
    requires i <= |xs| && Collect(xs[..i], step).Crashed?
    ensures Collect(xs, step) == Collect(xs[..i], step)
    decreases |xs| - i
  {
    if i < |xs| {
      CollectStep(xs, i, step);
      CollectAborts(xs, i + 1, step);
    } else {
      assert xs[..i] == xs;
    }
  }

  /** The same for the top-level messages of a file. */
  lemma {:induction false} TopAborts(ms: seq<Message>, i: nat, messages: map<string, Message>, enums: map<string, EnumType>)
    requires i <= |ms| && TopDecls(ms, i, messages, enums).Crashed?
    ensures TopDecls(ms, |ms|, messages, enums) == TopDecls(ms, i, messages, enums)
    decreases |ms| - i
  {
    if i < |ms| {
      ChainAborts(TopDecls(ms, i, messages, enums), MessageDecls(ms[i], messages, enums));
      TopAborts(ms, i + 1, messages, enums);
    }
  }

  /** One more top-level message either extends the run or aborts the
      whole file with its panic. */
  lemma TopStep(ms: seq<Message>, i: nat, messages: map<string, Message>, enums: map<string, EnumType>)
    requires i < |ms| && TopDecls(ms, i, messages, enums).Emitted?
    ensures MessageDecls(ms[i], messages, enums).Emitted? ==>
      TopDecls(ms, i + 1, messages, enums) ==
        Emitted(TopDecls(ms, i, messages, enums).value + MessageDecls(ms[i], messages, enums).value)
    ensures MessageDecls(ms[i], messages, enums).Crashed? ==>
      TopDecls(ms, |ms|, messages, enums) == Crashed(MessageDecls(ms[i], messages, enums).message)
  {
    if MessageDecls(ms[i], messages, enums).Crashed? {
      TopAborts(ms, i + 1, messages, enums);
    }
  }

  /** One more nested message either extends the run or aborts the whole
      parent with its panic. */
  lemma NestedStep(parent: Message, i: nat, messages: map<string, Message>, enums: map<string, EnumType>)
    requires i < |parent.messages| && NestedDecls(parent, i, messages, enums).Emitted?
    ensures ChildDecls(parent.messages[i], messages, enums).Emitted? ==>
      NestedDecls(parent, i + 1, messages, enums) ==
        Emitted(NestedDecls(parent, i, messages, enums).value + ChildDecls(parent.messages[i], messages, enums).value)
    ensures ChildDecls(parent.messages[i], messages, enums).Crashed? ==>
      NestedDecls(parent, |parent.messages|, messages, enums) == Crashed(ChildDecls(parent.messages[i], messages, enums).message)
  {
    if ChildDecls(parent.messages[i], messages, enums).Crashed? {
      NestedAborts(parent, i + 1, |parent.messages|, messages, enums);
    }
  }

  /** The same for the nested messages of a message. */
  lemma {:induction false} NestedAborts(parent: Message, i: nat, n: nat,
                                        messages: map<string, Message>, enums: map<string, EnumType>)
    requires i <= n <= |parent.messages| && NestedDecls(parent, i, messages, enums).Crashed?
    ensures NestedDecls(parent, n, messages, enums) == NestedDecls(parent, i, messages, enums)
    decreases n - i
  {
    if i < n {
      NestedAborts(parent, i, n - 1, messages, enums);
      ChainAborts(NestedDecls(parent, n - 1, messages, enums), ChildDecls(parent.messages[n - 1], messages, enums));
    }
  }
}
