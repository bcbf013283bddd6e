/** The generator object: its message and enum indexes (keyed by full
    protobuf name) and the declarations of the file being generated. The
    index builders are recursive walks over the nested messages; the
    generate* methods loop over fields and oneofs appending declarations,
    each proved to append what the GenCode function for it says. */
module CodeGen {
  import opened Options
  import opened Schema
  import opened GenRules
  import opened GenCode

  // ---------------------------------------------------------------
  // The indexes
  // ---------------------------------------------------------------

  /** The full names of m and of every message nested in it, at any depth. */
  function Names(m: Message): set<string>
    decreases m, 1
  {
    {m.fullName} + ChildNames(m, |m.messages|)
  }

  function ChildNames(parent: Message, n: nat): set<string>
    requires n <= |parent.messages|
    decreases parent, 0, n
  {
    if n == 0 then {} else ChildNames(parent, n - 1) + Names(parent.messages[n - 1])
  }

  /** r is idx with exactly the names added: every name of idx keeps its
      entry, and each added name maps to a message or enum of that name. */
  predicate ExtendsMessages(idx: map<string, Message>, r: map<string, Message>, names: set<string>) {
    r.Keys == idx.Keys + names &&
    (forall k :: k in idx ==> k in r && r[k] == idx[k]) &&
    (forall k :: k in r && k !in idx ==> r[k].fullName == k)
  }

  predicate ExtendsEnums(idx: map<string, EnumType>, r: map<string, EnumType>, names: set<string>) {
    r.Keys == idx.Keys + names &&
    (forall k :: k in idx ==> k in r && r[k] == idx[k]) &&
    (forall k :: k in r && k !in idx ==> r[k].fullName == k)
  }

  /** addMessageType: m is registered under its full name unless that name
      is already taken, then its nested messages are registered in order. */
  function AddMessage(idx: map<string, Message>, m: Message): map<string, Message>
    decreases m, 1
  {
    AddChildren(if m.fullName in idx then idx else idx[m.fullName := m], m, |m.messages|)
  }

  /** The first n nested messages of parent, registered in order. */
  function AddChildren(idx: map<string, Message>, parent: Message, n: nat): map<string, Message>
    requires n <= |parent.messages|
    decreases parent, 0, n
  {
    if n == 0 then idx else AddMessage(AddChildren(idx, parent, n - 1), parent.messages[n - 1])
  }

  /** buildMessageIndex: the top-level messages of a file, in order. */
  function AddMessages(idx: map<string, Message>, ms: seq<Message>): map<string, Message> {
    if ms == [] then idx else AddMessage(AddMessages(idx, ms[..|ms| - 1]), ms[|ms| - 1])
  }

  /** The full names of the messages of ms and of all messages nested in them. */
  function AllNames(ms: seq<Message>): set<string> {
    if ms == [] then {} else AllNames(ms[..|ms| - 1]) + Names(ms[|ms| - 1])
  }

  function EnumFullNames(es: seq<EnumType>): set<string> {
    if es == [] then {} else EnumFullNames(es[..|es| - 1]) + {es[|es| - 1].fullName}
  }

  /** addTopEnumType: first registration wins. */
  function AddEnum(idx: map<string, EnumType>, e: EnumType): map<string, EnumType> {
    if e.fullName in idx then idx else idx[e.fullName := e]
  }

  function AddEnums(idx: map<string, EnumType>, es: seq<EnumType>): map<string, EnumType> {
    if es == [] then idx else AddEnum(AddEnums(idx, es[..|es| - 1]), es[|es| - 1])
  }

  /** The full names of the enums declared in m or in any message nested
      in it. */
  function EnumNames(m: Message): set<string>
    decreases m, 1
  {
    EnumFullNames(m.enums) + ChildEnumNames(m, |m.messages|)
  }

  function ChildEnumNames(parent: Message, n: nat): set<string>
    requires n <= |parent.messages|
    decreases parent, 0, n
  {
    if n == 0 then {} else ChildEnumNames(parent, n - 1) + EnumNames(parent.messages[n - 1])
  }

  function AllEnumNames(ms: seq<Message>): set<string> {
    if ms == [] then {} else AllEnumNames(ms[..|ms| - 1]) + EnumNames(ms[|ms| - 1])
  }

  /** addNestedEnumType: m's own enums, then those of its nested messages. */
  function AddNestedEnums(idx: map<string, EnumType>, m: Message): map<string, EnumType>
    decreases m, 1
  {
    AddNestedChildren(AddEnums(idx, m.enums), m, |m.messages|)
  }

  function AddNestedChildren(idx: map<string, EnumType>, parent: Message, n: nat): map<string, EnumType>
    requires n <= |parent.messages|
    decreases parent, 0, n
  {
    if n == 0 then idx else AddNestedEnums(AddNestedChildren(idx, parent, n - 1), parent.messages[n - 1])
  }

  function AddAllNestedEnums(idx: map<string, EnumType>, ms: seq<Message>): map<string, EnumType> {
    if ms == [] then idx else AddNestedEnums(AddAllNestedEnums(idx, ms[..|ms| - 1]), ms[|ms| - 1])
  }

  /** buildEnumIndex: the top-level enums, then the enums nested in each
      top-level message. */
  function EnumIndex(idx: map<string, EnumType>, file: File): map<string, EnumType> {
    AddAllNestedEnums(AddEnums(idx, file.enums), file.messages)
  }

  // ---------------------------------------------------------------
  // What the indexes hold
  // ---------------------------------------------------------------

  /** Registering a message adds exactly the full names of the message
      and of everything nested in it; a name already present keeps its
      first message, and every new name maps to a message of that name. */
  lemma {:induction false} MessageIndexFirstWins(idx: map<string, Message>, m: Message)
    ensures ExtendsMessages(idx, AddMessage(idx, m), Names(m))
    decreases m, 1
  {
    var start := if m.fullName in idx then idx else idx[m.fullName := m];
    ChildrenIndexed(start, m, |m.messages|);
  }

  lemma {:induction false} ChildrenIndexed(idx: map<string, Message>, parent: Message, n: nat)
    requires n <= |parent.messages|
    ensures ExtendsMessages(idx, AddChildren(idx, parent, n), ChildNames(parent, n))
    decreases parent, 0, n
  {
    if n > 0 {
      ChildrenIndexed(idx, parent, n - 1);
      MessageIndexFirstWins(AddChildren(idx, parent, n - 1), parent.messages[n - 1]);
    }
  }

  /** buildMessageIndex registers exactly the names of a file's messages,
      nested ones included, keeping any earlier registration. */
  lemma {:induction false} FileMessagesIndexed(idx: map<string, Message>, ms: seq<Message>)
    ensures ExtendsMessages(idx, AddMessages(idx, ms), AllNames(ms))
  {
    if ms != [] {
      FileMessagesIndexed(idx, ms[..|ms| - 1]);
      MessageIndexFirstWins(AddMessages(idx, ms[..|ms| - 1]), ms[|ms| - 1]);
    }
  }

  /** Registering enums adds exactly their full names, first one wins. */
  lemma {:induction false} EnumsIndexed(idx: map<string, EnumType>, es: seq<EnumType>)
    ensures ExtendsEnums(idx, AddEnums(idx, es), EnumFullNames(es))
  {
    if es != [] {
      EnumsIndexed(idx, es[..|es| - 1]);
    }
  }

  /** addNestedEnumType adds exactly the enums declared at any depth in m. */
  lemma {:induction false} NestedEnumsIndexed(idx: map<string, EnumType>, m: Message)
    ensures ExtendsEnums(idx, AddNestedEnums(idx, m), EnumNames(m))
    decreases m, 1
  {
    EnumsIndexed(idx, m.enums);
    NestedChildrenIndexed(AddEnums(idx, m.enums), m, |m.messages|);
  }

  lemma {:induction false} NestedChildrenIndexed(idx: map<string, EnumType>, parent: Message, n: nat)
    requires n <= |parent.messages|
    ensures ExtendsEnums(idx, AddNestedChildren(idx, parent, n), ChildEnumNames(parent, n))
    decreases parent, 0, n
  {
    if n > 0 {
      NestedChildrenIndexed(idx, parent, n - 1);
      NestedEnumsIndexed(AddNestedChildren(idx, parent, n - 1), parent.messages[n - 1]);
    }
  }

  /** buildEnumIndex registers exactly the file's top-level enums and the
      enums nested at any depth in its messages. */
  lemma {:induction false} FileEnumsIndexed(idx: map<string, EnumType>, file: File)
    ensures ExtendsEnums(idx, EnumIndex(idx, file), EnumFullNames(file.enums) + AllEnumNames(file.messages))
  {
    EnumsIndexed(idx, file.enums);
    AllNestedIndexed(AddEnums(idx, file.enums), file.messages);
  }

  lemma {:induction false} AllNestedIndexed(idx: map<string, EnumType>, ms: seq<Message>)
    ensures ExtendsEnums(idx, AddAllNestedEnums(idx, ms), AllEnumNames(ms))
  {
    if ms != [] {
      AllNestedIndexed(idx, ms[..|ms| - 1]);
      NestedEnumsIndexed(AddAllNestedEnums(idx, ms[..|ms| - 1]), ms[|ms| - 1]);
    }
  }

  // ---------------------------------------------------------------
  // The loops of the generate* methods over a message's fields
  // ---------------------------------------------------------------

  /** generateMarshal's loops: a block per field outside every oneof, then
      the type-assertion chain of each oneof. */
  method MarshalOf(m: Message) returns (d: Decl)
    ensures d == MarshalDecl(m)
  {
    var blocks: seq<MarshalBlock> := [];
    var i := 0;
    while i < |m.fields|
      invariant i <= |m.fields|
      invariant blocks == Each(PlainFields(m.fields[..i]), MarshalBlockOf)
    {
      PlainStep(m.fields, i);
      var f := m.fields[i];
      if !f.inOneof {
        EachAppend(PlainFields(m.fields[..i]), f, MarshalBlockOf);
        blocks := blocks + [MarshalBlockOf(f)];
      }
      i := i + 1;
    }
    assert m.fields[..i] == m.fields;
    var oneofs: seq<OneofBlock> := [];
    var j := 0;
    while j < |m.oneofs|
      invariant j <= |m.oneofs|
      invariant oneofs == Each(m.oneofs[..j], OneofBlockOf)
    {
      EachStep(m.oneofs, j, OneofBlockOf);
      var o := m.oneofs[j];
      var arms: seq<VariantBlock> := [];
      var k := 0;
      while k < |o.fields|
        invariant k <= |o.fields|
        invariant arms == Each(o.fields[..k], VariantBlockOf)
      {
        EachStep(o.fields, k, VariantBlockOf);
        arms := arms + [VariantBlockOf(o.fields[k])];
        k := k + 1;
      }
      assert o.fields[..k] == o.fields;
      oneofs := oneofs + [OneofBlock(o.goName, arms)];
      j := j + 1;
    }
    assert m.oneofs[..j] == m.oneofs;
    d := MarshalFunc(m.goName, blocks, oneofs);
  }

  /** generateUnmarshal's loops: a case per field outside every oneof,
      then a case per oneof variant, as far as the first type name that
      cannot be resolved. */
  method UnmarshalOf(m: Message, messages: map<string, Message>, enums: map<string, EnumType>) returns (g: Gen<Decl>)
    ensures g == UnmarshalDecl(m, messages, enums)
  {
    var plain := PlainCase(messages, enums);
    var cases: seq<UnmarshalCase> := [];
    var i := 0;
    while i < |m.fields|
      invariant i <= |m.fields|
      invariant Collect(m.fields[..i], plain) == Emitted(cases)
    {
      CollectStep(m.fields, i, plain);
      var f := m.fields[i];
      if !f.inOneof {
        var c := UnmarshalCaseOf(f, messages, enums);
        if c.Crashed? {
          CollectAborts(m.fields, i + 1, plain);
          return Crashed(c.message);
        }
        cases := cases + [c.value];
      } else {
        assert cases + [] == cases;
      }
      i := i + 1;
    }
    assert m.fields[..i] == m.fields;
    var ocases: seq<UnmarshalCase> := [];
    var j := 0;
    while j < |m.oneofs|
      invariant j <= |m.oneofs|
      invariant Collect(m.oneofs[..j], OneofCases) == Emitted(ocases)
    {
      CollectStep(m.oneofs, j, OneofCases);
      var o := m.oneofs[j];
      var vcases: seq<UnmarshalCase> := [];
      var k := 0;
      while k < |o.fields|
        invariant k <= |o.fields|
        invariant Collect(o.fields[..k], VariantCase(o)) == Emitted(vcases)
      {
        CollectStep(o.fields, k, VariantCase(o));
        var c := OneofCaseOf(o, o.fields[k]);
        if c.Crashed? {
          CollectAborts(o.fields, k + 1, VariantCase(o));
          CollectAborts(m.oneofs, j + 1, OneofCases);
          return Crashed(c.message);
        }
        vcases := vcases + [c.value];
        k := k + 1;
      }
      assert o.fields[..k] == o.fields;
      ocases := ocases + vcases;
      j := j + 1;
    }
    assert m.oneofs[..j] == m.oneofs;
    return Emitted(UnmarshalFunc(m.goName, cases + ocases));
  }

  /** generateDestructor's loops: a reset per field outside every oneof,
      then, per oneof, the chain over its message-kind variants. */
  method DestructorOf(m: Message) returns (d: Decl)
    ensures d == DestructorDecl(m)
  {
    var resets: seq<FieldReset> := [];
    var i := 0;
    while i < |m.fields|
      invariant i <= |m.fields|
      invariant resets == Each(PlainFields(m.fields[..i]), FieldResetOf)
    {
      PlainStep(m.fields, i);
      var f := m.fields[i];
      if !f.inOneof {
        EachAppend(PlainFields(m.fields[..i]), f, FieldResetOf);
        resets := resets + [FieldResetOf(f)];
      }
      i := i + 1;
    }
    assert m.fields[..i] == m.fields;
    var oneofs: seq<OneofReset> := [];
    var j := 0;
    while j < |m.oneofs|
      invariant j <= |m.oneofs|
      invariant oneofs == Each(m.oneofs[..j], OneofResetOf)
    {
      EachStep(m.oneofs, j, OneofResetOf);
      var o := m.oneofs[j];
      var variants: seq<VariantReset> := [];
      var k := 0;
      while k < |o.fields|
        invariant k <= |o.fields|
        invariant variants == MessageVariants(o.fields[..k])
      {
        assert o.fields[..k + 1][..k] == o.fields[..k];
        var f := o.fields[k];
        if f.kind == MessageKind {
          variants := variants + [VariantReset(f.ident, f.goName, f.ref)];
        }
        k := k + 1;
      }
      assert o.fields[..k] == o.fields;
      oneofs := oneofs + [OneofReset(o.goName, variants)];
      j := j + 1;
    }
    assert m.oneofs[..j] == m.oneofs;
    d := DestructorFunc(m.goName, resets, oneofs);
  }

  /** generateEmpty's loop: an IsEmpty method per field outside every
      oneof. */
  method EmptiesOf(typ: string, fs: seq<Field>) returns (ds: seq<Decl>)
    ensures ds == EmptyDecls(typ, PlainFields(fs))
  {
    ds := [];
    var i := 0;
    while i < |fs|
      invariant i <= |fs|
      invariant ds == EmptyDecls(typ, PlainFields(fs[..i]))
    {
      PlainStep(fs, i);
      var f := fs[i];
      if !f.inOneof {
        EmptyAppend(typ, PlainFields(fs[..i]), f);
        ds := ds + [EmptyDeclOf(typ, f)];
      }
      i := i + 1;
    }
    assert fs[..i] == fs;
  }

  // ---------------------------------------------------------------
  // The generator
  // ---------------------------------------------------------------

  class Generator {
    var messagesMap: map<string, Message>
    var enumsMap: map<string, EnumType>
    /** The declarations of the file being generated (the GeneratedFile). */
    var gf: seq<Decl>

    constructor()
      ensures messagesMap == map[] && enumsMap == map[] && gf == []
    {
      messagesMap := map[];
      enumsMap := map[];
      gf := [];
    }

    method AddMessageType(m: Message)
      modifies this
      ensures messagesMap == AddMessage(old(messagesMap), m)
      ensures enumsMap == old(enumsMap) && gf == old(gf)
      decreases m, 1
    {
      if m.fullName !in messagesMap {
        messagesMap := messagesMap[m.fullName := m];
      }
      ghost var start := messagesMap;
      assert start == (if m.fullName in old(messagesMap) then old(messagesMap) else old(messagesMap)[m.fullName := m]);
      var i := 0;
      while i < |m.messages|
        invariant i <= |m.messages|
        invariant messagesMap == AddChildren(start, m, i)
        invariant enumsMap == old(enumsMap) && gf == old(gf)
      {
        AddMessageType(m.messages[i]);
        i := i + 1;
      }
    }

    method BuildMessageIndex(file: File)
      modifies this
      ensures messagesMap == AddMessages(old(messagesMap), file.messages)
      ensures enumsMap == old(enumsMap) && gf == old(gf)
    {
      var i := 0;
      while i < |file.messages|
        invariant i <= |file.messages|
        invariant messagesMap == AddMessages(old(messagesMap), file.messages[..i])
        invariant enumsMap == old(enumsMap) && gf == old(gf)
      {
        assert file.messages[..i + 1][..i] == file.messages[..i];
        AddMessageType(file.messages[i]);
        i := i + 1;
      }
      assert file.messages[..i] == file.messages;
    }

    method AddTopEnumType(e: EnumType)
      modifies this
      ensures enumsMap == AddEnum(old(enumsMap), e)
      ensures messagesMap == old(messagesMap) && gf == old(gf)
    {
      if e.fullName !in enumsMap {
        enumsMap := enumsMap[e.fullName := e];
      }
    }

    method AddNestedEnumType(m: Message)
      modifies this
      ensures enumsMap == AddNestedEnums(old(enumsMap), m)
      ensures messagesMap == old(messagesMap) && gf == old(gf)
      decreases m, 1
    {
      var i := 0;
      while i < |m.enums|
        invariant i <= |m.enums|
        invariant enumsMap == AddEnums(old(enumsMap), m.enums[..i])
        invariant messagesMap == old(messagesMap) && gf == old(gf)
      {
        assert m.enums[..i + 1][..i] == m.enums[..i];
        AddTopEnumType(m.enums[i]);
        i := i + 1;
      }
      assert m.enums[..i] == m.enums;
      ghost var own := enumsMap;
      var j := 0;
      while j < |m.messages|
        invariant j <= |m.messages|
        invariant enumsMap == AddNestedChildren(own, m, j)
        invariant messagesMap == old(messagesMap) && gf == old(gf)
      {
        AddNestedEnumType(m.messages[j]);
        j := j + 1;
      }
    }

    method BuildEnumIndex(file: File)
      modifies this
      ensures enumsMap == EnumIndex(old(enumsMap), file)
      ensures messagesMap == old(messagesMap) && gf == old(gf)
    {
      var i := 0;
      while i < |file.enums|
        invariant i <= |file.enums|
        invariant enumsMap == AddEnums(old(enumsMap), file.enums[..i])
        invariant messagesMap == old(messagesMap) && gf == old(gf)
      {
        assert file.enums[..i + 1][..i] == file.enums[..i];
        AddTopEnumType(file.enums[i]);
        i := i + 1;
      }
      assert file.enums[..i] == file.enums;
      ghost var top := enumsMap;
      var j := 0;
      while j < |file.messages|
        invariant j <= |file.messages|
        invariant enumsMap == AddAllNestedEnums(top, file.messages[..j])
        invariant messagesMap == old(messagesMap) && gf == old(gf)
      {
        assert file.messages[..j + 1][..j] == file.messages[..j];
        AddNestedEnumType(file.messages[j]);
        j := j + 1;
      }
      assert file.messages[..j] == file.messages;
    }

    /** generateMarshal */
    method GenerateMarshal(m: Message)
      modifies this
      ensures gf == old(gf) + [MarshalDecl(m)]
      ensures messagesMap == old(messagesMap) && enumsMap == old(enumsMap)
    {
      var d := MarshalOf(m);
      gf := gf + [d];
    }

    /** generateUnmarshal: a type name that cannot be resolved aborts the
        run with its panic message (what gf then holds is never written
        out). */
    method GenerateUnmarshal(m: Message) returns (crash: Option<string>)
      modifies this
      ensures messagesMap == old(messagesMap) && enumsMap == old(enumsMap)
      ensures crash.None? <==> UnmarshalDecl(m, messagesMap, enumsMap).Emitted?
      ensures crash.None? ==> gf == old(gf) + [UnmarshalDecl(m, messagesMap, enumsMap).value]
      ensures crash.Some? ==> crash.value == UnmarshalDecl(m, messagesMap, enumsMap).message
    {
      var g := UnmarshalOf(m, messagesMap, enumsMap);
      if g.Crashed? {
        return Some(g.message);
      }
      gf := gf + [g.value];
      return None;
    }

    /** generatePool */
    method GeneratePool(m: Message)
      modifies this
      ensures gf == old(gf) + [PoolDeclOf(m)]
      ensures messagesMap == old(messagesMap) && enumsMap == old(enumsMap)
    {
      gf := gf + [PoolDecl(m.goName)];
    }

    /** generateDestructor */
    method GenerateDestructor(m: Message)
      modifies this
      ensures gf == old(gf) + [DestructorDecl(m)]
      ensures messagesMap == old(messagesMap) && enumsMap == old(enumsMap)
    {
      var d := DestructorOf(m);
      gf := gf + [d];
    }

    /** generateEmpty */
    method GenerateEmpty(m: Message)
      modifies this
      ensures gf == old(gf) + EmptyDecls(m.goName, PlainFields(m.fields))
      ensures messagesMap == old(messagesMap) && enumsMap == old(enumsMap)
    {
      var ds := EmptiesOf(m.goName, m.fields);
      gf := gf + ds;
    }

    /** generateEnum: the getters, then the setters. */
    method GenerateEnum(e: EnumType)
      modifies this
      ensures gf == old(gf) + EnumDecls(e)
      ensures messagesMap == old(messagesMap) && enumsMap == old(enumsMap)
    {
      gf := gf + [EnumGetters(e.goName)];
      gf := gf + [EnumSetters(e.goName)];
    }

    method GenerateEnums(es: seq<EnumType>)
      modifies this
      ensures gf == old(gf) + EnumsDecls(es)
      ensures messagesMap == old(messagesMap) && enumsMap == old(enumsMap)
    {
      var i := 0;
      while i < |es|
        invariant i <= |es|
        invariant gf == old(gf) + EnumsDecls(es[..i])
        invariant messagesMap == old(messagesMap) && enumsMap == old(enumsMap)
      {
        assert es[..i + 1][..i] == es[..i];
        GenerateEnum(es[i]);
        i := i + 1;
      }
      assert es[..i] == es;
    }

    /** genMessage: the message's own declarations, then its nested
        messages except map entries, then its nested enums. */
    method GenMessage(m: Message) returns (crash: Option<string>)
      modifies this
      ensures messagesMap == old(messagesMap) && enumsMap == old(enumsMap)
      ensures crash.None? <==> MessageDecls(m, messagesMap, enumsMap).Emitted?
      ensures crash.None? ==> gf == old(gf) + MessageDecls(m, messagesMap, enumsMap).value
      ensures crash.Some? ==> crash.value == MessageDecls(m, messagesMap, enumsMap).message
      decreases m, 2
    {
      MessageDeclsCases(m, messagesMap, enumsMap);
      ghost var base := gf;
      crash := GenerateOwn(m);
      if crash.Some? {
        return;
      }
      ghost var own := OwnDecls(m, UnmarshalDecl(m, messagesMap, enumsMap).value);
      crash := GenerateNested(m);
      if crash.Some? {
        return;
      }
      ghost var nested := NestedDecls(m, |m.messages|, messagesMap, enumsMap).value;
      GenerateEnums(m.enums);
      assert MessageDecls(m, messagesMap, enumsMap) == Emitted(own + nested + EnumsDecls(m.enums));
      assert gf == base + own + nested + EnumsDecls(m.enums);
      assert base + own + nested + EnumsDecls(m.enums) == base + (own + nested + EnumsDecls(m.enums));
    }

    /** The first half of genMessage: the declarations of m itself. */
    method GenerateOwn(m: Message) returns (crash: Option<string>)
      modifies this
      ensures messagesMap == old(messagesMap) && enumsMap == old(enumsMap)
      ensures crash.None? <==> UnmarshalDecl(m, messagesMap, enumsMap).Emitted?
      ensures crash.None? ==> gf == old(gf) + OwnDecls(m, UnmarshalDecl(m, messagesMap, enumsMap).value)
      ensures crash.Some? ==> crash.value == UnmarshalDecl(m, messagesMap, enumsMap).message
    {
      GenerateMarshal(m);
      crash := GenerateUnmarshal(m);
      if crash.Some? {
        return;
      }
      ghost var u := UnmarshalDecl(m, messagesMap, enumsMap).value;
      GeneratePool(m);
      GenerateDestructor(m);
      GenerateEmpty(m);
      assert gf == old(gf) + ([MarshalDecl(m), u, PoolDeclOf(m), DestructorDecl(m)]
                              + EmptyDecls(m.goName, PlainFields(m.fields)));
    }

    /** The loop of genMessage over the nested messages, map entries
        skipped. */
    method GenerateNested(m: Message) returns (crash: Option<string>)
      modifies this
      ensures messagesMap == old(messagesMap) && enumsMap == old(enumsMap)
      ensures crash.None? <==> NestedDecls(m, |m.messages|, messagesMap, enumsMap).Emitted?
      ensures crash.None? ==> gf == old(gf) + NestedDecls(m, |m.messages|, messagesMap, enumsMap).value
      ensures crash.Some? ==> crash.value == NestedDecls(m, |m.messages|, messagesMap, enumsMap).message
      decreases m, 1
    {
      ghost var msgs, ens := messagesMap, enumsMap;
      var i := 0;
      while i < |m.messages|
        invariant i <= |m.messages|
        invariant messagesMap == msgs && enumsMap == ens
        invariant NestedDecls(m, i, msgs, ens).Emitted?
        invariant gf == old(gf) + NestedDecls(m, i, msgs, ens).value
      {
        crash := GenerateChild(m, i, old(gf));
        if crash.Some? {
          return;
        }
        i := i + 1;
      }
      crash := None;
    }

    /** One step of that loop: the i-th nested message, gf holding base and
        the declarations of the nested messages before it. */
    method GenerateChild(m: Message, i: nat, ghost base: seq<Decl>) returns (crash: Option<string>)
      requires i < |m.messages| && NestedDecls(m, i, messagesMap, enumsMap).Emitted?
      requires gf == base + NestedDecls(m, i, messagesMap, enumsMap).value
      modifies this
      ensures messagesMap == old(messagesMap) && enumsMap == old(enumsMap)
      ensures crash.None? ==> NestedDecls(m, i + 1, messagesMap, enumsMap).Emitted?
      ensures crash.None? ==> gf == base + NestedDecls(m, i + 1, messagesMap, enumsMap).value
      ensures crash.Some? ==> NestedDecls(m, |m.messages|, messagesMap, enumsMap) == Crashed(crash.value)
      decreases m, 0
    {
      var c := m.messages[i];
      ghost var prev := NestedDecls(m, i, messagesMap, enumsMap).value;
      NestedStep(m, i, messagesMap, enumsMap);
      if c.isMapEntry {
        assert base + prev + [] == base + (prev + []);
        return None;
      }
      crash := GenMessage(c);
      if crash.None? {
        assert gf == base + (prev + MessageDecls(c, messagesMap, enumsMap).value);
      }
    }

    /** generateMessage: the top-level messages, then the top-level enums. */
    method GenerateMessage(file: File) returns (crash: Option<string>)
      modifies this
      ensures messagesMap == old(messagesMap) && enumsMap == old(enumsMap)
      ensures crash.None? <==> FileDecls(file, messagesMap, enumsMap).Emitted?
      ensures crash.None? ==> gf == old(gf) + FileDecls(file, messagesMap, enumsMap).value
      ensures crash.Some? ==> crash.value == FileDecls(file, messagesMap, enumsMap).message
    {
      crash := GenerateTop(file.messages);
      if crash.Some? {
        return;
      }
      GenerateEnums(file.enums);
    }

    /** The loop of generateMessage over the top-level messages. */
    method GenerateTop(ms: seq<Message>) returns (crash: Option<string>)
      modifies this
      ensures messagesMap == old(messagesMap) && enumsMap == old(enumsMap)
      ensures crash.None? <==> TopDecls(ms, |ms|, messagesMap, enumsMap).Emitted?
      ensures crash.None? ==> gf == old(gf) + TopDecls(ms, |ms|, messagesMap, enumsMap).value
      ensures crash.Some? ==> crash.value == TopDecls(ms, |ms|, messagesMap, enumsMap).message
    {
      ghost var msgs, ens, base := messagesMap, enumsMap, gf;
      for i := 0 to |ms|
        invariant messagesMap == msgs && enumsMap == ens
        invariant TopDecls(ms, i, msgs, ens).Emitted?
        invariant gf == base + TopDecls(ms, i, msgs, ens).value
      {
        crash := GenerateTopStep(ms, i, base);
        if crash.Some? {
          return;
        }
      }
      crash := None;
    }

    /** One step of that loop: genMessage on the i-th message, gf holding
        base and the declarations of the messages before it. */
    method GenerateTopStep(ms: seq<Message>, i: nat, ghost base: seq<Decl>) returns (crash: Option<string>)
      requires i < |ms| && TopDecls(ms, i, messagesMap, enumsMap).Emitted?
      requires gf == base + TopDecls(ms, i, messagesMap, enumsMap).value
      modifies this
      ensures messagesMap == old(messagesMap) && enumsMap == old(enumsMap)
      ensures crash.None? ==> TopDecls(ms, i + 1, messagesMap, enumsMap).Emitted?
      ensures crash.None? ==> gf == base + TopDecls(ms, i + 1, messagesMap, enumsMap).value
      ensures crash.Some? ==> TopDecls(ms, |ms|, messagesMap, enumsMap) == Crashed(crash.value)
    {
      ghost var prev := TopDecls(ms, i, messagesMap, enumsMap).value;
      TopStep(ms, i, messagesMap, enumsMap);
      crash := GenMessage(ms[i]);
      if crash.None? {
        assert gf == base + (prev + MessageDecls(ms[i], messagesMap, enumsMap).value);
      }
    }

    /** One file of GenerateAllFiles: a fresh generated file, the indexes
        extended with the file's messages and enums, then its code. */
    method GenerateFile(file: File) returns (crash: Option<string>)
      modifies this
      ensures messagesMap == AddMessages(old(messagesMap), file.messages)
      ensures enumsMap == EnumIndex(old(enumsMap), file)
      ensures crash.None? <==> FileDecls(file, messagesMap, enumsMap).Emitted?
      ensures crash.None? ==> gf == FileDecls(file, messagesMap, enumsMap).value
      ensures crash.Some? ==> crash.value == FileDecls(file, messagesMap, enumsMap).message
    {
      gf := [];
      BuildMessageIndex(file);
      BuildEnumIndex(file);
      crash := GenerateMessage(file);
    }
  }
}
