/** The Go values the generated methods work on, and the environment a
    generated file provides: which FastMarshal, FastUnmarshal, Destructor,
    IsEmpty<Field>, <T>New and enum Get/Set methods it declares, and the
    enum name tables protoc-gen-go emits beside it. */
module Runtime {
  import opened Bytes
  import opened Options
  import opened Schema
  import opened GenRules
  import opened GenCode

  /** A value of a message field: bool, the signed integers (int32,
      int64), the unsigned ones (uint32, uint64), a floating-point number
      by the text strconv.FormatFloat(v, 'f', -1, bits) gives for it, a
      string, a []byte (None: nil), an enum by its number, a pointer to a
      nested message (None: nil). */
  datatype Val =
    | VBool(b: bool)
    | VInt(i: int)
    | VUint(u: nat)
    | VFloat(text: Bytes)
    | VStr(s: Bytes)
    | VBytes(data: Option<Bytes>)
    | VEnum(n: int)
    | VMsg(m: Option<Msg>)

  /** A struct field: a singular value, a non-nil slice, or a non-nil Go
      map given by its entries in the order a range over it visits them. A
      nil slice or map is the zero value, a field that is not set. */
  datatype Slot = One(v: Val) | ListOf(elems: seq<Val>) | MapOf(entries: seq<Entry>)

  datatype Entry = Entry(key: Val, val: Val)

  /** The wrapper a oneof field holds: its Go type and the variant's value. */
  datatype Variant = Variant(ident: string, v: Val)

  /** A message struct: the fields by Go name (a missing name holds its
      zero value) and the oneof fields by Go name (a missing name is nil). */
  datatype Msg = Msg(fields: map<string, Slot>, oneofs: map<string, Variant>)

  /** The zero message, what `&T{}` builds. */
  const EMPTY: Msg := Msg(map[], map[])

  /** The getter x.Get<F>() for a pointer that may be nil: a nil receiver
      and a missing field both give the zero value (None here). */
  function FieldOf(x: Option<Msg>, goName: string): Option<Slot> {
    if x.Some? && goName in x.value.fields then Some(x.value.fields[goName]) else None
  }

  /** The floating-point zero, written by FormatFloat as "0" or "-0". */
  predicate ZeroFloat(text: Bytes) {
    text == [ZERO] || text == [MINUS, ZERO]
  }

  /** What a generated IsEmpty<F> returns for the field's value; None when
      the method has no return (a group field) or the value does not have
      the type the test is written for. */
  function IsEmpty(t: EmptyTest, s: Option<Slot>): (r: Option<bool>)
    ensures t == NoReturn ==> r == None
    ensures t != NoReturn && s == None ==> r == Some(true)
  {
    if t == NoReturn then None
    else if s == None then Some(true)
    else match (t, s.value)
      case (NilTest, ListOf(_)) => Some(false)
      case (NilTest, MapOf(_)) => Some(false)
      case (NilTest, One(VBytes(d))) => Some(d == None)
      case (NilTest, One(VMsg(m))) => Some(m == None)
      case (FalseTest, One(VBool(b))) => Some(!b)
      case (ZeroOrdinalTest, One(VEnum(n))) => Some(n == 0)
      case (ZeroTest, One(VInt(i))) => Some(i == 0)
      case (ZeroTest, One(VUint(u))) => Some(u == 0)
      case (ZeroTest, One(VFloat(text))) => Some(ZeroFloat(text))
      case (EmptyStringTest, One(VStr(str))) => Some(str == [])
      case _ => None
  }

  /** A oneof's type switch, `if _, ok := x.GetO().(*Ident); ok { ... }
      else if ...`: the first arm written for the wrapper's Go type, or
      none. FastMarshal and Destructor each emit such a chain. */
  function Arm<T>(arms: seq<T>, identOf: T -> string, ident: string): (r: Option<T>)
    ensures r.Some? ==> r.value in arms && identOf(r.value) == ident
    ensures r.None? ==> forall a :: a in arms ==> identOf(a) != ident
  {
    if arms == [] then None
    else if identOf(arms[0]) == ident then Some(arms[0])
    else Arm(arms[1..], identOf, ident)
  }

  /** v has the Go type of a singular field of kind k. */
  predicate ValOfKind(k: Kind, v: Val) {
    match k
    case BoolKind => v.VBool?
    case EnumKind => v.VEnum?
    case Int32Kind | Sint32Kind | Sfixed32Kind | Int64Kind | Sint64Kind | Sfixed64Kind => v.VInt?
    case Uint32Kind | Fixed32Kind | Uint64Kind | Fixed64Kind => v.VUint?
    case FloatKind | DoubleKind => v.VFloat?
    case StringKind => v.VStr?
    case BytesKind => v.VBytes?
    case MessageKind | GroupKind => v.VMsg?
  }

  /** s has the Go type of field f: a slice for a list, a map for a map. */
  predicate SlotOfField(f: Field, s: Slot) {
    match s
    case ListOf(_) => f.card.List?
    case MapOf(_) => f.card.Map?
    case One(v) => f.card.Singular? && ValOfKind(f.kind, v)
  }

  /** s is the Go zero value of its type (a float also when it is -0,
      which compares equal to 0); a non-nil slice or map never is. */
  predicate IsZero(s: Slot) {
    match s
    case ListOf(_) => false
    case MapOf(_) => false
    case One(v) =>
      match v
      case VBool(b) => !b
      case VInt(i) => i == 0
      case VUint(u) => u == 0
      case VFloat(text) => ZeroFloat(text)
      case VStr(str) => str == []
      case VBytes(d) => d == None
      case VEnum(n) => n == 0
      case VMsg(m) => m == None
  }

  /** The IsEmpty<F> generated for a field outside every oneof answers
      for every value of the field's type, and says empty exactly when the
      field holds its zero value; a group field's method has no return. */
  lemma EmptyIffZero(f: Field, s: Slot)
    requires SlotOfField(f, s)
    ensures f.card.Singular? && f.kind == GroupKind ==> IsEmpty(EmptyTestOf(f), Some(s)) == None
    ensures !(f.card.Singular? && f.kind == GroupKind) ==> IsEmpty(EmptyTestOf(f), Some(s)) == Some(IsZero(s))
  {
  }

  /** The methods a generated file declares, by receiver type (and field
      for IsEmpty), and the enum tables by Go type name. */
  datatype Env = Env(
    marshals: map<string, (seq<MarshalBlock>, seq<OneofBlock>)>,
    unmarshals: map<string, seq<UnmarshalCase>>,
    destructors: map<string, (seq<FieldReset>, seq<OneofReset>)>,
    empties: map<(string, string), EmptyTest>,
    pools: set<string>,
    getters: set<string>,
    setters: set<string>,
    enums: map<string, EnumType>)

  /** Declare one generated function. */
  function Install(env: Env, d: Decl): Env {
    match d
    case MarshalFunc(t, bs, os) => env.(marshals := env.marshals[t := (bs, os)])
    case UnmarshalFunc(t, cs) => env.(unmarshals := env.unmarshals[t := cs])
    case PoolDecl(t) => env.(pools := env.pools + {t})
    case DestructorFunc(t, rs, ors) => env.(destructors := env.destructors[t := (rs, ors)])
    case EmptyFunc(t, f, test) => env.(empties := env.empties[(t, f) := test])
    case EnumGetters(t) => env.(getters := env.getters + {t})
    case EnumSetters(t) => env.(setters := env.setters + {t})
  }

  /** The environment of a generated file's declarations. */
  function Link(decls: seq<Decl>, enums: map<string, EnumType>): Env {
    if decls == [] then Env(map[], map[], map[], map[], {}, {}, {}, enums)
    else Install(Link(decls[..|decls| - 1], enums), decls[|decls| - 1])
  }

  /** Which declaration a Go compiler would call a duplicate of. */
  function DeclName(d: Decl): (int, string, string) {
    match d
    case MarshalFunc(t, _, _) => (0, t, "")
    case UnmarshalFunc(t, _) => (1, t, "")
    case PoolDecl(t) => (2, t, "")
    case DestructorFunc(t, _, _) => (3, t, "")
    case EmptyFunc(t, f, _) => (4, t, f)
    case EnumGetters(t) => (5, t, "")
    case EnumSetters(t) => (6, t, "")
  }

  /** env declares d. */
  predicate Provides(env: Env, d: Decl) {
    match d
    case MarshalFunc(t, bs, os) => t in env.marshals && env.marshals[t] == (bs, os)
    case UnmarshalFunc(t, cs) => t in env.unmarshals && env.unmarshals[t] == cs
    case PoolDecl(t) => t in env.pools
    case DestructorFunc(t, rs, ors) => t in env.destructors && env.destructors[t] == (rs, ors)
    case EmptyFunc(t, f, test) => (t, f) in env.empties && env.empties[(t, f)] == test
    case EnumGetters(t) => t in env.getters
    case EnumSetters(t) => t in env.setters
  }

  /** Installing a declaration keeps every other one declared under a
      different name. */
  lemma InstallKeeps(env: Env, d: Decl, e: Decl)
    requires Provides(env, e) && DeclName(d) != DeclName(e)
    ensures Provides(Install(env, d), e)
  {
  }

  /** A file's environment declares each of its declarations that no later
      one of the same name replaces, and holds the enum tables given. */
  lemma {:induction false} LinkProvides(decls: seq<Decl>, enums: map<string, EnumType>, i: nat)
    requires i < |decls|
    requires forall j :: i < j < |decls| ==> DeclName(decls[j]) != DeclName(decls[i])
    ensures Provides(Link(decls, enums), decls[i])
    ensures Link(decls, enums).enums == enums
    decreases |decls|
  {
    var init := decls[..|decls| - 1];
    if i == |decls| - 1 {
      LinkEnums(init, enums);
    } else {
      LinkProvides(init, enums, i);
      InstallKeeps(Link(init, enums), decls[|decls| - 1], decls[i]);
    }
  }

  lemma {:induction false} LinkEnums(decls: seq<Decl>, enums: map<string, EnumType>)
    ensures Link(decls, enums).enums == enums
    decreases |decls|
  {
    if decls != [] {
      LinkEnums(decls[..|decls| - 1], enums);
    }
  }
}
