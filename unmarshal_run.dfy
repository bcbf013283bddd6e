/** What a generated FastUnmarshal does with a parser: the message it
    fills in, or the panic it raises. The interpreter runs on the
    tokenizer's functions. Every loop iteration and nested call spends one
    unit of fuel, and running out of fuel is a separate outcome.

    Two readers behave differently in the code as generated and in its
    corrected form, and `Build` selects between them. A singular or oneof
    enum is decoded through Set/SetByStr. As generated these have value
    receivers and drop the value; corrected, they store it. A []byte is
    read with Parser.Bytes. As generated that returns the base64 text
    itself; corrected, it decodes it. */
module UnmarshalRun {
  import opened Bytes
  import opened Options
  import opened Schema
  import opened GenRules
  import opened GenCode
  import opened ParserSpec
  import opened ParseTree
  import opened Runtime
  import Base64

  datatype Build = AsWritten | Corrected

  /** An outcome: the parser's result, or the generated code does not
      compile (or is run on a value of another type), or the fuel ran out. */
  datatype Step<T> = Ran(out: Out<T>) | Ill | NoFuel

  /** The enum number the tables give for what Enum() read: `_name[i]`
      for a number, `_value[s]` for a name. */
  function EnumLookup(e: EnumType, ev: EnumValue): Option<int> {
    if ev.form == ENUM_NUMBER then (if ev.number in e.names then Some(ev.number) else None)
    else if ev.name in e.values then Some(e.values[ev.name]) else None
  }

  /** What Set/SetByStr leave in the field for a number the tables know:
      nothing (None) as generated, the number once corrected. */
  function SetStores(b: Build, n: int): Option<Val> {
    if b == AsWritten then None else Some(VEnum(n))
  }

  /** What Bytes() gives for the raw text of a string token: the text
      itself as generated; corrected, its base64 decoding (None: the
      decoder's error, a panic). */
  function BytesValue(b: Build, raw: Bytes): Option<Val> {
    if b == AsWritten then Some(VBytes(Some(raw)))
    else match Base64.Decode(raw)
      case None => None
      case Some(d) => Some(VBytes(Some(d)))
  }

  /** One value read by valUnmarshal (viaGet false: an enum goes through
      Set/SetByStr) or by its list and map forms (viaGet true: Get/GetByStr,
      which return the value). Some(v) is the value stored, None nothing. */
  function ReadValue(env: Env, b: Build, r: Reader, typ: string, st: PState, fuel: nat, viaGet: bool): Step<Option<Val>>
    decreases fuel, 0
  {
    match r
    case ReadBool => (match Bol(st) case Panic(s) => Ran(Panic(s)) case Ok(s, v) => Ran(Ok(s, Some(VBool(v)))))
    case ReadInt32 => (match Int(st, 32) case Panic(s) => Ran(Panic(s)) case Ok(s, v) => Ran(Ok(s, Some(VInt(v)))))
    case ReadInt64 => (match Int(st, 64) case Panic(s) => Ran(Panic(s)) case Ok(s, v) => Ran(Ok(s, Some(VInt(v)))))
    case ReadUint32 => (match Uint(st, 32) case Panic(s) => Ran(Panic(s)) case Ok(s, v) => Ran(Ok(s, Some(VUint(v)))))
    case ReadUint64 => (match Uint(st, 64) case Panic(s) => Ran(Panic(s)) case Ok(s, v) => Ran(Ok(s, Some(VUint(v)))))
    case ReadFloat32 => (match Number(st) case Panic(s) => Ran(Panic(s)) case Ok(s, t) => Ran(Ok(s, Some(VFloat(t)))))
    case ReadFloat64 => (match Number(st) case Panic(s) => Ran(Panic(s)) case Ok(s, t) => Ran(Ok(s, Some(VFloat(t)))))
    case ReadStr => (match Str(st) case Panic(s) => Ran(Panic(s)) case Ok(s, t) => Ran(Ok(s, Some(VStr(t)))))
    case ReadBytes =>
      (match Str(st)
       case Panic(s) => Ran(Panic(s))
       case Ok(s, t) => (match BytesValue(b, t) case None => Ran(Panic(s)) case Some(v) => Ran(Ok(s, Some(v)))))
    case ReadEnum =>
      if typ !in env.enums || (viaGet && typ !in env.getters) || (!viaGet && typ !in env.setters) then Ill
      else
        (match Enum(st)
         case Panic(s) => Ran(Panic(s))
         case Ok(s, ev) =>
           match EnumLookup(env.enums[typ], ev)
           case None => Ran(Panic(s))
           case Some(n) => Ran(Ok(s, if viaGet then Some(VEnum(n)) else SetStores(b, n))))
    case ReadNested =>
      // `<T>New()` is taken to hand back a cleared instance, EMPTY.
      if typ !in env.pools then Ill
      else if fuel == 0 then NoFuel
      else
        match Unmarshal(env, b, typ, Some(EMPTY), st, fuel - 1)
        case Ran(Ok(s, m)) => Ran(Ok(s, Some(VMsg(Some(m)))))
        case Ran(Panic(s)) => Ran(Panic(s))
        case Ill => Ill
        case NoFuel => NoFuel
  }

  /** listUnmarshal's loop: elements until ']' is at off, then ',' is
      asserted and ']' must follow. */
  function ListLoop(env: Env, b: Build, r: Reader, typ: string, acc: seq<Val>, st: PState, fuel: nat): Step<seq<Val>>
    decreases fuel, 2
  {
    if fuel == 0 then NoFuel
    else match IsSymbol(st, RBRACKET)
      case Panic(s) => Ran(Panic(s))
      case Ok(s, true) =>
        (match Symbol(AssertSymbol(s, COMMA), RBRACKET) case Panic(p) => Ran(Panic(p)) case Ok(p, _) => Ran(Ok(p, acc)))
      case Ok(s, false) =>
        match ReadValue(env, b, r, typ, s, fuel - 1, true)
        case Ran(Ok(s1, v)) => ListLoop(env, b, r, typ, acc + (if v.Some? then [v.value] else []), AssertSymbol(s1, COMMA), fuel - 1)
        case Ran(Panic(p)) => Ran(Panic(p))
        case Ill => Ill
        case NoFuel => NoFuel
  }

  /** `m[key] = v`: a key already present keeps its place and takes the
      new value, a new key is added at the end. */
  function Put(es: seq<Entry>, k: Val, v: Val): (r: seq<Entry>)
    ensures Entry(k, v) in r
    ensures forall e :: e in r ==> e in es || e == Entry(k, v)
    ensures forall e :: e in es && e.key != k ==> e in r
    ensures |es| <= |r| <= |es| + 1
    ensures forall i :: 0 <= i < |es| ==> r[i].key == es[i].key
    ensures |r| == |es| + 1 ==> r[|es|] == Entry(k, v) && forall e :: e in es ==> e.key != k
  {
    if es == [] then [Entry(k, v)]
    else if es[0].key == k then [Entry(k, v)] + es[1..]
    else [es[0]] + Put(es[1..], k, v)
  }

  /** mapUnmarshal's loop: each key is a string token, then ':' and a value. */
  function MapLoop(env: Env, b: Build, r: Reader, typ: string, acc: seq<Entry>, st: PState, fuel: nat): Step<seq<Entry>>
    decreases fuel, 2
  {
    if fuel == 0 then NoFuel
    else match IsSymbol(st, RBRACE)
      case Panic(s) => Ran(Panic(s))
      case Ok(s, true) =>
        (match Symbol(AssertSymbol(s, COMMA), RBRACE) case Panic(p) => Ran(Panic(p)) case Ok(p, _) => Ran(Ok(p, acc)))
      case Ok(s, false) =>
        match Str(s)
        case Panic(p) => Ran(Panic(p))
        case Ok(s1, key) =>
          match ReadValue(env, b, r, typ, AssertSymbol(s1, COLON), fuel - 1, true)
          case Ran(Ok(s2, v)) =>
            MapLoop(env, b, r, typ, if v.Some? then Put(acc, VStr(key), v.value) else acc, AssertSymbol(s2, COMMA), fuel - 1)
          case Ran(Panic(p)) => Ran(Panic(p))
          case Ill => Ill
          case NoFuel => NoFuel
  }

  /** The body of one case of the switch on the key. A case with no
      reader (a group field) is never emitted: the generator aborts on
      its type name first. A map whose key type is not string does not
      compile, since the key is read with Str(). */
  function RunCase(env: Env, b: Build, c: UnmarshalCase, x: Msg, st: PState, fuel: nat): Step<Msg>
    decreases fuel, 3
  {
    if c.r.None? then Ill
    else match c
      case TypeCase(_, g, r, typ) =>
        (match ReadValue(env, b, r.value, typ, st, fuel, false)
         case Ran(Ok(s, v)) => Ran(Ok(s, if v.Some? then x.(fields := x.fields[g := One(v.value)]) else x))
         case Ran(Panic(s)) => Ran(Panic(s))
         case Ill => Ill
         case NoFuel => NoFuel)
      case ListCase(_, g, _, r, typ) =>
        (match Symbol(st, LBRACKET)
         case Panic(s) => Ran(Panic(s))
         case Ok(s, _) =>
           match ListLoop(env, b, r.value, typ, [], s, fuel)
           case Ran(Ok(s2, arr)) => Ran(Ok(s2, x.(fields := x.fields[g := ListOf(arr)])))
           case Ran(Panic(p)) => Ran(Panic(p))
           case Ill => Ill
           case NoFuel => NoFuel)
      case MapCase(_, g, kt, _, r, typ) =>
        if kt != "string" then Ill
        else
          (match Symbol(st, LBRACE)
           case Panic(s) => Ran(Panic(s))
           case Ok(s, _) =>
             match MapLoop(env, b, r.value, typ, [], s, fuel)
             case Ran(Ok(s2, es)) => Ran(Ok(s2, x.(fields := x.fields[g := MapOf(es)])))
             case Ran(Panic(p)) => Ran(Panic(p))
             case Ill => Ill
             case NoFuel => NoFuel)
      case OneofCase(_, o, ident, _, r, typ) =>
        match ReadValue(env, b, r.value, typ, st, fuel, false)
        case Ran(Ok(s, v)) =>
          Ran(Ok(s, x.(oneofs := x.oneofs[o := Variant(ident, if v.Some? then v.value else VEnum(0))])))
        case Ran(Panic(s)) => Ran(Panic(s))
        case Ill => Ill
        case NoFuel => NoFuel
  }

  /** The first case labelled key. */
  function CaseFor(cases: seq<UnmarshalCase>, key: Bytes): (r: Option<UnmarshalCase>)
    ensures r.Some? ==> r.value in cases && r.value.jsonName == key
    ensures r.None? ==> forall c :: c in cases ==> c.jsonName != key
  {
    if cases == [] then None else if cases[0].jsonName == key then Some(cases[0]) else CaseFor(cases[1..], key)
  }

  /** The switch: a key no case names goes to the default,
      `p.PassParse()`. The parser library declares no PassParse; the call
      is taken to be Parse, which skips the value. As generated, that is
      the Parse whose nested calls recover too; corrected, it recovers at
      the outermost call only. */
  function Dispatch(env: Env, b: Build, cases: seq<UnmarshalCase>, key: Bytes, x: Msg, st: PState, fuel: nat): Step<Msg>
    decreases fuel, 4
  {
    match CaseFor(cases, key)
    case None =>
      if b == Corrected then Ran(Ok(Parse(st).0, x))
      else (match ParseWritten(st, fuel) case None => NoFuel case Some((s, _)) => Ran(Ok(s, x)))
    case Some(c) => RunCase(env, b, c, x, st, fuel)
  }

  /** FastUnmarshal's loop: members until '}' is at off, then ',' is
      asserted and '}' must follow. */
  function Members(env: Env, b: Build, cases: seq<UnmarshalCase>, x: Msg, st: PState, fuel: nat): Step<Msg>
    decreases fuel, 5
  {
    if fuel == 0 then NoFuel
    else match IsSymbol(st, RBRACE)
      case Panic(s) => Ran(Panic(s))
      case Ok(s, true) =>
        (match Symbol(AssertSymbol(s, COMMA), RBRACE) case Panic(p) => Ran(Panic(p)) case Ok(p, _) => Ran(Ok(p, x)))
      case Ok(s, false) => Member(env, b, cases, x, s, fuel - 1)
  }

  /** One turn of that loop: the key, then the case for it reads the value
      after ':', and the loop goes on with ',' asserted. */
  function Member(env: Env, b: Build, cases: seq<UnmarshalCase>, x: Msg, st: PState, fuel: nat): Step<Msg>
    decreases fuel, 6
  {
    match Str(st)
    case Panic(p) => Ran(Panic(p))
    case Ok(s1, key) =>
      match Dispatch(env, b, cases, key, x, AssertSymbol(s1, COLON), fuel)
      case Ran(Ok(s2, x2)) => Members(env, b, cases, x2, AssertSymbol(s2, COMMA), fuel)
      case other => other
  }

  /** x.FastUnmarshal(p) for the generated FastUnmarshal of typ: a nil x
      panics; otherwise '{' must come first. */
  function Unmarshal(env: Env, b: Build, typ: string, x: Option<Msg>, st: PState, fuel: nat): Step<Msg>
    decreases fuel, 7
  {
    if typ !in env.unmarshals then Ill
    else if x.None? then Ran(Panic(st))
    else match Symbol(st, LBRACE)
      case Panic(s) => Ran(Panic(s))
      case Ok(s, _) => Members(env, b, env.unmarshals[typ], x.value, s, fuel)
  }

  // ---------------------------------------------------------------
  // Properties
  // ---------------------------------------------------------------

  /** A nil receiver panics before reading anything. */
  lemma NilUnmarshal(env: Env, b: Build, typ: string, st: PState, fuel: nat)
    requires typ in env.unmarshals
    ensures Unmarshal(env, b, typ, None, st, fuel) == Ran(Panic(st))
  {
  }

  /** `{}` leaves the message as it was, whatever its type's cases. */
  lemma EmptyObjectKeeps(env: Env, b: Build, typ: string, x: Msg, fuel: nat)
    requires typ in env.unmarshals && fuel >= 1
    ensures Unmarshal(env, b, typ, Some(x), Init([LBRACE, RBRACE]), fuel).Ran?
    ensures Unmarshal(env, b, typ, Some(x), Init([LBRACE, RBRACE]), fuel).out.Ok?
    ensures Unmarshal(env, b, typ, Some(x), Init([LBRACE, RBRACE]), fuel).out.value == x
  {
    var d: Bytes := [LBRACE, RBRACE];
    var s0 := Init(d);
    var s1 := s0.(tok := s0.tok.(kind := TokSymbol, symbol := LBRACE), off := 1);
    assert Scan(s0) == Ok(s1, ());
    assert Symbol(s0, LBRACE) == Ok(Reset(s1), ());
    var s2 := AssertSymbol(Reset(s1), COMMA);
    assert Scan(s2) == Ok(s2.(pending := NONE, tok := s2.tok.(kind := TokSymbol, symbol := RBRACE), off := 2), ());
  }

  /** A key no case names, with a value that reads, is skipped: in both
      builds the message is unchanged and the parser is just past the
      value, given fuel for twice the remaining input. */
  lemma UnknownKeyIgnored(env: Env, b: Build, cases: seq<UnmarshalCase>, key: Bytes, x: Msg, st: PState, fuel: nat)
    requires forall c :: c in cases ==> c.jsonName != key
    requires ParseValue(st).Ok? && fuel > 2 * Rem(st)
    ensures Dispatch(env, b, cases, key, x, st, fuel) == Ran(Ok(ParseValue(st).st, x))
  {
    ValueAgrees(st, fuel, ParseValue(st).st, ParseValue(st).value);
  }

  /** `{"zz":[x]}` */
  const UNKNOWN_BAD_ARRAY: Bytes := [LBRACE, QUOTE, 0x7A, 0x7A, QUOTE, COLON, LBRACKET, 0x78, RBRACKET, RBRACE]

  /** As generated, a message with no field "zz" never finishes reading
      `{"zz":[x]}`: the default branch's Parse loops on the array, whatever
      the fuel. */
  lemma UnknownArrayLoops(env: Env, typ: string, x: Msg, fuel: nat)
    requires typ in env.unmarshals
    requires forall c :: c in env.unmarshals[typ] ==> c.jsonName != [0x7A, 0x7A]
    ensures Unmarshal(env, AsWritten, typ, Some(x), Init(UNKNOWN_BAD_ARRAY), fuel) == NoFuel
  {
    var d := UNKNOWN_BAD_ARRAY;
    var cases := env.unmarshals[typ];
    var s0 := Init(d);
    var s1 := s0.(tok := s0.tok.(kind := TokSymbol, symbol := LBRACE), off := 1);
    assert Scan(s0) == Ok(s1, ());
    var s2 := Reset(s1);
    assert Symbol(s0, LBRACE) == Ok(s2, ());
    if fuel > 0 {
      assert IsSymbol(s2, RBRACE) == Ok(s2, false);
      assert StringEnd(d, 2) == 4;
      var s3 := s2.(tok := s2.tok.(kind := TokString, raw := [0x7A, 0x7A]), off := 5);
      assert Scan(s2) == Ok(s3, ());
      var s4 := AssertSymbol(Reset(s3), COLON);
      assert Str(s2) == Ok(Reset(s3), [0x7A, 0x7A]);
      assert CaseFor(cases, [0x7A, 0x7A]).None?;
      if fuel - 1 > 0 {
        var s5 := s4.(tok := s4.tok.(kind := TokSymbol, symbol := LBRACKET), pending := NONE, off := 7);
        assert Scan(s4) == Ok(s5, ());
        StuckForever(Reset(s5), [], fuel - 2);
        assert ParseBody(s4, fuel - 2) == OutOfFuel;
      }
      assert Dispatch(env, AsWritten, cases, [0x7A, 0x7A], x, s4, fuel - 1) == NoFuel;
      assert Member(env, AsWritten, cases, x, s2, fuel - 1) == NoFuel;
    }
    assert Members(env, AsWritten, cases, x, s2, fuel) == NoFuel;
  }

  /** A later value for a map key replaces the earlier one: the entries
      keep one value per key. */
  lemma PutReplaces(es: seq<Entry>, k: Val, v: Val)
    requires forall i, j :: 0 <= i < j < |es| ==> es[i].key != es[j].key
    ensures forall i, j :: 0 <= i < j < |Put(es, k, v)| ==> Put(es, k, v)[i].key != Put(es, k, v)[j].key
    ensures |Put(es, k, v)| == |es| + (if exists e :: e in es && e.key == k then 0 else 1)
  {
    var r := Put(es, k, v);
    if |r| == |es| {
      var i :| 0 <= i < |r| && r[i] == Entry(k, v);
      assert es[i] in es && es[i].key == k;
    }
    forall i, j | 0 <= i < j < |r|
      ensures r[i].key != r[j].key
    {
      if j == |es| {
        assert es[i] in es;
      }
    }
  }
}
