/** Parse: a whole JSON value as a tree. `ParseValue`, `ObjLoop` and
    `ArrLoop` are the obj/arr recursion with a failure propagated to the
    caller, and `Parse` recovers once, at the outermost call. The Go code
    recovers at every nesting level instead; `ParseWritten` models that
    with fuel, and `ArrayElementLoops` shows it never returns on `[x]`. */
module ParseTree {
  import opened Bytes
  import opened Options
  import opened ParserSpec

  datatype JValue =
    | JNull
    | JBool(b: bool)
    | JString(raw: Bytes)
    | JNumber(text: Bytes)
    | JObject(fields: map<Bytes, JValue>)
    | JArray(items: seq<JValue>)

  /** A measure that every successful step strictly decreases. */
  function Rem(st: PState): nat {
    if st.off <= |st.data| + 1 then |st.data| + 2 - st.off else 0
  }

  /** The value of a scanned token that does not open a container: a
      literal, string or number is read by its extractor; any other token
      is an error ("unknown token"). */
  function Leaf(s: PState): (r: Out<JValue>)
    ensures Moves(s, r.st)
    ensures r.Ok? ==> s.tok.kind != TokUnknown && r.st.tok.kind == TokUnknown
  {
    match s.tok.kind
    case TokBool => (match Bol(s) case Panic(p) => Panic(p) case Ok(p, b) => Ok(p, JBool(b)))
    case TokString => (match Str(s) case Panic(p) => Panic(p) case Ok(p, t) => Ok(p, JString(t)))
    case TokNumber => (match Number(s) case Panic(p) => Panic(p) case Ok(p, t) => Ok(p, JNumber(t)))
    case TokNull => (match Null(s) case Panic(p) => Panic(p) case Ok(p, _) => Ok(p, JNull))
    case TokSymbol => Panic(Reset(s))
    case TokUnknown => Panic(s)
  }

  predicate Opens(s: PState) {
    s.tok.kind == TokSymbol && (s.tok.symbol == LBRACE || s.tok.symbol == LBRACKET)
  }

  /** One value. A token already cached is an error ("system exception");
      after the scan, '{' and '[' open an object or an array and any other
      token is a leaf. */
  function ParseValue(st: PState): (r: Out<JValue>)
    ensures r.st.data == st.data
    ensures r.Ok? ==> st.off < r.st.off <= |st.data| + 1 && r.st.tok.kind == TokUnknown
    decreases Rem(st), 0
  {
    if st.tok.kind != TokUnknown then Panic(st)
    else match Scan(st)
      case Panic(s) => Panic(s)
      case Ok(s, _) => if Opens(s) then Container(s) else Leaf(s)
  }

  /** An object or an array, from just after its opening symbol. */
  function Container(s: PState): (r: Out<JValue>)
    requires Opens(s)
    ensures r.st.data == s.data
    ensures r.Ok? ==> s.off <= r.st.off <= |s.data| + 1 && r.st.tok.kind == TokUnknown
    decreases Rem(s), 3
  {
    if s.tok.symbol == LBRACE then ObjLoop(Reset(s), map[]) else ArrLoop(Reset(s), [])
  }

  /** The end of obj and arr: ',' is asserted and the closer must follow. */
  function Close(st: PState, closer: byte, v: JValue): (r: Out<JValue>)
    ensures Moves(st, r.st)
    ensures r.Ok? ==> r.st.tok.kind == TokUnknown && r.value == v
  {
    match Symbol(AssertSymbol(st, COMMA), closer)
    case Panic(p) => Panic(p)
    case Ok(p, _) => Ok(p, v)
  }

  /** obj's loop: until '}' is at off, read a member, then the closing
      '}' needs ',' pending. */
  function ObjLoop(st: PState, acc: map<Bytes, JValue>): (r: Out<JValue>)
    ensures r.st.data == st.data
    ensures r.Ok? ==> st.off <= r.st.off <= |st.data| + 1 && r.st.tok.kind == TokUnknown
    decreases Rem(st), 2
  {
    match IsSymbol(st, RBRACE)
    case Panic(s) => Panic(s)
    case Ok(s, true) => Close(s, RBRACE, JObject(acc))
    case Ok(s, false) => ObjMember(s, acc)
  }

  /** One member: a key, ':' asserted, a value (a later duplicate key
      replaces an earlier one), ',' asserted, and the loop again. */
  function ObjMember(st: PState, acc: map<Bytes, JValue>): (r: Out<JValue>)
    ensures r.st.data == st.data
    ensures r.Ok? ==> st.off <= r.st.off <= |st.data| + 1 && r.st.tok.kind == TokUnknown
    decreases Rem(st), 1
  {
    match Str(st)
    case Panic(p) => Panic(p)
    case Ok(s1, key) =>
      match ParseValue(AssertSymbol(s1, COLON))
      case Panic(p) => Panic(p)
      case Ok(s2, v) => ObjLoop(AssertSymbol(s2, COMMA), acc[key := v])
  }

  /** arr's loop: until ']' is at off, read an element. */
  function ArrLoop(st: PState, acc: seq<JValue>): (r: Out<JValue>)
    ensures r.st.data == st.data
    ensures r.Ok? ==> st.off <= r.st.off <= |st.data| + 1 && r.st.tok.kind == TokUnknown
    decreases Rem(st), 2
  {
    match IsSymbol(st, RBRACKET)
    case Panic(s) => Panic(s)
    case Ok(s, true) => Close(s, RBRACKET, JArray(acc))
    case Ok(s, false) => ArrElement(s, acc)
  }

  /** One element: a value, ',' asserted, and the loop again. */
  function ArrElement(st: PState, acc: seq<JValue>): (r: Out<JValue>)
    ensures r.st.data == st.data
    ensures r.Ok? ==> st.off <= r.st.off <= |st.data| + 1 && r.st.tok.kind == TokUnknown
    decreases Rem(st), 1
  {
    match ParseValue(st)
    case Panic(p) => Panic(p)
    case Ok(s1, v) => ArrLoop(AssertSymbol(s1, COMMA), acc + [v])
  }

  /** Parse with its recover at the outermost call only: a failure returns
      nil (JNull) with the state where the failure happened. */
  function Parse(st: PState): (r: (PState, JValue))
    ensures r.0.data == st.data
    ensures ParseValue(st).Ok? ==> r == (ParseValue(st).st, ParseValue(st).value)
    ensures ParseValue(st).Panic? ==> r == (ParseValue(st).st, JNull)
  {
    match ParseValue(st)
    case Ok(s, v) => (s, v)
    case Panic(s) => (s, JNull)
  }

  // ---------------------------------------------------------------
  // Parse as written: every nested Parse call recovers.
  // ---------------------------------------------------------------

  /** A run that may not finish within its fuel. */
  datatype Run<T> = Done(out: Out<T>) | OutOfFuel

  /** Parse as written: recovers from any failure of its own body and
      returns nil; None means the fuel ran out. */
  function ParseWritten(st: PState, fuel: nat): Option<(PState, JValue)>
    decreases fuel, 0
  {
    if fuel == 0 then None
    else match ParseBody(st, fuel - 1)
      case OutOfFuel => None
      case Done(Ok(s, v)) => Some((s, v))
      case Done(Panic(s)) => Some((s, JNull))
  }

  /** The body of the written Parse: as ParseValue, with the written loops. */
  function ParseBody(st: PState, fuel: nat): Run<JValue>
    decreases fuel, 2
  {
    if st.tok.kind != TokUnknown then Done(Panic(st))
    else match Scan(st)
      case Panic(s) => Done(Panic(s))
      case Ok(s, _) => if Opens(s) then ContainerWritten(s, fuel) else Done(Leaf(s))
  }

  /** Container with the written loops. */
  function ContainerWritten(s: PState, fuel: nat): Run<JValue>
    requires Opens(s)
    decreases fuel, 1
  {
    if s.tok.symbol == LBRACE then ObjWritten(Reset(s), map[], fuel) else ArrWritten(Reset(s), [], fuel)
  }

  /** obj's loop as written. */
  function ObjWritten(st: PState, acc: map<Bytes, JValue>, fuel: nat): Run<JValue>
    decreases fuel, 0
  {
    if fuel == 0 then OutOfFuel
    else match IsSymbol(st, RBRACE)
      case Panic(s) => Done(Panic(s))
      case Ok(s, true) => Done(Close(s, RBRACE, JObject(acc)))
      case Ok(s, false) => ObjMemberWritten(s, acc, fuel - 1)
  }

  /** One member as written: the value comes from a recovering Parse. */
  function ObjMemberWritten(st: PState, acc: map<Bytes, JValue>, fuel: nat): Run<JValue>
    decreases fuel, 1
  {
    match Str(st)
    case Panic(p) => Done(Panic(p))
    case Ok(s1, key) =>
      match ParseWritten(AssertSymbol(s1, COLON), fuel)
      case None => OutOfFuel
      case Some((s2, v)) => ObjWritten(AssertSymbol(s2, COMMA), acc[key := v], fuel)
  }

  /** arr's loop as written. */
  function ArrWritten(st: PState, acc: seq<JValue>, fuel: nat): Run<JValue>
    decreases fuel, 0
  {
    if fuel == 0 then OutOfFuel
    else match IsSymbol(st, RBRACKET)
      case Panic(s) => Done(Panic(s))
      case Ok(s, true) => Done(Close(s, RBRACKET, JArray(acc)))
      case Ok(s, false) => ArrElementWritten(s, acc, fuel - 1)
  }

  /** One element as written: the value comes from a recovering Parse. */
  function ArrElementWritten(st: PState, acc: seq<JValue>, fuel: nat): Run<JValue>
    decreases fuel, 1
  {
    match ParseWritten(st, fuel)
    case None => OutOfFuel
    case Some((s1, v)) => ArrWritten(AssertSymbol(s1, COMMA), acc + [v], fuel)
  }

  // ---------------------------------------------------------------
  // The finding: `[x]` never returns as written.
  // ---------------------------------------------------------------

  const BAD_ARRAY: Bytes := [LBRACKET, 0x78, RBRACKET]

  /** The state arr's loop keeps coming back to on `[x]`. */
  function StuckState(pending: byte): PState {
    PState(BAD_ARRAY, 1, Token(TokUnknown, false, [], LBRACKET), pending)
  }

  /** As written, arr's loop at an element that starts with `x` never
      returns: the element's Parse panics without consuming input, its
      recover gives nil, and the loop comes back to the same offset. */
  lemma {:induction false} StuckForever(st: PState, acc: seq<JValue>, fuel: nat)
    requires st.off < |st.data| && st.data[st.off] == 0x78 && st.tok.kind == TokUnknown
    ensures ArrWritten(st, acc, fuel) == OutOfFuel
    decreases fuel
  {
    if fuel > 0 {
      assert IsSymbol(st, RBRACKET) == Ok(st, false);
      if fuel - 1 > 0 {
        assert Scan(st) == Panic(st);
        assert ParseBody(st, fuel - 2) == Done(Panic(st));
        assert ParseWritten(st, fuel - 1) == Some((st, JNull));
        StuckForever(AssertSymbol(st, COMMA), acc + [JNull], fuel - 1);
        assert ArrElementWritten(st, acc, fuel - 1) == ArrWritten(AssertSymbol(st, COMMA), acc + [JNull], fuel - 1);
      }
    }
  }

  /** As written, Parse on `[x]` runs out of every amount of fuel. */
  lemma ArrayElementLoops(fuel: nat)
    ensures ParseWritten(Init(BAD_ARRAY), fuel) == None
  {
    if fuel > 0 {
      var s := Init(BAD_ARRAY);
      var s1 := s.(tok := s.tok.(kind := TokSymbol, symbol := LBRACKET), off := 1);
      assert Scan(s) == Ok(s1, ());
      assert Reset(s1) == StuckState(NONE);
      StuckForever(StuckState(NONE), [], fuel - 1);
      assert ContainerWritten(s1, fuel - 1) == OutOfFuel;
      assert ParseBody(s, fuel - 1) == OutOfFuel;
    }
  }

  /** With the recover at the outermost call only, `[x]` returns nil. */
  lemma ArrayElementFails()
    ensures Parse(Init(BAD_ARRAY)) == (StuckState(NONE), JNull)
  {
    var s := Init(BAD_ARRAY);
    var s1 := s.(tok := s.tok.(kind := TokSymbol, symbol := LBRACKET), off := 1);
    assert Scan(s) == Ok(s1, ());
    var st := StuckState(NONE);
    assert Reset(s1) == st;
    assert Scan(st) == Panic(st);
    assert ParseValue(st) == Panic(st);
    assert ArrElement(st, []) == Panic(st);
    assert ArrLoop(st, []) == Panic(st);
    assert Container(s1) == Panic(st);
    assert ParseValue(s) == Panic(st);
  }

  // ---------------------------------------------------------------
  // The correction changes nothing where the written Parse succeeds.
  // ---------------------------------------------------------------

  /** Where the corrected Parse succeeds, the written one returns the same
      state and value, given fuel for twice the remaining input. */
  lemma {:induction false} ValueAgrees(st: PState, fuel: nat, fin: PState, v: JValue)
    requires ParseValue(st) == Ok(fin, v)
    requires fuel > 2 * Rem(st)
    ensures ParseWritten(st, fuel) == Some((fin, v))
    decreases Rem(st), 0
  {
    var s := Scan(st).st;
    if Opens(s) {
      assert Rem(s) < Rem(st);
      ContainerAgrees(s, fuel - 1, fin, v);
    }
  }

  lemma {:induction false} ContainerAgrees(s: PState, fuel: nat, fin: PState, v: JValue)
    requires Opens(s) && Container(s) == Ok(fin, v)
    requires fuel > 2 * Rem(s) + 1
    ensures ContainerWritten(s, fuel) == Done(Ok(fin, v))
    decreases Rem(s), 3
  {
    if s.tok.symbol == LBRACE {
      ObjAgrees(Reset(s), map[], fuel, fin, v);
    } else {
      ArrAgrees(Reset(s), [], fuel, fin, v);
    }
  }

  lemma {:induction false} ObjAgrees(st: PState, acc: map<Bytes, JValue>, fuel: nat, fin: PState, res: JValue)
    requires ObjLoop(st, acc) == Ok(fin, res)
    requires fuel > 2 * Rem(st) + 1
    ensures ObjWritten(st, acc, fuel) == Done(Ok(fin, res))
    decreases Rem(st), 2
  {
    var r := IsSymbol(st, RBRACE);
    if !r.value {
      MemberAgrees(st, acc, fuel - 1, fin, res);
    }
  }

  lemma {:induction false} MemberAgrees(st: PState, acc: map<Bytes, JValue>, fuel: nat, fin: PState, res: JValue)
    requires ObjMember(st, acc) == Ok(fin, res)
    requires fuel > 2 * Rem(st)
    ensures ObjMemberWritten(st, acc, fuel) == Done(Ok(fin, res))
    decreases Rem(st), 1
  {
    var k := Str(st);
    var s2 := AssertSymbol(k.st, COLON);
    var pv := ParseValue(s2);
    ValueAgrees(s2, fuel, pv.st, pv.value);
    var s3 := AssertSymbol(pv.st, COMMA);
    assert Rem(s3) < Rem(st);
    ObjAgrees(s3, acc[k.value := pv.value], fuel, fin, res);
  }

  lemma {:induction false} ArrAgrees(st: PState, acc: seq<JValue>, fuel: nat, fin: PState, res: JValue)
    requires ArrLoop(st, acc) == Ok(fin, res)
    requires fuel > 2 * Rem(st) + 1
    ensures ArrWritten(st, acc, fuel) == Done(Ok(fin, res))
    decreases Rem(st), 2
  {
    var r := IsSymbol(st, RBRACKET);
    if !r.value {
      ElementAgrees(st, acc, fuel - 1, fin, res);
    }
  }

  lemma {:induction false} ElementAgrees(st: PState, acc: seq<JValue>, fuel: nat, fin: PState, res: JValue)
    requires ArrElement(st, acc) == Ok(fin, res)
    requires fuel > 2 * Rem(st)
    ensures ArrElementWritten(st, acc, fuel) == Done(Ok(fin, res))
    decreases Rem(st), 1
  {
    var pv := ParseValue(st);
    ValueAgrees(st, fuel, pv.st, pv.value);
    var s3 := AssertSymbol(pv.st, COMMA);
    assert Rem(s3) < Rem(st);
    ArrAgrees(s3, acc + [pv.value], fuel, fin, res);
  }
}
