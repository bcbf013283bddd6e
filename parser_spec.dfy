/** The tokenizer as pure functions over its state: the byte slice, the
    offset, the one cached token and the pending separator (the Go field `assert`).
    Every operation returns the new state, or `Panic` with the state at the
    moment the Go code panics (syntaxErr, a failed strconv call, an index or
    slice out of range): a recover further up resumes from exactly that
    state. The class in parser.dfy runs the same steps imperatively. */
module ParserSpec {
  import opened Bytes
  import opened Options
  import opened Decimal

  datatype TokenKind = TokUnknown | TokSymbol | TokBool | TokString | TokNumber | TokNull

  /** The cached token; its fields keep their last values until overwritten. */
  datatype Token = Token(kind: TokenKind, bol: bool, raw: Bytes, symbol: byte)

  /** `pending` (the Go field `assert`) is the separator the next scan must see; 0 means none. */
  datatype PState = PState(data: Bytes, off: nat, tok: Token, pending: byte)

  /** The result of an operation: it returns normally, or it panics. */
  datatype Out<T> = Ok(st: PState, value: T) | Panic(st: PState)

  const NONE: byte := 0

  /** New(data) */
  function Init(data: Bytes): (st: PState)
    ensures st.data == data && st.off == 0 && st.tok.kind == TokUnknown && st.pending == NONE
  {
    PState(data, 0, Token(TokUnknown, false, [], 0), NONE)
  }

  /** reset: forget the cached token (its other fields stay). */
  function Reset(st: PState): PState {
    st.(tok := st.tok.(kind := TokUnknown))
  }

  /** AssertSymbol(b): record the separator the next scan must see. */
  function AssertSymbol(st: PState, b: byte): PState {
    st.(pending := b)
  }

  predicate IsSpace(c: byte) { c == SPACE || c == TAB || c == CR || c == LF }

  predicate IsNumberChar(c: byte) {
    IsDigit(c) || c == DOT || c == 0x65 || c == 0x45 || c == PLUS || c == MINUS
  }

  /** Where getString's scan stops: the first '"' not escaped by a '\'
      (a '\' skips the byte after it), or past the end. A '\' as the last
      byte makes the scan stop at |d| + 1. */
  function StringEnd(d: Bytes, i: nat): (j: nat)
    requires i <= |d| + 1
    ensures i <= j <= |d| + 1
    ensures j < |d| ==> d[j] == QUOTE
    decreases |d| + 1 - i
  {
    if i >= |d| then i
    else if d[i] == BACKSLASH then StringEnd(d, i + 2)
    else if d[i] == QUOTE then i
    else StringEnd(d, i + 1)
  }

  /** Where getNumber's greedy scan stops. */
  function NumberEnd(d: Bytes, i: nat): (j: nat)
    requires i <= |d|
    ensures i <= j <= |d|
    ensures j < |d| ==> !IsNumberChar(d[j])
    ensures forall k :: i <= k < j ==> IsNumberChar(d[k])
    decreases |d| - i
  {
    if i == |d| || !IsNumberChar(d[i]) then i else NumberEnd(d, i + 1)
  }

  /** getString, entered just after the opening quote. The raw text keeps
      its backslashes (escapes are not decoded). Running off the end leaves
      off at |data| + 1 without a panic. A trailing '\' takes the scan to
      |data| + 1, and slicing up to there panics: the capacity of data is
      taken to be its length. */
  function GetString(st: PState): Out<()>
    requires st.off <= |st.data|
  {
    var i := StringEnd(st.data, st.off);
    if i > |st.data| then Panic(st)
    else Ok(st.(tok := st.tok.(raw := st.data[st.off..i]), off := i + 1), ())
  }

  /** getNumber: the longest run of number characters. */
  function GetNumber(st: PState): PState
    requires st.off <= |st.data|
  {
    var j := NumberEnd(st.data, st.off);
    st.(tok := st.tok.(raw := st.data[st.off..j]), off := j)
  }

  /** getTrue, entered at a 't'. The bounds test lets off + 3 == |data|
      through, and reading the fourth byte then panics on the index. */
  function GetTrue(st: PState): Out<()>
    requires st.off < |st.data|
  {
    var d, o := st.data, st.off;
    if o + 3 > |d| || d[o + 1] != 0x72 || d[o + 2] != 0x75 then Panic(st)
    else if o + 3 == |d| then Panic(st)
    else if d[o + 3] != 0x65 then Panic(st)
    else Ok(st.(tok := st.tok.(bol := true), off := o + 4), ())
  }

  /** getFalse, entered at an 'f'; the same bounds test one byte further. */
  function GetFalse(st: PState): Out<()>
    requires st.off < |st.data|
  {
    var d, o := st.data, st.off;
    if o + 4 > |d| || d[o + 1] != 0x61 || d[o + 2] != 0x6C || d[o + 3] != 0x73 then Panic(st)
    else if o + 4 == |d| then Panic(st)
    else if d[o + 4] != 0x65 then Panic(st)
    else Ok(st.(tok := st.tok.(bol := false), off := o + 5), ())
  }

  /** getNull, entered at an 'n'. */
  function GetNull(st: PState): Out<()>
    requires st.off < |st.data|
  {
    var d, o := st.data, st.off;
    if o + 3 > |d| || d[o + 1] != 0x75 || d[o + 2] != 0x6C then Panic(st)
    else if o + 3 == |d| then Panic(st)
    else if d[o + 3] != 0x6C then Panic(st)
    else Ok(st.(off := o + 4), ())
  }

  /** getToken: scan from off. Whitespace is skipped; a ':' or ',' must be
      the pending separator and is consumed without producing a token
      (clearing the separator and the cached token); '{' and '[' and the
      starts of strings, numbers and literals need no separator pending;
      '}' and ']' need ',' pending and clear it. Reaching the end returns
      with the token unchanged. */
  function Scan(st: PState): (r: Out<()>)
    ensures r.st.data == st.data
    ensures st.off <= |st.data| ==> st.off <= r.st.off <= |st.data| + 1
    ensures r.Ok? ==> st.off <= |st.data|
    ensures r.Ok? && r.st.tok.kind != st.tok.kind ==> r.st.off > st.off
    decreases |st.data| - st.off
  {
    if st.off > |st.data| then Panic(st)
    else if st.off == |st.data| then Ok(st, ())
    else
      var c := st.data[st.off];
      if c == LBRACE || c == LBRACKET then
        if st.pending != NONE then Panic(st)
        else Ok(st.(tok := st.tok.(kind := TokSymbol, symbol := c), off := st.off + 1), ())
      else if c == RBRACE || c == RBRACKET then
        if st.pending != COMMA then Panic(st)
        else Ok(st.(pending := NONE, tok := st.tok.(kind := TokSymbol, symbol := c), off := st.off + 1), ())
      else if IsSpace(c) then Scan(st.(off := st.off + 1))
      else if c == QUOTE then
        if st.pending != NONE then Panic(st)
        else GetString(st.(off := st.off + 1, tok := st.tok.(kind := TokString)))
      else if c == COLON || c == COMMA then
        if st.pending != c then Panic(st)
        else Scan(st.(tok := st.tok.(kind := TokUnknown), pending := NONE, off := st.off + 1))
      else if IsDigit(c) || c == MINUS then
        if st.pending != NONE then Panic(st)
        else Ok(GetNumber(st.(tok := st.tok.(kind := TokNumber))), ())
      else if c == 0x74 then
        if st.pending != NONE then Panic(st) else GetTrue(st.(tok := st.tok.(kind := TokBool)))
      else if c == 0x66 then
        if st.pending != NONE then Panic(st) else GetFalse(st.(tok := st.tok.(kind := TokBool)))
      else if c == 0x6E then
        if st.pending != NONE then Panic(st) else GetNull(st.(tok := st.tok.(kind := TokNull)))
      else Panic(st)
  }

  /** b is a state later in the same run: same bytes, offset not moved back. */
  predicate Moves(a: PState, b: PState) {
    b.data == a.data && (a.off <= |a.data| + 1 ==> a.off <= b.off <= |a.data| + 1)
  }

  /** The extractors' first step: scan only when no token is cached. */
  function Fetch(st: PState): (r: Out<()>)
    ensures r.st.data == st.data
    ensures st.off <= |st.data| + 1 ==> st.off <= r.st.off <= |st.data| + 1
    ensures r.Ok? && r.st.tok.kind != st.tok.kind ==> r.st.off > st.off
  {
    if st.tok.kind == TokUnknown then Scan(st) else Ok(st, ())
  }

  /** Str and Bytes: a string token, its raw text. */
  function Str(st: PState): (r: Out<Bytes>)
    ensures Moves(st, r.st)
  {
    match Fetch(st)
    case Panic(s) => Panic(s)
    case Ok(s, _) => if s.tok.kind != TokString then Panic(s) else Ok(Reset(s), s.tok.raw)
  }

  /** Bol */
  function Bol(st: PState): (r: Out<bool>)
    ensures Moves(st, r.st)
  {
    match Fetch(st)
    case Panic(s) => Panic(s)
    case Ok(s, _) => if s.tok.kind != TokBool then Panic(s) else Ok(Reset(s), s.tok.bol)
  }

  /** Null */
  function Null(st: PState): (r: Out<()>)
    ensures Moves(st, r.st)
  {
    match Fetch(st)
    case Panic(s) => Panic(s)
    case Ok(s, _) => if s.tok.kind != TokNull then Panic(s) else Ok(Reset(s), ())
  }

  /** Symbol(b): the cached or next token must be the symbol b. */
  function Symbol(st: PState, b: byte): (r: Out<()>)
    ensures Moves(st, r.st)
  {
    match Fetch(st)
    case Panic(s) => Panic(s)
    case Ok(s, _) => if s.tok.kind != TokSymbol || s.tok.symbol != b then Panic(s) else Ok(Reset(s), ())
  }

  /** Int32 / Int64: strconv.ParseInt(raw, 10, bits); an error panics
      before the token is reset. */
  function Int(st: PState, bits: nat): (r: Out<int>)
    requires bits >= 1
    ensures Moves(st, r.st)
    ensures r.Ok? ==> InSigned(r.value, bits)
  {
    match Fetch(st)
    case Panic(s) => Panic(s)
    case Ok(s, _) =>
      if s.tok.kind != TokNumber then Panic(s)
      else match ParseInt(s.tok.raw, bits)
        case None => Panic(s)
        case Some(v) => Ok(Reset(s), v)
  }

  /** Uint32 / Uint64: strconv.ParseUint(raw, 10, bits). */
  function Uint(st: PState, bits: nat): (r: Out<nat>)
    ensures Moves(st, r.st)
    ensures r.Ok? ==> InUnsigned(r.value, bits)
  {
    match Fetch(st)
    case Panic(s) => Panic(s)
    case Ok(s, _) =>
      if s.tok.kind != TokNumber then Panic(s)
      else match ParseUint(s.tok.raw, bits)
        case None => Panic(s)
        case Some(v) => Ok(Reset(s), v)
  }

  /** The first index at or after i that is not a decimal digit. */
  function DigitRun(b: Bytes, i: nat): (j: nat)
    requires i <= |b|
    ensures i <= j <= |b|
    decreases |b| - i
  {
    if i == |b| || !IsDigit(b[i]) then i else DigitRun(b, i + 1)
  }

  /** The decimal floating-point syntax strconv.ParseFloat accepts over the
      characters a number token can hold: an optional sign, digits with an
      optional '.', at least one digit, an optional exponent. */
  predicate FloatSyntax(s: Bytes) {
    var b := if |s| > 0 && (s[0] == PLUS || s[0] == MINUS) then s[1..] else s;
    var m := DigitRun(b, 0);
    var k := if m < |b| && b[m] == DOT then DigitRun(b, m + 1) else m;
    var digits := m + (if k > m then k - m - 1 else 0);
    digits > 0 &&
    (k == |b| ||
     ((b[k] == 0x65 || b[k] == 0x45) &&
      var e := if k + 1 < |b| && (b[k + 1] == PLUS || b[k + 1] == MINUS) then k + 2 else k + 1;
      e <= |b| && DigitRun(b, e) > e && DigitRun(b, e) == |b|))
  }

  /** Number / Float32 / Float64: a number token whose text ParseFloat
      accepts; the value is kept as that text. */
  function Number(st: PState): (r: Out<Bytes>)
    ensures Moves(st, r.st)
    ensures r.Ok? <==> Fetch(st).Ok? && Fetch(st).st.tok.kind == TokNumber && FloatSyntax(Fetch(st).st.tok.raw)
    ensures r.Ok? ==> r.value == Fetch(st).st.tok.raw && r.st.tok.kind == TokUnknown
  {
    match Fetch(st)
    case Panic(s) => Panic(s)
    case Ok(s, _) =>
      if s.tok.kind != TokNumber then Panic(s)
      else if !FloatSyntax(s.tok.raw) then Panic(s)
      else Ok(Reset(s), s.tok.raw)
  }

  const ENUM_UNKNOWN: int := 0
  const ENUM_STRING: int := 1
  const ENUM_NUMBER: int := 2

  /** The triple Enum returns: which form was read, the name, the number. */
  datatype EnumValue = EnumValue(form: int, name: Bytes, number: int)

  /** Enum: a string token gives (EnumString, s, 0), a number token
      (EnumNumber, "", n) with n read as an int32. */
  function Enum(st: PState): (r: Out<EnumValue>)
    ensures Moves(st, r.st)
  {
    match Fetch(st)
    case Panic(s) => Panic(s)
    case Ok(s, _) =>
      if s.tok.kind == TokString then
        match Str(s)
        case Panic(p) => Panic(p)
        case Ok(p, name) => Ok(p, EnumValue(ENUM_STRING, name, 0))
      else if s.tok.kind == TokNumber then
        match Int(s, 32)
        case Panic(p) => Panic(p)
        case Ok(p, n) => Ok(p, EnumValue(ENUM_NUMBER, [], n))
      else Panic(s)
  }

  /** IsSymbol(b): the byte at off, with no whitespace skipped; indexing
      at or past the end panics. */
  function IsSymbol(st: PState, b: byte): (r: Out<bool>)
    ensures Moves(st, r.st)
    ensures r.st == st
    ensures r.Ok? <==> st.off < |st.data|
    ensures r.Ok? ==> (r.value <==> st.data[st.off] == b)
  {
    if st.off < |st.data| then Ok(st, st.data[st.off] == b) else Panic(st)
  }

  /** Whitespace is skipped: the scan goes on from the next byte. */
  lemma SkipsWhitespace(st: PState)
    requires st.off < |st.data| && IsSpace(st.data[st.off])
    ensures Scan(st) == Scan(st.(off := st.off + 1))
  {
  }

  /** A ':' or ',' is accepted only when it is the pending separator; it
      then clears the separator and the cached token and the scan goes on. */
  lemma SeparatorRule(st: PState)
    requires st.off < |st.data| && (st.data[st.off] == COLON || st.data[st.off] == COMMA)
    ensures st.pending != st.data[st.off] ==> Scan(st) == Panic(st)
    ensures st.pending == st.data[st.off] ==>
      Scan(st) == Scan(st.(tok := st.tok.(kind := TokUnknown), pending := NONE, off := st.off + 1))
  {
  }
}
