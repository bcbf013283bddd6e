/** What the tokenizer accepts and rejects, stated over the functions of
    ParserSpec: the symbol and separator rules of getToken, the spans of
    strings and numbers, the literals, the extractors and Enum, IsSymbol,
    and where an unterminated string leaves the parser. */
module ParserProps {
  import opened Bytes
  import opened Decimal
  import opened ParserSpec

  // ---------------------------------------------------------------
  // Symbols and separators
  // ---------------------------------------------------------------

  /** '{' and '[' are accepted exactly when no separator is pending, and
      give a symbol token holding that byte, one byte further on. */
  lemma OpenRule(st: PState)
    requires st.off < |st.data| && (st.data[st.off] == LBRACE || st.data[st.off] == LBRACKET)
    ensures Scan(st).Ok? <==> st.pending == NONE
    ensures Scan(st).Ok? ==>
      Scan(st).st == st.(tok := st.tok.(kind := TokSymbol, symbol := st.data[st.off]), off := st.off + 1)
    ensures Scan(st).Panic? ==> Scan(st).st == st
  {
  }

  /** '}' and ']' are accepted exactly when ',' is pending; the pending
      separator is cleared and a symbol token produced. */
  lemma CloseRule(st: PState)
    requires st.off < |st.data| && (st.data[st.off] == RBRACE || st.data[st.off] == RBRACKET)
    ensures Scan(st).Ok? <==> st.pending == COMMA
    ensures Scan(st).Ok? ==>
      Scan(st).st == st.(pending := NONE, tok := st.tok.(kind := TokSymbol, symbol := st.data[st.off]), off := st.off + 1)
  {
  }

  /** A ',' directly before a closer is rejected: consuming the ',' clears
      the pending separator the closer needs. */
  lemma CommaBeforeCloser(st: PState)
    requires st.off + 1 < |st.data| && st.data[st.off] == COMMA
    requires st.data[st.off + 1] == RBRACE || st.data[st.off + 1] == RBRACKET
    ensures Scan(st).Panic?
  {
    SeparatorRule(st);
    if st.pending == COMMA {
      var s1 := st.(tok := st.tok.(kind := TokUnknown), pending := NONE, off := st.off + 1);
      CloseRule(s1);
    }
  }

  predicate StartsValue(c: byte) {
    c == QUOTE || IsDigit(c) || c == MINUS || c == 0x74 || c == 0x66 || c == 0x6E
  }

  /** A string, number or literal cannot start while a separator is pending. */
  lemma ValueNeedsNoPending(st: PState)
    requires st.off < |st.data| && StartsValue(st.data[st.off]) && st.pending != NONE
    ensures Scan(st) == Panic(st)
  {
  }

  /** A byte that starts nothing and is not whitespace is a syntax error. */
  lemma OtherByteRejected(st: PState)
    requires st.off < |st.data|
    requires var c := st.data[st.off];
      !StartsValue(c) && !IsSpace(c) && c != COLON && c != COMMA &&
      c != LBRACE && c != LBRACKET && c != RBRACE && c != RBRACKET
    ensures Scan(st) == Panic(st)
  {
  }

  /** At the end of the input the scan returns with the token unchanged. */
  lemma EndKeepsToken(st: PState)
    requires st.off == |st.data|
    ensures Scan(st) == Ok(st, ())
  {
  }

  /** Whitespace of any length is skipped before a token. */
  lemma {:induction false} SkipsBlanks(st: PState, n: nat)
    requires st.off + n <= |st.data|
    requires forall k :: st.off <= k < st.off + n ==> IsSpace(st.data[k])
    ensures Scan(st) == Scan(st.(off := st.off + n))
    decreases n
  {
    if n > 0 {
      SkipsWhitespace(st);
      SkipsBlanks(st.(off := st.off + 1), n - 1);
    }
  }

  // ---------------------------------------------------------------
  // Strings and numbers
  // ---------------------------------------------------------------

  /** The text between the quotes of a string that getString ends at its
      closing quote: no bare '"', and every '\' followed by one more byte. */
  predicate StringBody(b: Bytes)
    decreases |b|
  {
    b == [] ||
    (b[0] == BACKSLASH && |b| >= 2 && StringBody(b[2..])) ||
    (b[0] != BACKSLASH && b[0] != QUOTE && StringBody(b[1..]))
  }

  lemma {:induction false} SkipBody(d: Bytes, i: nat, body: Bytes)
    requires i + |body| <= |d| && d[i..i + |body|] == body && StringBody(body)
    ensures StringEnd(d, i) == StringEnd(d, i + |body|)
    decreases |body|
  {
    if body != [] {
      if body[0] == BACKSLASH {
        assert d[i + 2..i + |body|] == body[2..];
        SkipBody(d, i + 2, body[2..]);
      } else {
        assert d[i + 1..i + |body|] == body[1..];
        SkipBody(d, i + 1, body[1..]);
      }
    }
  }

  /** A string's raw text runs to the first quote no '\' escapes, keeps its
      backslashes, and the offset lands just past the closing quote. */
  lemma StringSpan(st: PState, body: Bytes)
    requires st.off + |body| < |st.data| && st.data[st.off..st.off + |body|] == body
    requires st.data[st.off + |body|] == QUOTE && StringBody(body)
    ensures GetString(st) == Ok(st.(tok := st.tok.(raw := body), off := st.off + |body| + 1), ())
  {
    SkipBody(st.data, st.off, body);
  }

  /** The quoted text `"te\"st"`: the escaped quote does not end it. */
  const DEMO: Bytes := [QUOTE, 0x74, 0x65, BACKSLASH, QUOTE, 0x73, 0x74, QUOTE]
  const DEMO_RAW: Bytes := [0x74, 0x65, BACKSLASH, QUOTE, 0x73, 0x74]

  lemma DemoString()
    ensures Str(Init(DEMO)) == Ok(PState(DEMO, 8, Token(TokUnknown, false, DEMO_RAW, 0), NONE), DEMO_RAW)
  {
    var st := Init(DEMO);
    var s1 := st.(off := 1, tok := st.tok.(kind := TokString));
    assert StringBody(DEMO_RAW) by {
      assert StringBody([]);
      assert StringBody([0x74]);
      assert StringBody([0x73, 0x74]);
      assert StringBody([BACKSLASH, QUOTE, 0x73, 0x74]);
      assert StringBody([0x65, BACKSLASH, QUOTE, 0x73, 0x74]);
    }
    assert DEMO[1..7] == DEMO_RAW;
    StringSpan(s1, DEMO_RAW);
  }

  /** An unterminated string still yields a string token, with the offset
      one past the end of the input; every later scan and IsSymbol fails. */
  lemma UnterminatedString(st: PState, body: Bytes, b: byte)
    requires st.off < |st.data| && st.data[st.off] == QUOTE && st.pending == NONE
    requires st.data[st.off + 1..] == body && StringBody(body)
    ensures Scan(st).Ok? && Scan(st).st.off == |st.data| + 1
    ensures Scan(st).st.tok.kind == TokString && Scan(st).st.tok.raw == body
    ensures Scan(Scan(st).st).Panic? && IsSymbol(Scan(st).st, b).Panic?
  {
    var d := st.data;
    assert d[st.off + 1..st.off + 1 + |body|] == body;
    SkipBody(d, st.off + 1, body);
  }

  lemma {:induction false} NumberRun(d: Bytes, i: nat, num: Bytes)
    requires i + |num| <= |d| && d[i..i + |num|] == num
    requires forall k :: 0 <= k < |num| ==> IsNumberChar(num[k])
    ensures NumberEnd(d, i) == NumberEnd(d, i + |num|)
    decreases |num|
  {
    if num != [] {
      assert d[i] == num[0];
      assert d[i + 1..i + |num|] == num[1..];
      NumberRun(d, i + 1, num[1..]);
    }
  }

  /** A number token is the longest run of `0-9 . e E + -` at off. */
  lemma NumberSpan(st: PState, num: Bytes, rest: Bytes)
    requires st.off <= |st.data| && st.data[st.off..] == num + rest
    requires forall k :: 0 <= k < |num| ==> IsNumberChar(num[k])
    requires rest == [] || !IsNumberChar(rest[0])
    ensures GetNumber(st) == st.(tok := st.tok.(raw := num), off := st.off + |num|)
  {
    var d := st.data;
    assert d[st.off..st.off + |num|] == num by {
      assert d[st.off..st.off + |num|] == d[st.off..][..|num|];
    }
    NumberRun(d, st.off, num);
    if rest != [] {
      assert d[st.off + |num|] == d[st.off..][|num|];
    }
  }

  // ---------------------------------------------------------------
  // Literals
  // ---------------------------------------------------------------

  /** `true` must match byte for byte; it sets the boolean to true. */
  lemma TrueLiteral(st: PState)
    requires st.off < |st.data| && st.data[st.off] == 0x74
    ensures GetTrue(st).Ok? <==> st.off + 4 <= |st.data| && st.data[st.off..st.off + 4] == TRUE_LIT
    ensures GetTrue(st).Ok? ==> GetTrue(st).st == st.(tok := st.tok.(bol := true), off := st.off + 4)
    ensures GetTrue(st).Panic? ==> GetTrue(st).st == st
  {
    if st.off + 4 <= |st.data| {
      var w := st.data[st.off..st.off + 4];
      assert w[0] == st.data[st.off] && w[1] == st.data[st.off + 1];
      assert w[2] == st.data[st.off + 2] && w[3] == st.data[st.off + 3];
    }
  }

  /** `false` must match byte for byte; it sets the boolean to false. */
  lemma FalseLiteral(st: PState)
    requires st.off < |st.data| && st.data[st.off] == 0x66
    ensures GetFalse(st).Ok? <==> st.off + 5 <= |st.data| && st.data[st.off..st.off + 5] == FALSE_LIT
    ensures GetFalse(st).Ok? ==> GetFalse(st).st == st.(tok := st.tok.(bol := false), off := st.off + 5)
    ensures GetFalse(st).Panic? ==> GetFalse(st).st == st
  {
    if st.off + 5 <= |st.data| {
      var w := st.data[st.off..st.off + 5];
      assert w[0] == st.data[st.off] && w[1] == st.data[st.off + 1] && w[2] == st.data[st.off + 2];
      assert w[3] == st.data[st.off + 3] && w[4] == st.data[st.off + 4];
    }
  }

  /** `null` must match byte for byte. */
  lemma NullLiteral(st: PState)
    requires st.off < |st.data| && st.data[st.off] == 0x6E
    ensures GetNull(st).Ok? <==> st.off + 4 <= |st.data| && st.data[st.off..st.off + 4] == NULL_LIT
    ensures GetNull(st).Ok? ==> GetNull(st).st == st.(off := st.off + 4)
    ensures GetNull(st).Panic? ==> GetNull(st).st == st
  {
    if st.off + 4 <= |st.data| {
      var w := st.data[st.off..st.off + 4];
      assert w[0] == st.data[st.off] && w[1] == st.data[st.off + 1];
      assert w[2] == st.data[st.off + 2] && w[3] == st.data[st.off + 3];
    }
  }

  // ---------------------------------------------------------------
  // Extractors
  // ---------------------------------------------------------------

  /** A cached token is used without scanning; a token of another kind is
      an error that leaves it cached; success consumes it. */
  lemma StrRule(st: PState)
    ensures st.tok.kind != TokUnknown ==> Fetch(st) == Ok(st, ())
    ensures Str(st).Ok? <==> Fetch(st).Ok? && Fetch(st).st.tok.kind == TokString
    ensures Fetch(st).Ok? && Fetch(st).st.tok.kind != TokString ==> Str(st) == Panic(Fetch(st).st)
    ensures Str(st).Ok? ==> Str(st).st == Reset(Fetch(st).st) && Str(st).value == Fetch(st).st.tok.raw
  {
  }

  /** After any successful extractor the next one scans a fresh token. */
  lemma ConsumedOnce(st: PState, bits: nat)
    requires bits >= 1
    ensures Str(st).Ok? ==> Fetch(Str(st).st) == Scan(Str(st).st)
    ensures Bol(st).Ok? ==> Fetch(Bol(st).st) == Scan(Bol(st).st)
    ensures Int(st, bits).Ok? ==> Fetch(Int(st, bits).st) == Scan(Int(st, bits).st)
    ensures Uint(st, bits).Ok? ==> Fetch(Uint(st, bits).st) == Scan(Uint(st, bits).st)
    ensures Null(st).Ok? ==> Fetch(Null(st).st) == Scan(Null(st).st)
  {
  }

  /** A cached number token holding the writer's text of v is read back as
      v exactly when v fits the width; otherwise the read fails and the
      token stays cached. */
  lemma IntWidth(st: PState, v: int, bits: nat)
    requires bits >= 1 && st.tok.kind == TokNumber && st.tok.raw == FormatInt(v)
    ensures Int(st, bits) == (if InSigned(v, bits) then Ok(Reset(st), v) else Panic(st))
  {
    FormatIntRoundTrip(v, bits);
  }

  lemma UintWidth(st: PState, v: nat, bits: nat)
    requires st.tok.kind == TokNumber && st.tok.raw == FormatUint(v)
    ensures Uint(st, bits) == (if InUnsigned(v, bits) then Ok(Reset(st), v) else Panic(st))
  {
    FormatUintRoundTrip(v, bits);
  }

  /** w appears in d at off, byte by byte. */
  predicate Holds(d: Bytes, off: nat, w: Bytes)
    decreases |w|
  {
    if w == [] then off <= |d| else off < |d| && d[off] == w[0] && Holds(d, off + 1, w[1..])
  }

  /** w appears in the input at the parser's offset. */
  predicate At(st: PState, w: Bytes) {
    Holds(st.data, st.off, w)
  }

  /** Holds is the slice of d at off being w. */
  lemma {:induction false} HoldsSlice(d: Bytes, off: nat, w: Bytes)
    ensures Holds(d, off, w) <==> off + |w| <= |d| && d[off..off + |w|] == w
    decreases |w|
  {
    if w != [] {
      HoldsSlice(d, off + 1, w[1..]);
      if off + |w| <= |d| {
        assert d[off..off + |w|] == [d[off]] + d[off + 1..off + 1 + |w[1..]|];
        assert w == [w[0]] + w[1..];
      }
    }
  }

  /** What follows w at the offset. */
  lemma AtSplit(st: PState, w: Bytes, v: Bytes)
    requires At(st, w + v)
    ensures At(st, w) && Holds(st.data, st.off + |w|, v)
  {
    HoldsSplit(st.data, st.off, w, v);
  }

  lemma HoldsSplit(d: Bytes, off: nat, w: Bytes, v: Bytes)
    requires Holds(d, off, w + v)
    ensures Holds(d, off, w) && Holds(d, off + |w|, v)
  {
    HoldsSlice(d, off, w + v);
    HoldsSlice(d, off, w);
    HoldsSlice(d, off + |w|, v);
    assert d[off..off + |w|] == d[off..off + |w + v|][..|w|];
    assert d[off + |w|..off + |w| + |v|] == d[off..off + |w + v|][|w|..];
  }

  /** Two pieces one after the other make their concatenation. */
  lemma HoldsJoin(d: Bytes, off: nat, w: Bytes, v: Bytes)
    requires Holds(d, off, w) && Holds(d, off + |w|, v)
    ensures Holds(d, off, w + v)
  {
    HoldsSlice(d, off, w + v);
    HoldsSlice(d, off, w);
    HoldsSlice(d, off + |w|, v);
    assert d[off..off + |w + v|] == d[off..off + |w|] + d[off + |w|..off + |w| + |v|];
  }

  /** The first byte of what appears at off. */
  lemma HoldsFirst(d: Bytes, off: nat, w: Bytes)
    requires Holds(d, off, w) && |w| >= 1
    ensures off < |d| && d[off] == w[0]
  {
  }

  /** A string with nothing pending: Str gives the text between the quotes
      and leaves a fresh token just past the closing quote. */
  lemma QuotedStr(st: PState, body: Bytes)
    requires st.tok.kind == TokUnknown && st.pending == NONE
    requires At(st, [QUOTE] + body + [QUOTE]) && StringBody(body)
    ensures Str(st).Ok? && Str(st).value == body
    ensures Str(st).st.data == st.data && Str(st).st.off == st.off + |body| + 2
    ensures Str(st).st.tok.kind == TokUnknown && Str(st).st.pending == NONE
  {
    QuotedBody(st, body);
    QuoteOpens(st);
    var s2 := QuotedSpan(st, body);
    assert Str(st) == Ok(Reset(s2), body);
  }

  /** getString from just after the opening quote. */
  lemma QuotedSpan(st: PState, body: Bytes) returns (s2: PState)
    requires st.off + |body| + 1 < |st.data| && st.data[st.off + 1..st.off + 1 + |body|] == body
    requires st.data[st.off + 1 + |body|] == QUOTE && StringBody(body)
    ensures s2.data == st.data && s2.off == st.off + |body| + 2 && s2.tok.raw == body
    ensures s2.tok.kind == TokString && s2.pending == st.pending
    ensures GetString(st.(off := st.off + 1, tok := st.tok.(kind := TokString))) == Ok(s2, ())
  {
    var s1 := st.(off := st.off + 1, tok := st.tok.(kind := TokString));
    StringSpan(s1, body);
    s2 := s1.(tok := s1.tok.(raw := body), off := s1.off + |body| + 1);
  }

  lemma QuotedBody(st: PState, body: Bytes)
    requires At(st, [QUOTE] + body + [QUOTE])
    ensures st.data[st.off] == QUOTE && st.off + |body| + 1 < |st.data|
    ensures st.data[st.off + 1..st.off + 1 + |body|] == body && st.data[st.off + 1 + |body|] == QUOTE
  {
    var w := [QUOTE] + body + [QUOTE];
    var d := st.data;
    HoldsSlice(d, st.off, w);
    assert d[st.off] == d[st.off..st.off + |w|][0];
    forall k | 0 <= k < |body|
      ensures d[st.off + 1 + k] == body[k]
    {
      assert d[st.off..st.off + |w|][1 + k] == w[1 + k];
    }
    assert d[st.off..st.off + |w|][|body| + 1] == w[|body| + 1];
  }

  /** A '"' with nothing pending starts a string token. */
  lemma QuoteOpens(st: PState)
    requires st.off < |st.data| && st.data[st.off] == QUOTE
    requires st.tok.kind == TokUnknown && st.pending == NONE
    ensures Str(st) == (match GetString(st.(off := st.off + 1, tok := st.tok.(kind := TokString)))
                        case Panic(s) => Panic(s)
                        case Ok(s, _) => Ok(Reset(s), s.tok.raw))
  {
    var s1 := st.(off := st.off + 1, tok := st.tok.(kind := TokString));
    assert Scan(st) == GetString(s1);
    StrRule(st);
  }

  /** Enum: a string token gives (EnumString, name, 0), a number token
      (EnumNumber, "", n) read as an int32, any other token fails. */
  lemma EnumForms(st: PState)
    ensures Enum(st).Ok? && Fetch(st).st.tok.kind == TokString ==>
      Enum(st).value == EnumValue(ENUM_STRING, Fetch(st).st.tok.raw, 0)
    ensures Enum(st).Ok? && Fetch(st).st.tok.kind == TokNumber ==>
      Enum(st).value == EnumValue(ENUM_NUMBER, [], Int(Fetch(st).st, 32).value) && InSigned(Enum(st).value.number, 32)
    ensures Fetch(st).Ok? && Fetch(st).st.tok.kind != TokString && Fetch(st).st.tok.kind != TokNumber ==> Enum(st).Panic?
    ensures Enum(st).Ok? ==> Enum(st).value.form != ENUM_UNKNOWN
  {
    if Fetch(st).Ok? && Fetch(st).st.tok.kind == TokNumber {
      var s := Fetch(st).st;
      assert Fetch(s) == Ok(s, ());
    } else if Fetch(st).Ok? && Fetch(st).st.tok.kind == TokString {
      var s := Fetch(st).st;
      assert Fetch(s) == Ok(s, ());
    }
  }

  /** IsSymbol looks at the byte at off only: a blank before the symbol
      makes it answer false. */
  lemma IsSymbolNoSkip(st: PState, b: byte)
    requires st.off + 1 < |st.data| && IsSpace(st.data[st.off]) && st.data[st.off + 1] == b && !IsSpace(b)
    ensures IsSymbol(st, b) == Ok(st, false)
    ensures Scan(st) == Scan(st.(off := st.off + 1))
  {
    SkipsWhitespace(st);
  }
}
