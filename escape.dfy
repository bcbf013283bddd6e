/** What Buffer.WriteString appends for a Go string: the string escaping of
    section 7 of RFC 8259, with every byte that does not start a valid UTF-8
    sequence (section 3 of RFC 3629) replaced by \ufffd, and U+2028 / U+2029
    written as \u2028 / \u2029.

    The escaper walks the string one unit at a time: one ASCII byte, or one
    non-ASCII sequence as utf8.DecodeRuneInString delimits it. Unescape is the
    reference reading of a JSON string body (the program's tokenizer does not
    decode escapes); it is used to state what the escaping preserves. */
module JsonEscape {
  import opened Bytes
  import opened Options
  import opened Utf8

  /** hex[v] for the lowercase digit table "0123456789abcdef". */
  function Hex(v: nat): (c: byte)
    requires v < 16
  {
    if v < 10 then (0x30 + v) as byte else (0x61 + v - 10) as byte
  }

  /** safeSet: printable ASCII and DEL, except '"' and '\'. */
  predicate Safe(c: byte) {
    0x20 <= c <= 0x7F && c != QUOTE && c != BACKSLASH
  }

  const U: byte := 0x75  // 'u'

  /** The escape written for an ASCII byte outside the safe set. */
  function AsciiEscape(c: byte): Bytes
    requires c < 0x80 && !Safe(c)
  {
    if c == BACKSLASH || c == QUOTE then [BACKSLASH, c]
    else if c == LF then [BACKSLASH, 0x6E]   // \n
    else if c == CR then [BACKSLASH, 0x72]   // \r
    else if c == TAB then [BACKSLASH, 0x74]  // \t
    else [BACKSLASH, U, ZERO, ZERO, Hex(c as int / 16), Hex(c as int % 16)]
  }

  /** \ufffd */
  const REPLACEMENT: Bytes := [BACKSLASH, U, 0x66, 0x66, 0x66, 0x64]

  /** \u2028 or \u2029: the prefix \u202 and hex[r & 0xF]. */
  function LineSepEscape(r: int): Bytes
    requires r == 0x2028 || r == 0x2029
  {
    [BACKSLASH, U, 0x32, 0x30, 0x32, Hex(r % 16)]
  }

  /** How many bytes of s the escaper takes as one unit. */
  function UnitSize(s: Bytes): (n: nat)
    requires |s| >= 1
    ensures 1 <= n <= |s|
  {
    if s[0] < 0x80 then 1 else DecodeRune(s).1
  }

  /** What the escaper writes for the unit at the start of s. */
  function UnitOut(s: Bytes): Bytes
    requires |s| >= 1
  {
    if s[0] < 0x80 then (if Safe(s[0]) then [s[0]] else AsciiEscape(s[0]))
    else
      var (r, size) := DecodeRune(s);
      if r == RUNE_ERROR && size == 1 then REPLACEMENT
      else if r == 0x2028 || r == 0x2029 then LineSepEscape(r)
      else s[..size]
  }

  /** A unit the escaper copies unchanged (it is written as part of a run). */
  predicate PassThrough(s: Bytes)
    requires |s| >= 1
  {
    UnitOut(s) == s[..UnitSize(s)]
  }

  /** The whole escaped text. */
  function Escape(s: Bytes): Bytes
    decreases |s|
  {
    if s == [] then [] else UnitOut(s) + Escape(s[UnitSize(s)..])
  }

  // ---------------------------------------------------------------------
  // The reference reading of a JSON string body.

  predicate IsHexDigit(c: byte) {
    (0x30 <= c <= 0x39) || (0x61 <= c <= 0x66) || (0x41 <= c <= 0x46)
  }

  function HexValue(c: byte): (v: nat)
    requires IsHexDigit(c)
    ensures v < 16
  {
    if c <= 0x39 then c as int - 0x30 else if c >= 0x61 then c as int - 0x61 + 10 else c as int - 0x41 + 10
  }

  /** The single-character escapes of RFC 8259 section 7. */
  function ShortUnescape(c: byte): Option<byte> {
    if c == QUOTE || c == BACKSLASH || c == 0x2F then Some(c)
    else if c == 0x62 then Some(0x08)
    else if c == 0x66 then Some(0x0C)
    else if c == 0x6E then Some(LF)
    else if c == 0x72 then Some(CR)
    else if c == 0x74 then Some(TAB)
    else None
  }

  /** The bytes a JSON string body stands for, None if it is not a valid
      body: an unescaped '"' or control byte, a dangling or unknown escape,
      or a \u escape naming a surrogate (surrogate pairs are not needed here
      and are refused). */
  function Unescape(t: Bytes): Option<Bytes>
    decreases |t|
  {
    if t == [] then Some([])
    else if t[0] == BACKSLASH then
      if |t| < 2 then None
      else if t[1] == U then
        if |t| < 6 || !IsHexDigit(t[2]) || !IsHexDigit(t[3]) || !IsHexDigit(t[4]) || !IsHexDigit(t[5]) then None
        else
          var v := HexValue(t[2]) * 4096 + HexValue(t[3]) * 256 + HexValue(t[4]) * 16 + HexValue(t[5]);
          if !IsScalar(v) then None
          else match Unescape(t[6..])
            case None => None
            case Some(rest) => Some(EncodeRune(v) + rest)
      else
        match ShortUnescape(t[1])
        case None => None
        case Some(c) =>
          match Unescape(t[2..])
          case None => None
          case Some(rest) => Some([c] + rest)
    else if t[0] == QUOTE || t[0] < 0x20 then None
    else
      match Unescape(t[1..])
      case None => None
      case Some(rest) => Some([t[0]] + rest)
  }

  /** s with every byte that does not start a valid UTF-8 sequence replaced
      by the encoding of U+FFFD. */
  function Sanitize(s: Bytes): Bytes
    decreases |s|
  {
    if s == [] then []
    else
      var unit := if s[0] >= 0x80 && InvalidAt(s) then EncodeRune(RUNE_ERROR) else s[..UnitSize(s)];
      unit + Sanitize(s[UnitSize(s)..])
  }

  predicate ValidUtf8(s: Bytes)
    decreases |s|
  {
    s == [] || (!InvalidAt(s) && ValidUtf8(s[UnitSize(s)..]))
  }

  // ---------------------------------------------------------------------
  // Properties

  /** A string of safe-set bytes only is written unchanged. */
  lemma {:induction false} EscapePassThrough(s: Bytes)
    requires forall i :: 0 <= i < |s| ==> Safe(s[i])
    ensures Escape(s) == s
    decreases |s|
  {
    if s != [] {
      EscapePassThrough(s[1..]);
      assert [s[0]] + s[1..] == s;
    }
  }

  /** Bytes that are all at least 0x80 are read back unchanged. */
  lemma {:induction false} UnescapeHigh(h: Bytes, rest: Bytes, x: Bytes)
    requires forall i :: 0 <= i < |h| ==> h[i] >= 0x80
    requires Unescape(rest) == Some(x)
    ensures Unescape(h + rest) == Some(h + x)
    decreases |h|
  {
    if h != [] {
      UnescapeHigh(h[1..], rest, x);
      UnescapeHighByte(h[0], h[1..] + rest, h[1..] + x);
      assert h + rest == [h[0]] + (h[1..] + rest);
      assert [h[0]] + (h[1..] + x) == h + x;
    } else {
      assert h + rest == rest && h + x == x;
    }
  }

  /** A byte of 0x80 or more is copied as it is. */
  lemma UnescapeHighByte(c: byte, t: Bytes, y: Bytes)
    requires c >= 0x80 && Unescape(t) == Some(y)
    ensures Unescape([c] + t) == Some([c] + y)
  {
    assert ([c] + t)[0] == c && ([c] + t)[1..] == t;
  }

  lemma HexDigitValue(v: nat)
    requires v < 16
    ensures IsHexDigit(Hex(v)) && HexValue(Hex(v)) == v
  {
  }

  lemma UnescapeAsciiUnit(c: byte, rest: Bytes, x: Bytes)
    requires c < 0x80 && Unescape(rest) == Some(x)
    ensures Unescape((if Safe(c) then [c] else AsciiEscape(c)) + rest) == Some([c] + x)
  {
    if !Safe(c) && c != BACKSLASH && c != QUOTE && c != LF && c != CR && c != TAB {
      var t := AsciiEscape(c) + rest;
      HexDigitValue(c as int / 16);
      HexDigitValue(c as int % 16);
      assert t[6..] == rest;
      assert HexValue(t[2]) * 4096 + HexValue(t[3]) * 256 + HexValue(t[4]) * 16 + HexValue(t[5]) == c as int;
    } else if !Safe(c) {
      assert (AsciiEscape(c) + rest)[2..] == rest;
    } else {
      assert ([c] + rest)[1..] == rest;
    }
  }

  lemma UnescapeReplacement(rest: Bytes, x: Bytes)
    requires Unescape(rest) == Some(x)
    ensures Unescape(REPLACEMENT + rest) == Some(EncodeRune(RUNE_ERROR) + x)
  {
    var t := REPLACEMENT + rest;
    assert t[6..] == rest;
    assert HexValue(t[2]) * 4096 + HexValue(t[3]) * 256 + HexValue(t[4]) * 16 + HexValue(t[5]) == RUNE_ERROR;
  }

  lemma UnescapeLineSep(r: int, rest: Bytes, x: Bytes)
    requires (r == 0x2028 || r == 0x2029) && Unescape(rest) == Some(x)
    ensures Unescape(LineSepEscape(r) + rest) == Some(EncodeRune(r) + x)
  {
    var t := LineSepEscape(r) + rest;
    assert t[6..] == rest;
    HexDigitValue(r % 16);
    assert HexValue(t[2]) * 4096 + HexValue(t[3]) * 256 + HexValue(t[4]) * 16 + HexValue(t[5]) == r;
  }

  /** Reading one escaped unit back gives the unit, sanitized. */
  lemma UnescapeUnit(s: Bytes, rest: Bytes, x: Bytes)
    requires |s| >= 1 && Unescape(rest) == Some(x)
    ensures var unit := if s[0] >= 0x80 && InvalidAt(s) then EncodeRune(RUNE_ERROR) else s[..UnitSize(s)];
      Unescape(UnitOut(s) + rest) == Some(unit + x)
  {
    if s[0] < 0x80 {
      UnescapeAsciiUnit(s[0], rest, x);
      assert s[..1] == [s[0]];
    } else {
      var (r, size) := DecodeRune(s);
      if r == RUNE_ERROR && size == 1 {
        UnescapeReplacement(rest, x);
      } else if r == 0x2028 || r == 0x2029 {
        EncodeDecode(s);
        UnescapeLineSep(r, rest, x);
      } else {
        UnescapeHigh(s[..size], rest, x);
      }
    }
  }

  /** Reading the escaped text back as a JSON string body gives the original
      string with its invalid bytes replaced by U+FFFD: escaping loses
      nothing else. */
  lemma {:induction false} EscapeRoundTrip(s: Bytes)
    ensures Unescape(Escape(s)) == Some(Sanitize(s))
    decreases |s|
  {
    if s != [] {
      EscapeRoundTrip(s[UnitSize(s)..]);
      UnescapeUnit(s, Escape(s[UnitSize(s)..]), Sanitize(s[UnitSize(s)..]));
    }
  }

  /** On valid UTF-8 nothing is replaced, so the round trip is exact. */
  lemma {:induction false} SanitizeValid(s: Bytes)
    requires ValidUtf8(s)
    ensures Sanitize(s) == s
    decreases |s|
  {
    if s != [] {
      SanitizeValid(s[UnitSize(s)..]);
      assert s[..UnitSize(s)] + s[UnitSize(s)..] == s;
    }
  }

  /** The examples of the escaping rules: a quote is backslash-escaped, a
      newline becomes \n, an invalid byte becomes \ufffd. */
  lemma EscapeExamples()
    ensures Escape([0x73, QUOTE, 0x72]) == [0x73, BACKSLASH, QUOTE, 0x72]
    ensures Escape([LF]) == [BACKSLASH, 0x6E]
    ensures Escape([0x01]) == [BACKSLASH, U, ZERO, ZERO, ZERO, 0x31]
  {
    assert [0x73, QUOTE, 0x72][1..] == [QUOTE, 0x72];
    assert [QUOTE, 0x72][1..] == [0x72];
    assert [0x72][1..] == [];
    assert Escape([0x72]) == [0x72];
    assert Escape([QUOTE, 0x72]) == [BACKSLASH, QUOTE] + Escape([0x72]);
  }

  /** Invalid UTF-8, U+2028 and a valid two-byte sequence. */
  lemma EscapeUnicodeExamples()
    ensures Escape([0xFF]) == REPLACEMENT
    ensures Escape([0xE2, 0x80, 0xA8]) == [BACKSLASH, U, 0x32, 0x30, 0x32, 0x38]
    ensures Escape([0xC3, 0xA9]) == [0xC3, 0xA9]
  {
    assert [0xC3, 0xA9][..2] == [0xC3, 0xA9];
  }
}
