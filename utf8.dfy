/** UTF-8 decoding of one code point as Go's utf8.DecodeRuneInString does it
    (RFC 3629 section 3 with Go's accept ranges: no overlong forms, no
    surrogates, nothing above U+10FFFF), and the encoder that is its inverse on
    Unicode scalar values. */
module Utf8 {
  import opened Bytes

  const RUNE_ERROR: int := 0xFFFD

  predicate IsCont(b: byte) { 0x80 <= b <= 0xBF }

  /** The range the second byte must lie in, given the first (Go's acceptRanges). */
  function SecondLo(b0: byte): byte { if b0 == 0xE0 then 0xA0 else if b0 == 0xF0 then 0x90 else 0x80 }
  function SecondHi(b0: byte): byte { if b0 == 0xED then 0x9F else if b0 == 0xF4 then 0x8F else 0xBF }

  /** The sequence length announced by a first byte, 0 for a byte that cannot
      start a sequence. */
  function SeqLen(b0: byte): nat {
    if b0 < 0x80 then 1
    else if 0xC2 <= b0 <= 0xDF then 2
    else if 0xE0 <= b0 <= 0xEF then 3
    else if 0xF0 <= b0 <= 0xF4 then 4
    else 0
  }

  /** (rune, size) of the first code point of s; (RUNE_ERROR, 1) when s does
      not start with a complete, valid sequence. */
  function DecodeRune(s: Bytes): (r: (int, nat))
    requires |s| >= 1
    ensures 1 <= r.1 <= 4 && r.1 <= |s|
    ensures r.1 > 1 ==> r.1 == SeqLen(s[0]) && forall k :: 0 <= k < r.1 ==> s[k] >= 0x80
    ensures s[0] < 0x80 ==> r == (s[0] as int, 1)
  {
    var b0 := s[0];
    var n := SeqLen(b0);
    if n == 1 then (b0 as int, 1)
    else if n == 0 || |s| < n then (RUNE_ERROR, 1)
    else if s[1] < SecondLo(b0) || SecondHi(b0) < s[1] then (RUNE_ERROR, 1)
    else if n == 2 then ((b0 as int % 32) * 64 + s[1] as int % 64, 2)
    else if !IsCont(s[2]) then (RUNE_ERROR, 1)
    else if n == 3 then ((b0 as int % 16) * 4096 + (s[1] as int % 64) * 64 + s[2] as int % 64, 3)
    else if !IsCont(s[3]) then (RUNE_ERROR, 1)
    else ((b0 as int % 8) * 262144 + (s[1] as int % 64) * 4096 + (s[2] as int % 64) * 64 + s[3] as int % 64, 4)
  }

  /** A byte that does not start a valid sequence: what the escaper replaces. */
  predicate InvalidAt(s: Bytes)
    requires |s| >= 1
  {
    DecodeRune(s) == (RUNE_ERROR, 1)
  }

  predicate IsScalar(r: int) {
    0 <= r <= 0x10FFFF && !(0xD800 <= r <= 0xDFFF)
  }

  /** utf8.EncodeRune on a Unicode scalar value; `r / 64` is Go's `r >> 6`. */
  function EncodeRune(r: int): (e: Bytes)
    requires IsScalar(r)
    ensures 1 <= |e| <= 4
  {
    var q1 := r / 64;
    var q2 := q1 / 64;
    if r < 0x80 then [r as byte]
    else if r < 0x800 then [(0xC0 + q1) as byte, (0x80 + r % 64) as byte]
    else if r < 0x10000 then
      [(0xE0 + q2) as byte, (0x80 + q1 % 64) as byte, (0x80 + r % 64) as byte]
    else
      [(0xF0 + q2 / 64) as byte, (0x80 + q2 % 64) as byte,
       (0x80 + q1 % 64) as byte, (0x80 + r % 64) as byte]
  }

  lemma Split64(x: int)
    requires x >= 0
    ensures x == (x / 64) * 64 + x % 64 && 0 <= x % 64 < 64 && x / 64 >= 0
  {
  }

  lemma Unsplit64(x: int, q: int, m: int)
    requires 0 <= m < 64 && x == q * 64 + m
    ensures x / 64 == q && x % 64 == m
  {
  }

  lemma DecodeTwo(r: int, rest: Bytes)
    requires IsScalar(r) && 0x80 <= r < 0x800
    ensures DecodeRune(EncodeRune(r) + rest) == (r, 2)
  {
    Split64(r);
    var s := EncodeRune(r) + rest;
    assert s[0] as int == 0xC0 + r / 64 && s[1] as int == 0x80 + r % 64;
  }

  lemma DecodeThree(r: int, rest: Bytes)
    requires IsScalar(r) && 0x800 <= r < 0x10000
    ensures DecodeRune(EncodeRune(r) + rest) == (r, 3)
  {
    var q1 := r / 64;
    Split64(r);
    Split64(q1);
    var s := EncodeRune(r) + rest;
    assert s[0] as int == 0xE0 + q1 / 64;
    assert s[1] as int == 0x80 + q1 % 64;
    assert s[2] as int == 0x80 + r % 64;
  }

  /** The four 6-bit (3-bit for the first) groups of a supplementary code
      point, as EncodeRune writes them. */
  lemma FourGroups(r: int) returns (a: int, b: int, c: int, d: int)
    requires IsScalar(r) && 0x10000 <= r
    ensures 0 <= a <= 4 && 0 <= b < 64 && 0 <= c < 64 && 0 <= d < 64
    ensures r == a * 262144 + b * 4096 + c * 64 + d
    ensures EncodeRune(r) == [(0xF0 + a) as byte, (0x80 + b) as byte, (0x80 + c) as byte, (0x80 + d) as byte]
  {
    var q1 := r / 64;
    var q2 := q1 / 64;
    Split64(r);
    Split64(q1);
    Split64(q2);
    a, b, c, d := q2 / 64, q2 % 64, q1 % 64, r % 64;
  }

  lemma DecodeFour(r: int, rest: Bytes)
    requires IsScalar(r) && 0x10000 <= r
    ensures DecodeRune(EncodeRune(r) + rest) == (r, 4)
  {
    var a, b, c, d := FourGroups(r);
    var s := EncodeRune(r) + rest;
    assert s[0] == (0xF0 + a) as byte && s[1] == (0x80 + b) as byte;
    assert s[2] == (0x80 + c) as byte && s[3] == (0x80 + d) as byte;
    assert a == 0 ==> b >= 0x10;
    assert a == 4 ==> b < 0x10;
    assert (0xF0 + a) % 8 == a && (0x80 + b) % 64 == b && (0x80 + c) % 64 == c && (0x80 + d) % 64 == d;
  }

  /** Decoding the encoding of a scalar value gives it back, with the
      encoding's length as size, whatever follows. */
  lemma DecodeEncode(r: int, rest: Bytes)
    requires IsScalar(r)
    ensures DecodeRune(EncodeRune(r) + rest) == (r, |EncodeRune(r)|)
  {
    if r < 0x80 {
    } else if r < 0x800 {
      DecodeTwo(r, rest);
    } else if r < 0x10000 {
      DecodeThree(r, rest);
    } else {
      DecodeFour(r, rest);
    }
  }

  lemma EncodeDecodeTwo(s: Bytes)
    requires |s| >= 2 && SeqLen(s[0]) == 2 && IsCont(s[1])
    ensures var r := (s[0] as int % 32) * 64 + s[1] as int % 64;
      IsScalar(r) && EncodeRune(r) == s[..2]
  {
    var r := (s[0] as int % 32) * 64 + s[1] as int % 64;
    Unsplit64(r, s[0] as int % 32, s[1] as int % 64);
  }

  lemma EncodeDecodeThree(s: Bytes)
    requires |s| >= 3 && SeqLen(s[0]) == 3 && SecondLo(s[0]) <= s[1] <= SecondHi(s[0]) && IsCont(s[2])
    ensures var r := (s[0] as int % 16) * 4096 + (s[1] as int % 64) * 64 + s[2] as int % 64;
      IsScalar(r) && EncodeRune(r) == s[..3]
  {
    var q1 := (s[0] as int % 16) * 64 + s[1] as int % 64;
    var r := q1 * 64 + s[2] as int % 64;
    Unsplit64(r, q1, s[2] as int % 64);
    Unsplit64(q1, s[0] as int % 16, s[1] as int % 64);
  }

  lemma EncodeDecodeFour(s: Bytes)
    requires |s| >= 4 && SeqLen(s[0]) == 4 && SecondLo(s[0]) <= s[1] <= SecondHi(s[0])
    requires IsCont(s[2]) && IsCont(s[3])
    ensures var r := (s[0] as int % 8) * 262144 + (s[1] as int % 64) * 4096 + (s[2] as int % 64) * 64 + s[3] as int % 64;
      IsScalar(r) && EncodeRune(r) == s[..4]
  {
    var q2 := (s[0] as int % 8) * 64 + s[1] as int % 64;
    var q1 := q2 * 64 + s[2] as int % 64;
    var r := q1 * 64 + s[3] as int % 64;
    Unsplit64(r, q1, s[3] as int % 64);
    Unsplit64(q1, q2, s[2] as int % 64);
    Unsplit64(q2, s[0] as int % 8, s[1] as int % 64);
  }

  /** Whatever DecodeRune accepts is a scalar value whose encoding is exactly
      the bytes it consumed. */
  lemma EncodeDecode(s: Bytes)
    requires |s| >= 1 && !InvalidAt(s)
    ensures IsScalar(DecodeRune(s).0) && EncodeRune(DecodeRune(s).0) == s[..DecodeRune(s).1]
  {
    var n := SeqLen(s[0]);
    if n == 2 {
      EncodeDecodeTwo(s);
    } else if n == 3 {
      EncodeDecodeThree(s);
    } else if n == 4 {
      EncodeDecodeFour(s);
    }
  }
}
