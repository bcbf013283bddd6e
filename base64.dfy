/** The standard base64 alphabet with '=' padding (section 4 of RFC 4648), as
    base64.StdEncoding.EncodeToString produces it for Buffer.WriteBytes.
    The program never decodes base64 (the tokenizer's Bytes extractor hands
    back the quoted text as is); Decode is the reference inverse used to state
    that the encoding loses nothing. */
module Base64 {
  import opened Bytes
  import opened Options

  const PAD: byte := 0x3D  // '='

  /** The character for a 6-bit value: A-Z, a-z, 0-9, '+', '/'. */
  function Char(v: nat): (c: byte)
    requires v < 64
  {
    if v < 26 then (0x41 + v) as byte
    else if v < 52 then (0x61 + v - 26) as byte
    else if v < 62 then (0x30 + v - 52) as byte
    else if v == 62 then 0x2B
    else 0x2F
  }

  predicate IsAlphabet(c: byte) {
    (0x41 <= c <= 0x5A) || (0x61 <= c <= 0x7A) || (0x30 <= c <= 0x39) || c == 0x2B || c == 0x2F
  }

  /** The 6-bit value of an alphabet character. */
  function Index(c: byte): (v: nat)
    requires IsAlphabet(c)
    ensures v < 64 && Char(v) == c
  {
    if 0x41 <= c <= 0x5A then c as int - 0x41
    else if 0x61 <= c <= 0x7A then c as int - 0x61 + 26
    else if 0x30 <= c <= 0x39 then c as int - 0x30 + 52
    else if c == 0x2B then 62
    else 63
  }

  lemma CharIndex(v: nat)
    requires v < 64
    ensures IsAlphabet(Char(v)) && Index(Char(v)) == v
  {
  }

  /** Three bytes become four characters. */
  function Block(b0: byte, b1: byte, b2: byte): Bytes {
    [Char(b0 as int / 4), Char((b0 as int % 4) * 16 + b1 as int / 16),
     Char((b1 as int % 16) * 4 + b2 as int / 64), Char(b2 as int % 64)]
  }

  /** base64.StdEncoding.EncodeToString */
  function Encode(d: Bytes): (r: Bytes)
    ensures |r| == 4 * ((|d| + 2) / 3)
    decreases |d|
  {
    if |d| >= 3 then Block(d[0], d[1], d[2]) + Encode(d[3..])
    else if |d| == 2 then Block(d[0], d[1], 0)[..3] + [PAD]
    else if |d| == 1 then Block(d[0], 0, 0)[..2] + [PAD, PAD]
    else []
  }

  function DecodeBlock(c0: nat, c1: nat, c2: nat, c3: nat): Bytes
    requires c0 < 64 && c1 < 64 && c2 < 64 && c3 < 64
  {
    [(c0 * 4 + c1 / 16) as byte, ((c1 % 16) * 16 + c2 / 4) as byte, ((c2 % 4) * 64 + c3) as byte]
  }

  /** The reference inverse: four characters at a time, the last group may end
      in one or two '='. None for text that is not canonical padded base64
      syntax (the bits a padded group drops are not checked). */
  function Decode(s: Bytes): Option<Bytes>
    decreases |s|
  {
    if |s| == 0 then Some([])
    else if |s| < 4 then None
    else if |s| == 4 && IsAlphabet(s[0]) && IsAlphabet(s[1]) && s[2] == PAD && s[3] == PAD then
      Some(DecodeBlock(Index(s[0]), Index(s[1]), 0, 0)[..1])
    else if |s| == 4 && IsAlphabet(s[0]) && IsAlphabet(s[1]) && IsAlphabet(s[2]) && s[3] == PAD then
      Some(DecodeBlock(Index(s[0]), Index(s[1]), Index(s[2]), 0)[..2])
    else if IsAlphabet(s[0]) && IsAlphabet(s[1]) && IsAlphabet(s[2]) && IsAlphabet(s[3]) then
      match Decode(s[4..])
      case None => None
      case Some(rest) => Some(DecodeBlock(Index(s[0]), Index(s[1]), Index(s[2]), Index(s[3])) + rest)
    else None
  }

  lemma BlockRoundTrip(b0: byte, b1: byte, b2: byte)
    ensures var c := Block(b0, b1, b2);
      IsAlphabet(c[0]) && IsAlphabet(c[1]) && IsAlphabet(c[2]) && IsAlphabet(c[3]) &&
      DecodeBlock(Index(c[0]), Index(c[1]), Index(c[2]), Index(c[3])) == [b0, b1, b2]
  {
    var x0, x1, x2 := b0 as int, b1 as int, b2 as int;
    CharIndex(x0 / 4);
    CharIndex((x0 % 4) * 16 + x1 / 16);
    CharIndex((x1 % 16) * 4 + x2 / 64);
    CharIndex(x2 % 64);
    GroupsJoin(b0, b1, b2);
  }

  /** The four 6-bit groups of three bytes put back together. */
  lemma GroupsJoin(b0: byte, b1: byte, b2: byte)
    ensures DecodeBlock(b0 as int / 4, (b0 as int % 4) * 16 + b1 as int / 16,
                        (b1 as int % 16) * 4 + b2 as int / 64, b2 as int % 64) == [b0, b1, b2]
  {
    var x0, x1, x2 := b0 as int, b1 as int, b2 as int;
    var c1 := (x0 % 4) * 16 + x1 / 16;
    var c2 := (x1 % 16) * 4 + x2 / 64;
    assert c1 / 16 == x0 % 4 && c1 % 16 == x1 / 16;
    assert c2 / 4 == x1 % 16 && c2 % 4 == x2 / 64;
  }

  lemma DecodeLastGroup(s: Bytes)
    requires |s| == 4 && IsAlphabet(s[0]) && IsAlphabet(s[1])
    ensures s[2] == PAD && s[3] == PAD ==>
      Decode(s) == Some(DecodeBlock(Index(s[0]), Index(s[1]), 0, 0)[..1])
    ensures IsAlphabet(s[2]) && s[3] == PAD ==>
      Decode(s) == Some(DecodeBlock(Index(s[0]), Index(s[1]), Index(s[2]), 0)[..2])
  {
  }

  lemma TwoByteRoundTrip(b0: byte, b1: byte)
    ensures Decode(Encode([b0, b1])) == Some([b0, b1])
  {
    BlockRoundTrip(b0, b1, 0);
    var c := Block(b0, b1, 0);
    var e := [c[0], c[1], c[2], PAD];
    assert Encode([b0, b1]) == e;
    DecodeLastGroup(e);
    var i0, i1, i2 := Index(c[0]), Index(c[1]), Index(c[2]);
    assert DecodeBlock(i0, i1, i2, Index(c[3])) == [b0, b1, 0];
    assert DecodeBlock(i0, i1, i2, 0)[..2] == DecodeBlock(i0, i1, i2, Index(c[3]))[..2];
    assert [b0, b1, 0][..2] == [b0, b1];
    assert Decode(e) == Some([b0, b1]);
  }

  lemma OneByteRoundTrip(b0: byte)
    ensures Decode(Encode([b0])) == Some([b0])
  {
    var v0, v1 := b0 as int / 4, (b0 as int % 4) * 16;
    CharIndex(v0);
    CharIndex(v1);
    var e := [Char(v0), Char(v1), PAD, PAD];
    assert Encode([b0]) == e;
    DecodeLastGroup(e);
    assert v1 / 16 == b0 as int % 4;
    assert DecodeBlock(v0, v1, 0, 0)[..1] == [b0];
  }

  lemma DecodeFullGroup(c: Bytes, t: Bytes, rest: Bytes)
    requires |c| == 4 && IsAlphabet(c[0]) && IsAlphabet(c[1]) && IsAlphabet(c[2]) && IsAlphabet(c[3])
    requires Decode(t) == Some(rest)
    ensures Decode(c + t) == Some(DecodeBlock(Index(c[0]), Index(c[1]), Index(c[2]), Index(c[3])) + rest)
  {
    assert (c + t)[4..] == t;
  }

  lemma GroupStep(d: Bytes)
    requires |d| >= 3 && Decode(Encode(d[3..])) == Some(d[3..])
    ensures Decode(Encode(d)) == Some(d)
  {
    var c := Block(d[0], d[1], d[2]);
    BlockRoundTrip(d[0], d[1], d[2]);
    assert Encode(d) == c + Encode(d[3..]);
    var x := DecodeBlock(Index(c[0]), Index(c[1]), Index(c[2]), Index(c[3]));
    assert x == [d[0], d[1], d[2]];
    DecodeFullGroup(c, Encode(d[3..]), d[3..]);
    SplitThree(d);
  }

  lemma SplitThree(d: Bytes)
    requires |d| >= 3
    ensures [d[0], d[1], d[2]] + d[3..] == d
  {
    assert d[..3] == [d[0], d[1], d[2]];
    assert d[..3] + d[3..] == d;
  }

  /** Decoding the encoder's output gives back the input. */
  lemma {:induction false} EncodeRoundTrip(d: Bytes)
    ensures Decode(Encode(d)) == Some(d)
    decreases |d|
  {
    if |d| >= 3 {
      EncodeRoundTrip(d[3..]);
      GroupStep(d);
    } else if |d| == 2 {
      assert d == [d[0], d[1]];
      TwoByteRoundTrip(d[0], d[1]);
    } else if |d| == 1 {
      assert d == [d[0]];
      OneByteRoundTrip(d[0]);
    }
  }

  /** The encoding consists of alphabet characters and '=' only (so it never
      contains a quote or a backslash). */
  lemma {:induction false} EncodeAlphabet(d: Bytes)
    ensures forall i :: 0 <= i < |Encode(d)| ==> IsAlphabet(Encode(d)[i]) || Encode(d)[i] == PAD
    decreases |d|
  {
    if |d| >= 3 {
      BlockRoundTrip(d[0], d[1], d[2]);
      EncodeAlphabet(d[3..]);
    } else if |d| == 2 {
      BlockRoundTrip(d[0], d[1], 0);
    } else if |d| == 1 {
      BlockRoundTrip(d[0], 0, 0);
    }
  }
}
