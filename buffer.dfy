/** The output buffer the generated Marshal code writes into: a byte slice
    whose length grows by appending and whose backing array is replaced by
    one of twice the needed size when the capacity runs out. Here the slice
    is a backing array `buf` (its capacity) and a length `len`. */
module OutputBuffer {
  import opened Bytes
  import opened Decimal
  import opened Utf8
  import Base64
  import opened JsonEscape

  class Buffer {
    var buf: array<byte>
    var len: nat

    predicate Valid()
      reads this
    {
      len <= buf.Length
    }

    /** Bytes(): the slice's visible bytes. */
    function Contents(): Bytes
      reads this, buf
      requires Valid()
    {
      buf[..len]
    }

    function Cap(): nat
      reads this
    {
      buf.Length
    }

    /** A fresh, empty buffer (`[]byte("")` has no capacity). */
    constructor Empty()
      ensures Valid() && Contents() == [] && Cap() == 0
    {
      buf := new byte[0];
      len := 0;
    }

    /** reset: truncate to length 0, keeping the backing array. */
    method Reset()
      requires Valid()
      modifies this
      ensures Valid() && Contents() == [] && buf == old(buf)
    {
      len := 0;
    }

    /** grow(n): make room for n more bytes and return where they start.
        The old bytes stay; when they do not fit, the backing array is
        replaced by one of exactly twice the new length. The bytes after
        the old length are whatever the backing array held. */
    method Grow(n: nat) returns (m: nat)
      requires Valid()
      modifies this
      ensures Valid()
      ensures m == old(len) && len == old(len) + n
      ensures buf[..m] == old(Contents())
      ensures old(len) + n > old(Cap()) ==> fresh(buf) && Cap() == 2 * (old(len) + n)
      ensures old(len) + n <= old(Cap()) ==> buf == old(buf) && buf[..] == old(buf[..])
    {
      var l := len;
      if l + n > buf.Length {
        var nb := new byte[2 * (l + n)];
        var k := 0;
        while k < l
          invariant 0 <= k <= l <= buf.Length && l == len
          invariant nb[..k] == buf[..k]
          modifies nb
        {
          nb[k] := buf[k];
          k := k + 1;
        }
        buf := nb;
      }
      len := l + n;
      m := l;
    }

    /** WriteStr / Write: append data, return how many bytes were written. */
    method WriteStr(data: Bytes) returns (k: nat)
      requires Valid()
      modifies this, buf
      ensures Valid() && (buf == old(buf) || fresh(buf))
      ensures Contents() == old(Contents()) + data
      ensures k == |data|
    {
      var m := Grow(|data|);
      var j := 0;
      while j < |data|
        invariant 0 <= j <= |data| && len == m + |data| <= buf.Length
        invariant buf[..m] == old(Contents())
        invariant buf[m..m + j] == data[..j]
        modifies buf
      {
        buf[m + j] := data[j];
        assert buf[m..m + j + 1] == buf[m..m + j] + [data[j]];
        j := j + 1;
      }
      assert buf[..len] == buf[..m] + buf[m..m + |data|];
      k := |data|;
    }

    /** Write([]byte): the same append as WriteStr. */
    method Write(data: Bytes) returns (k: nat)
      requires Valid()
      modifies this, buf
      ensures Valid() && (buf == old(buf) || fresh(buf))
      ensures Contents() == old(Contents()) + data
      ensures k == |data|
    {
      k := WriteStr(data);
    }

    method WriteByte(c: byte) returns (k: nat)
      requires Valid()
      modifies this, buf
      ensures Valid() && (buf == old(buf) || fresh(buf))
      ensures Contents() == old(Contents()) + [c]
      ensures k == 1
    {
      var m := Grow(1);
      buf[m] := c;
      assert buf[..len] == buf[..m] + [c];
      k := 1;
    }

    method WriteBool(v: bool) returns (k: nat)
      requires Valid()
      modifies this, buf
      ensures Valid() && (buf == old(buf) || fresh(buf))
      ensures Contents() == old(Contents()) + FormatBool(v)
    {
      k := WriteStr(FormatBool(v));
    }

    method WriteInt32(v: int) returns (k: nat)
      requires InSigned(v, 32)
      requires Valid()
      modifies this, buf
      ensures Valid() && (buf == old(buf) || fresh(buf))
      ensures Contents() == old(Contents()) + FormatInt(v)
    {
      k := WriteStr(FormatInt(v));
    }

    method WriteInt64(v: int) returns (k: nat)
      requires InSigned(v, 64)
      requires Valid()
      modifies this, buf
      ensures Valid() && (buf == old(buf) || fresh(buf))
      ensures Contents() == old(Contents()) + FormatInt(v)
    {
      k := WriteStr(FormatInt(v));
    }

    method WriteUint32(v: nat) returns (k: nat)
      requires InUnsigned(v, 32)
      requires Valid()
      modifies this, buf
      ensures Valid() && (buf == old(buf) || fresh(buf))
      ensures Contents() == old(Contents()) + FormatUint(v)
    {
      k := WriteStr(FormatUint(v));
    }

    method WriteUint64(v: nat) returns (k: nat)
      requires InUnsigned(v, 64)
      requires Valid()
      modifies this, buf
      ensures Valid() && (buf == old(buf) || fresh(buf))
      ensures Contents() == old(Contents()) + FormatUint(v)
    {
      k := WriteStr(FormatUint(v));
    }

    /** A []byte is written as a JSON string holding its base64 text. */
    method WriteBytes(data: Bytes) returns (k: nat)
      requires Valid()
      modifies this, buf
      ensures Valid() && (buf == old(buf) || fresh(buf))
      ensures Contents() == old(Contents()) + [QUOTE] + Base64.Encode(data) + [QUOTE]
    {
      k := WriteStr([QUOTE] + Base64.Encode(data) + [QUOTE]);
    }

    /** Retract a trailing ',' (but never the only byte). */
    method FixSymbol()
      requires Valid()
      modifies this
      ensures Valid() && buf == old(buf)
      ensures Contents() == Retract(old(Contents()))
    {
      if len >= 2 && buf[len - 1] == COMMA {
        len := len - 1;
      }
    }

    /** WriteString: append the JSON escaping of s, copying runs of bytes
        that need no escaping in one piece. `start` is where the pending
        run begins, `i` the unit being looked at. */
    method WriteString(s: Bytes)
      requires Valid()
      modifies this, buf
      ensures Valid() && (buf == old(buf) || fresh(buf))
      ensures Contents() == old(Contents()) + Escape(s)
    {
      ghost var target := Contents() + Escape(s);
      var start, i := 0, 0;
      while i < |s|
        invariant 0 <= start <= i <= |s|
        invariant Valid() && (buf == old(buf) || fresh(buf))
        invariant Contents() + s[start..i] + Escape(s[i..]) == target
        decreases |s| - i
      {
        start, i := WriteUnit(s, start, i, target);
      }
      assert s[|s|..] == [];
      var _ := WriteStr(s[start..]);
    }

    /** One turn of WriteString's loop: a unit that is copied joins the
        pending run; a unit that is rewritten flushes the run, then its
        escape is written and a new run starts after it. */
    method WriteUnit(s: Bytes, start: nat, i: nat, ghost target: Bytes) returns (start': nat, i': nat)
      requires start <= i < |s|
      requires Valid() && Contents() + s[start..i] + Escape(s[i..]) == target
      modifies this, buf
      ensures Valid() && (buf == old(buf) || fresh(buf))
      ensures start' <= i' <= |s| && i < i'
      ensures Contents() + s[start'..i'] + Escape(s[i'..]) == target
    {
      if s[i] < 0x80 {
        start', i' := AsciiUnit(s, start, i, target);
      } else {
        start', i' := MultiByteUnit(s, start, i, target);
      }
    }

    /** The unit is one ASCII byte: copied if it is in the safe set,
        escaped otherwise. */
    method AsciiUnit(s: Bytes, start: nat, i: nat, ghost target: Bytes) returns (start': nat, i': nat)
      requires start <= i < |s| && s[i] < 0x80
      requires Valid() && Contents() + s[start..i] + Escape(s[i..]) == target
      modifies this, buf
      ensures Valid() && (buf == old(buf) || fresh(buf))
      ensures start' <= i' == i + 1 <= |s|
      ensures Contents() + s[start'..i'] + Escape(s[i'..]) == target
    {
      ghost var prior := Contents();
      var c := s[i];
      if Safe(c) {
        assert s[i..][0] == c;
        KeepStep(prior, s, start, i, 1, target);
        return start, i + 1;
      }
      start', i' := FlushAscii(s, start, i, target);
    }

    /** An ASCII byte outside the safe set: the bytes kept so far are
        written, then its escape sequence. */
    method FlushAscii(s: Bytes, start: nat, i: nat, ghost target: Bytes) returns (start': nat, i': nat)
      requires start <= i < |s| && s[i] < 0x80 && !Safe(s[i])
      requires Valid() && Contents() + s[start..i] + Escape(s[i..]) == target
      modifies this, buf
      ensures Valid() && (buf == old(buf) || fresh(buf))
      ensures start' == i' == i + 1 <= |s|
      ensures Contents() + s[start'..i'] + Escape(s[i'..]) == target
    {
      ghost var prior := Contents();
      var c := s[i];
      assert s[i..][0] == c;
      assert UnitOut(s[i..]) == AsciiEscape(c);
      FlushStep(prior, s, start, i, 1, target);
      var _ := WriteStr(s[start..i]);
      WriteAsciiEscape(c);
      return i + 1, i + 1;
    }

    /** The unit starts with a byte of 0x80 or more: an invalid byte is
        replaced, U+2028 and U+2029 are escaped, any other sequence is
        copied. */
    method MultiByteUnit(s: Bytes, start: nat, i: nat, ghost target: Bytes) returns (start': nat, i': nat)
      requires start <= i < |s| && s[i] >= 0x80
      requires Valid() && Contents() + s[start..i] + Escape(s[i..]) == target
      modifies this, buf
      ensures Valid() && (buf == old(buf) || fresh(buf))
      ensures start' <= i' <= |s| && i < i'
      ensures Contents() + s[start'..i'] + Escape(s[i'..]) == target
    {
      ghost var prior := Contents();
      var (r, size) := DecodeRune(s[i..]);
      if r == RUNE_ERROR && size == 1 {
        assert UnitOut(s[i..]) == REPLACEMENT;
        FlushStep(prior, s, start, i, size, target);
        var _ := WriteStr(s[start..i]);
        var _ := WriteStr(REPLACEMENT);
        return i + size, i + size;
      }
      if r == 0x2028 || r == 0x2029 {
        assert UnitOut(s[i..]) == LineSepEscape(r);
        FlushStep(prior, s, start, i, size, target);
        var _ := WriteStr(s[start..i]);
        WriteLineSep(r);
        return i + size, i + size;
      }
      assert UnitOut(s[i..]) == s[i..][..size];
      KeepStep(prior, s, start, i, size, target);
      return start, i + size;
    }

    /** The escape sequence of an ASCII byte outside the safe set. */
    method WriteAsciiEscape(c: byte)
      requires c < 0x80 && !Safe(c)
      requires Valid()
      modifies this, buf
      ensures Valid() && (buf == old(buf) || fresh(buf))
      ensures Contents() == old(Contents()) + AsciiEscape(c)
    {
      ghost var prior := Contents();
      var _ := WriteByte(BACKSLASH);
      if c == BACKSLASH || c == QUOTE {
        var _ := WriteByte(c);
      } else if c == LF {
        var _ := WriteByte(0x6E);
      } else if c == CR {
        var _ := WriteByte(0x72);
      } else if c == TAB {
        var _ := WriteByte(0x74);
      } else {
        WriteHexEscape(c);
      }
    }

    /** The tail of a \u00XX escape: "u00" and the two hex digits of c. */
    method WriteHexEscape(c: byte)
      requires Valid()
      modifies this, buf
      ensures Valid() && (buf == old(buf) || fresh(buf))
      ensures Contents() == old(Contents()) + [U, ZERO, ZERO, Hex(c as int / 16), Hex(c as int % 16)]
    {
      ghost var prior := Contents();
      var _ := WriteStr([U, ZERO, ZERO]);
      var _ := WriteByte(Hex(c as int / 16));
      var _ := WriteByte(Hex(c as int % 16));
      assert Contents() == prior + [U, ZERO, ZERO] + [Hex(c as int / 16)] + [Hex(c as int % 16)];
    }

    /** The escape sequence of U+2028 or U+2029. */
    method WriteLineSep(r: int)
      requires r == 0x2028 || r == 0x2029
      requires Valid()
      modifies this, buf
      ensures Valid() && (buf == old(buf) || fresh(buf))
      ensures Contents() == old(Contents()) + LineSepEscape(r)
    {
      var _ := WriteStr([BACKSLASH, U, 0x32, 0x30, 0x32]);
      var _ := WriteByte(Hex(r % 16));
    }

    /** WriteStringWithQuote: the escaped text between quotes. */
    method WriteStringWithQuote(s: Bytes)
      requires Valid()
      modifies this, buf
      ensures Valid() && (buf == old(buf) || fresh(buf))
      ensures Contents() == old(Contents()) + [QUOTE] + Escape(s) + [QUOTE]
    {
      var _ := WriteByte(QUOTE);
      WriteString(s);
      var _ := WriteByte(QUOTE);
    }
  }

  /** New: a recycled buffer from the pool, emptied, or else a fresh one.
      Which buffer the pool hands out is the caller's parameter. */
  method New(recycled: Buffer?) returns (b: Buffer)
    requires recycled != null ==> recycled.Valid()
    modifies recycled
    ensures b.Valid() && b.Contents() == []
    ensures recycled != null ==> b == recycled
    ensures recycled == null ==> fresh(b)
  {
    if recycled != null {
      recycled.Reset();
      b := recycled;
    } else {
      b := new Buffer.Empty();
    }
  }

  /** The bytes after FixSymbol. */
  function Retract(c: Bytes): (r: Bytes)
    ensures |c| >= 2 && c[|c| - 1] == COMMA ==> r + [COMMA] == c
    ensures !(|c| >= 2 && c[|c| - 1] == COMMA) ==> r == c
  {
    if |c| >= 2 && c[|c| - 1] == COMMA then c[..|c| - 1] else c
  }

  /** A unit the escaper copies joins the pending run. */
  lemma SkipUnit(s: Bytes, start: nat, i: nat, n: nat)
    requires start <= i < |s| && n == UnitSize(s[i..]) && PassThrough(s[i..])
    ensures i + n <= |s|
    ensures s[start..i] + Escape(s[i..]) == s[start..i + n] + Escape(s[i + n..])
  {
    var t := s[i..];
    var e := Escape(s[i + n..]);
    assert t[n..] == s[i + n..];
    assert Escape(t) == t[..n] + e;
    Joined(s, start, i, n, e);
  }

  lemma Joined(s: Bytes, start: nat, i: nat, n: nat, e: Bytes)
    requires start <= i && i + n <= |s|
    ensures s[start..i] + (s[i..][..n] + e) == s[start..i + n] + e
  {
    assert s[start..i] + s[i..][..n] == s[start..i + n];
  }

  /** A unit the escaper rewrites ends the pending run. */
  lemma FlushUnit(s: Bytes, i: nat, n: nat)
    requires i < |s| && n == UnitSize(s[i..])
    ensures i + n <= |s|
    ensures Escape(s[i..]) == UnitOut(s[i..]) + Escape(s[i + n..])
  {
    var t := s[i..];
    assert t[n..] == s[i + n..];
  }

  /** A unit copied unchanged joins the pending run. */
  lemma KeepStep(prior: Bytes, s: Bytes, start: nat, i: nat, n: nat, target: Bytes)
    requires start <= i < |s| && n == UnitSize(s[i..]) && PassThrough(s[i..])
    requires prior + s[start..i] + Escape(s[i..]) == target
    ensures i + n <= |s|
    ensures prior + s[start..i + n] + Escape(s[i + n..]) == target
  {
    SkipUnit(s, start, i, n);
    Regroup(prior, s[start..i], Escape(s[i..]), s[start..i + n], Escape(s[i + n..]));
  }

  /** Two splits of the same text stay equal after a common prefix; stated
      over plain sequences so that the solver does not see the slices. */
  lemma Regroup(c: Bytes, a: Bytes, e: Bytes, a2: Bytes, e2: Bytes)
    requires a + e == a2 + e2
    ensures c + a + e == c + a2 + e2
  {
    calc {
      c + a + e;
      c + (a + e);
      c + (a2 + e2);
      c + a2 + e2;
    }
  }

  /** A rewritten unit: the pending run, then the unit's output, then an
      empty run before the rest. */
  lemma FlushStep(prior: Bytes, s: Bytes, start: nat, i: nat, n: nat, target: Bytes)
    requires start <= i < |s| && n == UnitSize(s[i..])
    requires prior + s[start..i] + Escape(s[i..]) == target
    ensures i + n <= |s|
    ensures prior + s[start..i] + UnitOut(s[i..]) + s[i + n..i + n] + Escape(s[i + n..]) == target
  {
    FlushUnit(s, i, n);
    assert s[i + n..i + n] == [];
    assert prior + s[start..i] + UnitOut(s[i..]) + [] + Escape(s[i + n..])
        == prior + s[start..i] + (UnitOut(s[i..]) + Escape(s[i + n..]));
  }

  /** Appending a ',' and retracting it leaves a non-empty text as it was:
      the Marshal code's unconditional ',' after each member followed by
      FixSymbol before the closer. */
  lemma RetractComma(c: Bytes)
    requires |c| >= 1
    ensures Retract(c + [COMMA]) == c
  {
  }

  /** FixSymbol never removes anything but a final ',' of a text of length
      at least 2. */
  lemma RetractKeeps(c: Bytes)
    requires |c| < 2 || c[|c| - 1] != COMMA
    ensures Retract(c) == c
  {
  }
}
