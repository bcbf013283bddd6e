/** Decimal text of integers as the writer produces it (strconv.FormatInt and
    FormatUint in base 10) and as the tokenizer's integer extractors read it
    (strconv.ParseInt and ParseUint in base 10 at a given bit width). */
module Decimal {
  import opened Bytes
  import opened Options

  function Pow2(n: nat): (r: nat)
    ensures r >= 1
  {
    if n == 0 then 1 else 2 * Pow2(n - 1)
  }

  /** The value range of a signed / unsigned Go integer of `bits` bits. */
  predicate InSigned(v: int, bits: nat)
    requires bits >= 1
  {
    -(Pow2(bits - 1) as int) <= v < Pow2(bits - 1)
  }

  predicate InUnsigned(v: int, bits: nat) {
    0 <= v < Pow2(bits)
  }

  predicate AllDigits(s: Bytes) {
    forall i :: 0 <= i < |s| ==> IsDigit(s[i])
  }

  /** Canonical decimal digits of a natural number: no leading zero. */
  function Digits(n: nat): (r: Bytes)
    ensures |r| >= 1 && AllDigits(r)
    ensures |r| > 1 ==> r[0] != ZERO
  {
    if n < 10 then [(0x30 + n) as byte]
    else Digits(n / 10) + [(0x30 + n % 10) as byte]
  }

  /** The value of a digit string read left to right, as strconv does. */
  function DigitsValue(s: Bytes): nat
    requires AllDigits(s)
  {
    if s == [] then 0
    else DigitsValue(s[..|s| - 1]) * 10 + (s[|s| - 1] as int - 0x30)
  }

  /** strconv.FormatInt(v, 10) */
  function FormatInt(v: int): Bytes {
    if v < 0 then [MINUS] + Digits(-v) else Digits(v)
  }

  /** strconv.FormatUint(v, 10) */
  function FormatUint(v: nat): Bytes {
    Digits(v)
  }

  /** strconv.FormatBool */
  function FormatBool(b: bool): Bytes {
    if b then TRUE_LIT else FALSE_LIT
  }

  /** strconv.ParseUint(s, 10, bits): no sign, at least one digit, every byte
      a digit, value below 2^bits. None stands for the returned error. */
  function ParseUint(s: Bytes, bits: nat): (r: Option<nat>)
    ensures r.Some? ==> InUnsigned(r.value, bits)
    ensures r.Some? <==> (|s| > 0 && AllDigits(s) && DigitsValue(s) < Pow2(bits))
  {
    if |s| > 0 && AllDigits(s) && DigitsValue(s) < Pow2(bits) then Some(DigitsValue(s)) else None
  }

  /** strconv.ParseInt(s, 10, bits): an optional '+' or '-', then what
      ParseUint accepts, and the signed value within the signed range. */
  function ParseInt(s: Bytes, bits: nat): (r: Option<int>)
    requires bits >= 1
    ensures r.Some? ==> InSigned(r.value, bits)
  {
    if |s| == 0 then None
    else
      var neg := s[0] == MINUS;
      var body := if s[0] == MINUS || s[0] == PLUS then s[1..] else s;
      if |body| == 0 || !AllDigits(body) then None
      else
        var u: int := DigitsValue(body);
        if !neg && u >= Pow2(bits - 1) then None
        else if neg && u > Pow2(bits - 1) then None
        else Some(if neg then -u else u)
  }

  lemma {:induction false} DigitsRoundTrip(n: nat)
    ensures DigitsValue(Digits(n)) == n
  {
    if n >= 10 {
      var d := Digits(n / 10) + [(0x30 + n % 10) as byte];
      assert d[..|d| - 1] == Digits(n / 10);
      DigitsRoundTrip(n / 10);
    }
  }

  /** Reading back the writer's text of a signed integer gives the integer
      back exactly when it fits the width read; otherwise the read fails. */
  lemma FormatIntRoundTrip(v: int, bits: nat)
    requires bits >= 1
    ensures ParseInt(FormatInt(v), bits) == (if InSigned(v, bits) then Some(v) else None)
  {
    if v < 0 {
      assert FormatInt(v)[1..] == Digits(-v);
      DigitsRoundTrip(-v);
    } else {
      DigitsRoundTrip(v);
    }
  }

  lemma FormatUintRoundTrip(v: nat, bits: nat)
    ensures ParseUint(FormatUint(v), bits) == (if InUnsigned(v, bits) then Some(v) else None)
  {
    DigitsRoundTrip(v);
  }

  /** The integer writers only ever emit '-' and digits. */
  lemma FormatIntBytes(v: int)
    ensures |FormatInt(v)| >= 1
    ensures forall i :: 0 <= i < |FormatInt(v)| ==> IsDigit(FormatInt(v)[i]) || FormatInt(v)[i] == MINUS
  {
  }
}
