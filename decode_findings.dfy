/** Two places where the generated FastUnmarshal does not read back what
    FastMarshal writes, shown on one-field messages: a singular enum
    decoded through Set keeps its old value, and a []byte field gets the
    base64 text instead of the bytes. */
module DecodeFindings {
  import opened Bytes
  import opened Options
  import opened Schema
  import opened GenRules
  import opened GenCode
  import opened ParserSpec
  import opened Runtime
  import opened UnmarshalRun
  import opened ParserProps
  import Base64

  const RED: Bytes := [0x52, 0x45, 0x44]
  const GREEN: Bytes := [0x47, 0x52, 0x45, 0x45, 0x4E]

  /** enum Color { RED = 0; GREEN = 1; } */
  const COLOR: EnumType := EnumType("Color", "Color", map[0 := RED, 1 := GREEN], map[RED := 0, GREEN := 1])

  /** message M { Color e = 1; } as FastUnmarshal sees it. */
  function EnumEnv(): Env {
    Env(map[], map["M" := [TypeCase([0x65], "E", Some(ReadEnum), "Color")]], map[], map[], {}, {}, {"Color"},
        map["Color" := COLOR])
  }

  /** {"e":1} */
  const ENUM_INPUT: Bytes := [LBRACE, QUOTE, 0x65, QUOTE, COLON, 0x31, RBRACE]

  /** The state after the value 1 has been read. */
  function AfterEnum(): PState {
    PState(ENUM_INPUT, 6, Token(TokUnknown, false, [0x31], LBRACE), NONE)
  }

  /** Reading `{"e":` leaves the parser at the value with ':' pending. */
  lemma EnumKeyRead(b: Build, fuel: nat)
    requires fuel >= 2
    ensures Unmarshal(EnumEnv(), b, "M", Some(EMPTY), Init(ENUM_INPUT), fuel)
         == Members(EnumEnv(), b, EnumEnv().unmarshals["M"], EMPTY,
                    PState(ENUM_INPUT, 1, Token(TokUnknown, false, [], LBRACE), NONE), fuel)
    ensures Str(PState(ENUM_INPUT, 1, Token(TokUnknown, false, [], LBRACE), NONE))
         == Ok(PState(ENUM_INPUT, 4, Token(TokUnknown, false, [0x65], LBRACE), NONE), [0x65])
  {
    var d := ENUM_INPUT;
    var s0 := Init(d);
    assert Scan(s0) == Ok(PState(d, 1, Token(TokSymbol, false, [], LBRACE), NONE), ());
    var s1 := PState(d, 1, Token(TokUnknown, false, [], LBRACE), NONE);
    assert StringEnd(d, 2) == 3;
    assert Scan(s1) == Ok(PState(d, 4, Token(TokString, false, [0x65], LBRACE), NONE), ());
  }

  /** The value and the closing brace. */
  lemma EnumValueRead(st: PState)
    requires st == PState(ENUM_INPUT, 4, Token(TokUnknown, false, [0x65], LBRACE), COLON)
    ensures Enum(st) == Ok(AfterEnum(), EnumValue(ENUM_NUMBER, [], 1))
    ensures Symbol(AssertSymbol(AfterEnum(), COMMA), RBRACE).Ok?
  {
    var d := ENUM_INPUT;
    assert NumberEnd(d, 6) == 6;
    assert NumberEnd(d, 5) == 6;
    var sn := PState(d, 6, Token(TokNumber, false, [0x31], LBRACE), NONE);
    assert Scan(st.(tok := st.tok.(kind := TokUnknown), pending := NONE, off := 5)) == Ok(sn, ());
    assert Scan(st) == Ok(sn, ());
    assert [0x31 as byte][1..] == [];
    assert Decimal.DigitsValue([0x31]) == 1;
    assert Int(sn, 32) == Ok(AfterEnum(), 1);
    var se := AssertSymbol(AfterEnum(), COMMA);
    assert Scan(se) == Ok(se.(pending := NONE, tok := se.tok.(kind := TokSymbol, symbol := RBRACE), off := 7), ());
  }

  /** The message decoding {"e":1} gives. */
  function EnumDecoded(b: Build): Msg {
    if b == AsWritten then EMPTY else Msg(map["E" := One(VEnum(1))], map[])
  }

  lemma EnumDecode(b: Build, fuel: nat)
    requires fuel >= 2
    ensures Unmarshal(EnumEnv(), b, "M", Some(EMPTY), Init(ENUM_INPUT), fuel).Ran?
    ensures Unmarshal(EnumEnv(), b, "M", Some(EMPTY), Init(ENUM_INPUT), fuel).out.Ok?
    ensures Unmarshal(EnumEnv(), b, "M", Some(EMPTY), Init(ENUM_INPUT), fuel).out.value == EnumDecoded(b)
  {
    var env := EnumEnv();
    var cases := env.unmarshals["M"];
    EnumKeyRead(b, fuel);
    var s1 := PState(ENUM_INPUT, 1, Token(TokUnknown, false, [], LBRACE), NONE);
    assert IsSymbol(s1, RBRACE) == Ok(s1, false);
    var st := PState(ENUM_INPUT, 4, Token(TokUnknown, false, [0x65], LBRACE), COLON);
    EnumValueRead(st);
    assert CaseFor(cases, [0x65]) == Some(cases[0]);
    assert EnumLookup(COLOR, EnumValue(ENUM_NUMBER, [], 1)) == Some(1);
    assert ReadValue(env, b, ReadEnum, "Color", st, fuel - 1, false) == Ran(Ok(AfterEnum(), SetStores(b, 1)));
    var x := EnumDecoded(b);
    assert Dispatch(env, b, cases, [0x65], EMPTY, st, fuel - 1) == Ran(Ok(AfterEnum(), x));
    var s3 := AssertSymbol(AfterEnum(), COMMA);
    assert IsSymbol(s3, RBRACE) == Ok(s3, true);
    assert Members(env, b, cases, x, s3, fuel - 1).Ran?;
  }

  /** As generated: `{"e":1}` is accepted and e is left at its zero value. */
  lemma EnumDroppedOnDecode(fuel: nat)
    requires fuel >= 2
    ensures Unmarshal(EnumEnv(), AsWritten, "M", Some(EMPTY), Init(ENUM_INPUT), fuel).Ran?
    ensures Unmarshal(EnumEnv(), AsWritten, "M", Some(EMPTY), Init(ENUM_INPUT), fuel).out.Ok?
    ensures Unmarshal(EnumEnv(), AsWritten, "M", Some(EMPTY), Init(ENUM_INPUT), fuel).out.value == EMPTY
  {
    EnumDecode(AsWritten, fuel);
  }

  /** Corrected: the same input stores GREEN's number 1 in e. */
  lemma EnumKeptOnDecode(fuel: nat)
    requires fuel >= 2
    ensures Unmarshal(EnumEnv(), Corrected, "M", Some(EMPTY), Init(ENUM_INPUT), fuel).Ran?
    ensures Unmarshal(EnumEnv(), Corrected, "M", Some(EMPTY), Init(ENUM_INPUT), fuel).out.Ok?
    ensures Unmarshal(EnumEnv(), Corrected, "M", Some(EMPTY), Init(ENUM_INPUT), fuel).out.value
         == Msg(map["E" := One(VEnum(1))], map[])
  {
    EnumDecode(Corrected, fuel);
  }

  /** Base64 text needs no escaping inside a JSON string. */
  lemma {:induction false} Base64Body(e: Bytes)
    requires forall i :: 0 <= i < |e| ==> Base64.IsAlphabet(e[i]) || e[i] == Base64.PAD
    ensures StringBody(e)
    decreases |e|
  {
    if e != [] {
      Base64Body(e[1..]);
    }
  }

  /** Str at a string WriteBytes wrote for d gives the base64 text. */
  lemma WrittenBytesStr(st: PState, d: Bytes) returns (s2: PState)
    requires st.tok.kind == TokUnknown && st.pending == NONE
    requires At(st, [QUOTE] + Base64.Encode(d) + [QUOTE])
    ensures Str(st) == Ok(s2, Base64.Encode(d))
    ensures s2.data == st.data && s2.off == st.off + |Base64.Encode(d)| + 2
    ensures s2.tok.kind == TokUnknown && s2.pending == NONE
  {
    Base64.EncodeAlphabet(d);
    Base64Body(Base64.Encode(d));
    QuotedStr(st, Base64.Encode(d));
    s2 := Str(st).st;
  }

  /** What the field gets from the text Marshal wrote for d: the text itself
      as written, d once the text is decoded. */
  lemma WrittenBytesValue(b: Build, d: Bytes)
    ensures BytesValue(b, Base64.Encode(d)) == Some(VBytes(Some(if b == AsWritten then Base64.Encode(d) else d)))
  {
    Base64.EncodeRoundTrip(d);
  }

  /** valUnmarshal reading the string WriteBytes wrote for a []byte field:
      as generated the field gets the base64 text, once corrected the
      bytes written. */
  lemma WrittenBytesRead(env: Env, b: Build, typ: string, st: PState, d: Bytes, fuel: nat, viaGet: bool)
    returns (s2: PState)
    requires st.tok.kind == TokUnknown && st.pending == NONE
    requires At(st, [QUOTE] + Base64.Encode(d) + [QUOTE])
    ensures ReadValue(env, b, ReadBytes, typ, st, fuel, viaGet)
         == Ran(Ok(s2, Some(VBytes(Some(if b == AsWritten then Base64.Encode(d) else d)))))
    ensures s2.data == st.data && s2.off == st.off + |Base64.Encode(d)| + 2 && s2.tok.kind == TokUnknown && s2.pending == NONE
  {
    s2 := WrittenBytesStr(st, d);
    WrittenBytesValue(b, d);
  }

  /** As generated, no non-empty []byte survives the trip: the field gets
      text four bytes for every three, never the bytes written. */
  lemma BytesChangedOnDecode(d: Bytes)
    requires d != []
    ensures Base64.Encode(d) != d
  {
    var n := |d|;
    var q := (n + 2) / 3;
    assert 3 * q <= n + 2 < 3 * q + 3;
    assert |Base64.Encode(d)| == 4 * q > n;
  }

  /** The byte string "a" is written as "YQ==" and read back as YQ==. */
  lemma BytesExample()
    ensures Base64.Encode([0x61]) == [0x59, 0x51, Base64.PAD, Base64.PAD]
  {
  }
}
