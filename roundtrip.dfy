/** The round trip of a flat message: the text a generated FastMarshal
    writes for a message whose fields are singular booleans, integers,
    strings, []byte or enums is read back by the generated FastUnmarshal
    (with the two decoding faults corrected) into a zero message as the
    same fields. A field holding its zero value is not written and so
    stays unset, and a string comes back as the escaped text the writer
    produced for it, which the JSON reading of that text turns back into
    the string. */
module RoundTrip {
  import opened Bytes
  import opened Options
  import opened Decimal
  import opened JsonEscape
  import opened Utf8
  import Base64
  import opened OutputBuffer
  import opened Schema
  import opened GenRules
  import opened GenCode
  import opened ParserSpec
  import opened ParserProps
  import opened Runtime
  import opened MarshalRun
  import opened UnmarshalRun
  import DecodeFindings

  // ---------------------------------------------------------------
  // The escaper's output is a string body
  // ---------------------------------------------------------------

  lemma {:induction false} BodyConcat(a: Bytes, b: Bytes)
    requires StringBody(a) && StringBody(b)
    ensures StringBody(a + b)
    decreases |a|
  {
    if a == [] {
      assert a + b == b;
    } else if a[0] == BACKSLASH {
      BodyConcat(a[2..], b);
      assert (a + b)[2..] == a[2..] + b;
      assert (a + b)[0] == BACKSLASH && |a + b| >= 2;
    } else {
      BodyConcat(a[1..], b);
      assert (a + b)[1..] == a[1..] + b;
      assert (a + b)[0] == a[0];
    }
  }

  /** A '\' and five bytes that are neither '"' nor '\'. */
  lemma SixBody(t: Bytes)
    requires |t| == 6 && t[0] == BACKSLASH
    requires forall i :: 1 <= i < 6 ==> t[i] != QUOTE && t[i] != BACKSLASH
    ensures StringBody(t)
  {
    assert t[2..][1..][1..][1..][1..] == [];
    assert StringBody(t[2..][1..][1..][1..]);
    assert StringBody(t[2..][1..][1..]);
    assert StringBody(t[2..][1..]);
    assert StringBody(t[2..]);
  }

  /** What the escaper writes for one unit ends no string and leaves no
      '\' unpaired. */
  lemma UnitBody(s: Bytes)
    requires |s| >= 1
    ensures StringBody(UnitOut(s))
  {
    if s[0] < 0x80 {
      if !Safe(s[0]) {
        var c := s[0];
        if !(c == BACKSLASH || c == QUOTE || c == LF || c == CR || c == TAB) {
          SixBody(AsciiEscape(c));
        } else {
          assert StringBody(AsciiEscape(c)[2..]);
        }
      } else {
        assert StringBody(UnitOut(s)[1..]);
      }
    } else {
      var (r, size) := DecodeRune(s);
      if r == RUNE_ERROR && size == 1 {
        SixBody(REPLACEMENT);
      } else if r == 0x2028 || r == 0x2029 {
        SixBody(LineSepEscape(r));
      } else {
        HighBody(s[..size]);
      }
    }
  }

  /** Bytes at or above 0x80 are neither '"' nor '\'. */
  lemma {:induction false} HighBody(t: Bytes)
    requires forall i :: 0 <= i < |t| ==> t[i] >= 0x80
    ensures StringBody(t)
    decreases |t|
  {
    if t != [] {
      HighBody(t[1..]);
    }
  }

  /** Whatever the string, the escaper's text fits between two quotes. */
  lemma {:induction false} EscapedBody(s: Bytes)
    ensures StringBody(Escape(s))
    decreases |s|
  {
    if s != [] {
      UnitBody(s);
      EscapedBody(s[UnitSize(s)..]);
      BodyConcat(UnitOut(s), Escape(s[UnitSize(s)..]));
    }
  }

  // ---------------------------------------------------------------
  // One value
  // ---------------------------------------------------------------

  /** The parser's state holds no token, expects sep (NONE: nothing) and
      stands at off of d. */
  predicate Fresh(st: PState, d: Bytes, off: nat, sep: byte) {
    st.data == d && st.off == off && st.tok.kind == TokUnknown && st.pending == sep
  }

  /** A number token: '-' or a digit, then bytes getNumber takes, then a
      byte it stops at. */
  lemma NumberToken(sv: PState, num: Bytes, c: byte)
    requires sv.tok.kind == TokUnknown && sv.pending == NONE
    requires At(sv, num + [c]) && |num| >= 1 && (IsDigit(num[0]) || num[0] == MINUS)
    requires forall k :: 0 <= k < |num| ==> IsNumberChar(num[k])
    requires !IsNumberChar(c)
    ensures Scan(sv) == Ok(sv.(tok := sv.tok.(kind := TokNumber, raw := num), off := sv.off + |num|), ())
  {
    var rest := NumberBytes(sv, num, c);
    NumberSpan(sv.(tok := sv.tok.(kind := TokNumber)), num, rest);
  }

  /** The bytes at a number followed by c: the number, then the rest of
      the text, which starts with c. */
  lemma NumberBytes(sv: PState, num: Bytes, c: byte) returns (rest: Bytes)
    requires At(sv, num + [c]) && |num| >= 1
    ensures sv.off < |sv.data| && sv.data[sv.off] == num[0]
    ensures sv.data[sv.off..] == num + rest && |rest| >= 1 && rest[0] == c
  {
    AtSplit(sv, num, [c]);
    HoldsSlice(sv.data, sv.off, num);
    HoldsSlice(sv.data, sv.off + |num|, [c]);
    var d := sv.data;
    assert d[sv.off] == d[sv.off..sv.off + |num|][0];
    rest := d[sv.off + |num|..];
    assert rest[0] == d[sv.off + |num|..sv.off + |num| + 1][0];
    assert d[sv.off..] == d[sv.off..sv.off + |num|] + rest;
  }

  lemma IntRead(sv: PState, i: int, bits: nat, c: byte)
    requires bits >= 1 && InSigned(i, bits)
    requires sv.tok.kind == TokUnknown && sv.pending == NONE
    requires At(sv, FormatInt(i) + [c]) && (c == COMMA || c == RBRACE)
    ensures Int(sv, bits).Ok? && Int(sv, bits).value == i
    ensures Fresh(Int(sv, bits).st, sv.data, sv.off + |FormatInt(i)|, NONE)
  {
    FormatIntBytes(i);
    NumberToken(sv, FormatInt(i), c);
    FormatIntRoundTrip(i, bits);
  }

  lemma UintRead(sv: PState, u: nat, bits: nat, c: byte)
    requires InUnsigned(u, bits)
    requires sv.tok.kind == TokUnknown && sv.pending == NONE
    requires At(sv, FormatUint(u) + [c]) && (c == COMMA || c == RBRACE)
    ensures Uint(sv, bits).Ok? && Uint(sv, bits).value == u
    ensures Fresh(Uint(sv, bits).st, sv.data, sv.off + |FormatUint(u)|, NONE)
  {
    NumberToken(sv, FormatUint(u), c);
    FormatUintRoundTrip(u, bits);
  }

  lemma BoolRead(sv: PState, b: bool, c: byte)
    requires sv.tok.kind == TokUnknown && sv.pending == NONE
    requires At(sv, FormatBool(b) + [c])
    ensures Bol(sv).Ok? && Bol(sv).value == b
    ensures Fresh(Bol(sv).st, sv.data, sv.off + |FormatBool(b)|, NONE)
  {
    var t := FormatBool(b);
    AtSplit(sv, t, [c]);
    assert sv.data[sv.off] == sv.data[sv.off..sv.off + |t|][0];
    var sb := sv.(tok := sv.tok.(kind := TokBool));
    if b {
      TrueLiteral(sb);
      assert Scan(sv) == GetTrue(sb);
    } else {
      FalseLiteral(sb);
      assert Scan(sv) == GetFalse(sb);
    }
  }

  /** On a string token Enum() is Str(), its text taken as a name. */
  lemma EnumOfString(st: PState)
    requires Fetch(st).Ok? && Fetch(st).st.tok.kind == TokString
    ensures Str(st).Ok? && Enum(st) == Ok(Str(st).st, EnumValue(ENUM_STRING, Str(st).value, 0))
  {
    var s := Fetch(st).st;
    assert Fetch(s) == Ok(s, ());
    assert Str(s) == Str(st);
  }

  /** A quoted name read by Enum(): the name as a string-form value. */
  lemma EnumNameRead(sv: PState, name: Bytes)
    requires sv.tok.kind == TokUnknown && sv.pending == NONE
    requires At(sv, [QUOTE] + name + [QUOTE]) && StringBody(name)
    ensures Enum(sv).Ok? && Enum(sv).value == EnumValue(ENUM_STRING, name, 0)
    ensures Fresh(Enum(sv).st, sv.data, sv.off + |name| + 2, NONE)
  {
    QuotedStr(sv, name);
    StrRule(sv);
    EnumOfString(sv);
  }

  /** The writers whose text the parser reads back as one token holding
      the same value. */
  predicate Covered(w: Writer) {
    w == WriteBool || w == WriteInt32 || w == WriteInt64 || w == WriteUint32 || w == WriteUint64
    || w == WriteQuoted || w == WriteBase64 || w == WriteEnumName
  }

  /** What a covered writer writes for a value it accepts: WriteVal
      restricted to the writers of one token. */
  function Written(env: Env, w: Writer, ref: TypeRef, v: Val): Option<Bytes> {
    match (w, v)
    case (WriteBool, VBool(b)) => Some(FormatBool(b))
    case (WriteEnumName, VEnum(n)) =>
      if ref.goName in env.enums then Some(Quoted(EnumString(env.enums[ref.goName], n))) else None
    case (WriteInt32, VInt(i)) => if InSigned(i, 32) then Some(FormatInt(i)) else None
    case (WriteInt64, VInt(i)) => if InSigned(i, 64) then Some(FormatInt(i)) else None
    case (WriteUint32, VUint(u)) => if InUnsigned(u, 32) then Some(FormatUint(u)) else None
    case (WriteUint64, VUint(u)) => if InUnsigned(u, 64) then Some(FormatUint(u)) else None
    case (WriteQuoted, VStr(s)) => Some(Quoted(s))
    case (WriteBase64, VBytes(d)) => Some([QUOTE] + Base64.Encode(if d.Some? then d.value else []) + [QUOTE])
    case _ => None
  }

  /** Written is what WriteVal writes for the covered writers, and only
      they write something there. */
  lemma WrittenAgrees(env: Env, w: Writer, ref: TypeRef, v: Val)
    ensures Written(env, w, ref, v).Some? ==> Covered(w) && WriteVal(env, w, ref, v) == Wrote(Written(env, w, ref, v).value)
    ensures Covered(w) && WriteVal(env, w, ref, v).Wrote? ==> Written(env, w, ref, v).Some?
  {
  }

  predicate SafeText(t: Bytes) {
    forall i :: 0 <= i < |t| ==> Safe(t[i])
  }

  /** The tables protoc-gen-go emits for an enum agree: every name is an
      identifier the value table maps back to its number. */
  predicate TablesAgree(e: EnumType) {
    forall n :: n in e.names ==> SafeText(e.names[n]) && e.names[n] in e.values && e.values[e.names[n]] == n
  }

  /** A value w writes (of w's type and width) and reads back: an enum's
      number has a name, and the enum has its Set methods. */
  predicate Readable(env: Env, w: Writer, ref: TypeRef, v: Val) {
    Written(env, w, ref, v).Some? &&
    (w == WriteEnumName ==>
      v.VEnum? && ref.goName in env.enums && ref.goName in env.setters &&
      TablesAgree(env.enums[ref.goName]) && v.n in env.enums[ref.goName].names)
  }

  /** What reading back a written value gives: a string is left as the
      escaped text, a nil []byte comes back empty. */
  function ReadBack(v: Val): Val {
    match v
    case VStr(s) => VStr(Escape(s))
    case VBytes(d) => VBytes(Some(if d.Some? then d.value else []))
    case _ => v
  }

  /** The text one writer wrote, followed by ',' or '}', is read by the
      matching reader as the value, leaving the parser just past it. */
  lemma ValueRead(env: Env, w: Writer, ref: TypeRef, typ: string, v: Val, sv: PState, c: byte, fuel: nat)
    requires Readable(env, w, ref, v) && (w == WriteEnumName ==> typ == ref.goName)
    requires sv.tok.kind == TokUnknown && sv.pending == NONE
    requires At(sv, Written(env, w, ref, v).value + [c]) && (c == COMMA || c == RBRACE)
    ensures var r := ReadValue(env, Corrected, ReaderFor(w), typ, sv, fuel, false);
      r.Ran? && r.out.Ok? && r.out.value == Some(ReadBack(v)) &&
      Fresh(r.out.st, sv.data, sv.off + |Written(env, w, ref, v).value|, NONE)
  {
    match v
    case VBool(b) =>
      BoolValueRead(env, typ, sv, b, c, fuel);
    case VInt(i) =>
      IntValueRead(env, w, typ, sv, i, c, fuel);
    case VUint(u) =>
      UintValueRead(env, w, typ, sv, u, c, fuel);
    case VStr(str) =>
      StrValueRead(env, typ, sv, str, c, fuel);
    case VBytes(d) =>
      var t := [QUOTE] + Base64.Encode(if d.Some? then d.value else []) + [QUOTE];
      AtSplit(sv, t, [c]);
      var _ := DecodeFindings.WrittenBytesRead(env, Corrected, typ, sv, if d.Some? then d.value else [], fuel, false);
    case VEnum(n) =>
      EnumValueRead(env, ref, sv, n, c, fuel);
  }

  lemma BoolValueRead(env: Env, typ: string, sv: PState, b: bool, c: byte, fuel: nat)
    requires sv.tok.kind == TokUnknown && sv.pending == NONE
    requires At(sv, FormatBool(b) + [c])
    ensures var r := ReadValue(env, Corrected, ReadBool, typ, sv, fuel, false);
      r.Ran? && r.out.Ok? && r.out.value == Some(VBool(b)) && Fresh(r.out.st, sv.data, sv.off + |FormatBool(b)|, NONE)
  {
    BoolRead(sv, b, c);
  }

  lemma IntValueRead(env: Env, w: Writer, typ: string, sv: PState, i: int, c: byte, fuel: nat)
    requires w == WriteInt32 || w == WriteInt64
    requires InSigned(i, if w == WriteInt32 then 32 else 64)
    requires sv.tok.kind == TokUnknown && sv.pending == NONE
    requires At(sv, FormatInt(i) + [c]) && (c == COMMA || c == RBRACE)
    ensures var r := ReadValue(env, Corrected, ReaderFor(w), typ, sv, fuel, false);
      r.Ran? && r.out.Ok? && r.out.value == Some(VInt(i)) && Fresh(r.out.st, sv.data, sv.off + |FormatInt(i)|, NONE)
  {
    IntRead(sv, i, if w == WriteInt32 then 32 else 64, c);
  }

  lemma UintValueRead(env: Env, w: Writer, typ: string, sv: PState, u: nat, c: byte, fuel: nat)
    requires w == WriteUint32 || w == WriteUint64
    requires InUnsigned(u, if w == WriteUint32 then 32 else 64)
    requires sv.tok.kind == TokUnknown && sv.pending == NONE
    requires At(sv, FormatUint(u) + [c]) && (c == COMMA || c == RBRACE)
    ensures var r := ReadValue(env, Corrected, ReaderFor(w), typ, sv, fuel, false);
      r.Ran? && r.out.Ok? && r.out.value == Some(VUint(u)) && Fresh(r.out.st, sv.data, sv.off + |FormatUint(u)|, NONE)
  {
    UintRead(sv, u, if w == WriteUint32 then 32 else 64, c);
  }

  lemma StrValueRead(env: Env, typ: string, sv: PState, str: Bytes, c: byte, fuel: nat)
    requires sv.tok.kind == TokUnknown && sv.pending == NONE
    requires At(sv, Quoted(str) + [c])
    ensures var r := ReadValue(env, Corrected, ReadStr, typ, sv, fuel, false);
      r.Ran? && r.out.Ok? && r.out.value == Some(VStr(Escape(str))) &&
      Fresh(r.out.st, sv.data, sv.off + |Quoted(str)|, NONE)
  {
    AtSplit(sv, Quoted(str), [c]);
    EscapedBody(str);
    QuotedStr(sv, Escape(str));
  }

  lemma EnumValueRead(env: Env, ref: TypeRef, sv: PState, n: int, c: byte, fuel: nat)
    requires ref.goName in env.enums && ref.goName in env.setters
    requires TablesAgree(env.enums[ref.goName]) && n in env.enums[ref.goName].names
    requires sv.tok.kind == TokUnknown && sv.pending == NONE
    requires At(sv, Quoted(EnumString(env.enums[ref.goName], n)) + [c])
    ensures var r := ReadValue(env, Corrected, ReadEnum, ref.goName, sv, fuel, false);
      r.Ran? && r.out.Ok? && r.out.value == Some(VEnum(n)) &&
      Fresh(r.out.st, sv.data, sv.off + |Quoted(EnumString(env.enums[ref.goName], n))|, NONE)
  {
    var e := env.enums[ref.goName];
    var name := e.names[n];
    AtSplit(sv, Quoted(name), [c]);
    EscapePassThrough(name);
    EscapedBody(name);
    EnumNameRead(sv, name);
    assert EnumLookup(e, EnumValue(ENUM_STRING, name, 0)) == Some(n);
  }

  // ---------------------------------------------------------------
  // One member
  // ---------------------------------------------------------------

  /** A field the marshaller writes: its JSON name, Go name, writer, the
      enum type of its values, its value, and the text written for it. */
  datatype Item = Item(json: Bytes, goName: string, w: Writer, ref: TypeRef, v: Val, text: Bytes)

  /** What a block writes for the item, without the ',' after it. */
  function MemberText(it: Item): Bytes {
    Key(it.json) + it.text
  }

  /** The unmarshaller's case for a JSON name reads the field back: it is
      the plain case of the same Go field with the reader of the writer. */
  predicate ReadsBack(c: UnmarshalCase, it: Item) {
    c.TypeCase? && c.goName == it.goName && c.r == Some(ReaderFor(it.w)) &&
    (it.w == WriteEnumName ==> c.typ == it.ref.goName)
  }

  /** An item the reading side takes back: a name of safe bytes, a
      readable value, and a case for the name that reads it back. */
  predicate ItemOK(env: Env, cases: seq<UnmarshalCase>, it: Item) {
    SafeText(it.json) && Readable(env, it.w, it.ref, it.v) && Written(env, it.w, it.ref, it.v) == Some(it.text) &&
    CaseFor(cases, it.json).Some? && ReadsBack(CaseFor(cases, it.json).value, it)
  }

  /** The field as FastUnmarshal stores it. */
  function Store(x: Msg, it: Item): Msg {
    x.(fields := x.fields[it.goName := One(ReadBack(it.v))])
  }

  /** Escape leaves a safe name alone, so the key is `"name":`. */
  lemma KeyText(json: Bytes)
    requires SafeText(json)
    ensures Key(json) == [QUOTE] + json + [QUOTE] + [COLON]
    ensures StringBody(json)
  {
    EscapePassThrough(json);
    SymbolsAsThemselves();
    EscapedBody(json);
  }

  /** The value of a member starts after its ':': with ':' pending the
      readers see the same token as with nothing pending one byte on. */
  lemma ColonSkip(env: Env, r: Reader, typ: string, sc: PState, fuel: nat)
    requires r != ReadNested
    requires sc.tok.kind == TokUnknown && sc.pending == COLON
    requires sc.off < |sc.data| && sc.data[sc.off] == COLON
    ensures ReadValue(env, Corrected, r, typ, sc, fuel, false)
         == ReadValue(env, Corrected, r, typ, sc.(pending := NONE, off := sc.off + 1), fuel, false)
  {
    var sv := sc.(pending := NONE, off := sc.off + 1);
    SeparatorRule(sc);
    assert sc.(tok := sc.tok.(kind := TokUnknown), pending := NONE, off := sc.off + 1) == sv;
    assert Fetch(sc) == Fetch(sv);
    SameToken(env, r, typ, sc, sv, fuel);
  }

  /** The readers other than the nested one see only the token Fetch gives. */
  lemma SameToken(env: Env, r: Reader, typ: string, a: PState, b: PState, fuel: nat)
    requires r != ReadNested && Fetch(a) == Fetch(b)
    ensures ReadValue(env, Corrected, r, typ, a, fuel, false) == ReadValue(env, Corrected, r, typ, b, fuel, false)
  {
    match r
    case ReadBool => assert Bol(a) == Bol(b);
    case ReadInt32 => assert Int(a, 32) == Int(b, 32);
    case ReadInt64 => assert Int(a, 64) == Int(b, 64);
    case ReadUint32 => assert Uint(a, 32) == Uint(b, 32);
    case ReadUint64 => assert Uint(a, 64) == Uint(b, 64);
    case ReadFloat32 => assert Number(a) == Number(b);
    case ReadFloat64 => assert Number(a) == Number(b);
    case ReadStr => assert Str(a) == Str(b);
    case ReadBytes => assert Str(a) == Str(b);
    case ReadEnum => assert Enum(a) == Enum(b);
  }

  /** The key: Str reads the name, and ':' follows it. */
  lemma KeyRead(st: PState, json: Bytes, rest: Bytes)
    requires SafeText(json)
    requires st.tok.kind == TokUnknown && st.pending == NONE
    requires At(st, Key(json) + rest)
    ensures IsSymbol(st, RBRACE) == Ok(st, false)
    ensures Str(st).Ok? && Str(st).value == json
    ensures Fresh(Str(st).st, st.data, st.off + |json| + 2, NONE)
    ensures At(Str(st).st, [COLON] + rest)
  {
    KeyText(json);
    var q := [QUOTE] + json + [QUOTE];
    assert Key(json) + rest == q + ([COLON] + rest);
    AtSplit(st, q, [COLON] + rest);
    QuotedBody(st, json);
    QuotedStr(st, json);
  }

  /** What the loop finds before a member: nothing after '{', a ',' after
      an earlier member. */
  function Lead(p: byte): Bytes {
    if p == COMMA then [COMMA] else []
  }

  /** A key after a pending ',' is read as if the ',' were not there. */
  lemma KeyAt(st: PState, json: Bytes, rest: Bytes)
    requires SafeText(json)
    requires st.tok.kind == TokUnknown && (st.pending == NONE || st.pending == COMMA)
    requires At(st, Lead(st.pending) + (Key(json) + rest))
    ensures IsSymbol(st, RBRACE) == Ok(st, false)
    ensures Str(st).Ok? && Str(st).value == json
    ensures Fresh(Str(st).st, st.data, st.off + |Lead(st.pending)| + |json| + 2, NONE)
    ensures At(Str(st).st, [COLON] + rest)
  {
    if st.pending == NONE {
      assert Lead(st.pending) + (Key(json) + rest) == Key(json) + rest;
      KeyRead(st, json, rest);
    } else {
      var sv := st.(pending := NONE, off := st.off + 1);
      AtSplit(st, [COMMA], Key(json) + rest);
      HoldsFirst(st.data, st.off, [COMMA]);
      SeparatorRule(st);
      assert st.(tok := st.tok.(kind := TokUnknown), pending := NONE, off := st.off + 1) == sv;
      assert Str(st) == Str(sv);
      KeyRead(sv, json, rest);
    }
  }

  /** After the key, the case for it reads the value that follows ':'
      and stores it; the parser stops just past the value. */
  lemma CaseRead(env: Env, cases: seq<UnmarshalCase>, it: Item, x: Msg, sc: PState, c: byte, fuel: nat)
    returns (s3: PState)
    requires ItemOK(env, cases, it)
    requires sc.tok.kind == TokUnknown && sc.pending == COLON
    requires At(sc, [COLON] + it.text + [c]) && (c == COMMA || c == RBRACE)
    ensures Dispatch(env, Corrected, cases, it.json, x, sc, fuel) == Ran(Ok(s3, Store(x, it)))
    ensures Fresh(s3, sc.data, sc.off + 1 + |it.text|, NONE)
  {
    var text := it.text;
    assert [COLON] + text + [c] == [COLON] + (text + [c]);
    AtSplit(sc, [COLON], text + [c]);
    assert sc.data[sc.off] == COLON;
    var ca := CaseFor(cases, it.json).value;
    ColonSkip(env, ca.r.value, ca.typ, sc, fuel);
    var sv := sc.(pending := NONE, off := sc.off + 1);
    ValueRead(env, it.w, it.ref, ca.typ, it.v, sv, c, fuel);
    s3 := ReadValue(env, Corrected, ReaderFor(it.w), ca.typ, sv, fuel, false).out.st;
  }

  /** The key of a member, after what the loop finds before it: the loop
      does not stop, the key is the member's name, and ':' then the value
      follow. */
  lemma MemberKey(it: Item, st: PState, c: byte) returns (s1: PState)
    requires SafeText(it.json)
    requires st.tok.kind == TokUnknown && (st.pending == NONE || st.pending == COMMA)
    requires At(st, Lead(st.pending) + MemberText(it) + [c])
    ensures IsSymbol(st, RBRACE) == Ok(st, false) && Str(st) == Ok(s1, it.json)
    ensures Fresh(s1, st.data, st.off + |Lead(st.pending)| + |it.json| + 2, NONE)
    ensures At(s1, [COLON] + it.text + [c]) && |MemberText(it)| == |it.json| + 3 + |it.text|
  {
    var text := it.text;
    KeyText(it.json);
    assert Lead(st.pending) + MemberText(it) + [c] == Lead(st.pending) + (Key(it.json) + (text + [c]));
    KeyAt(st, it.json, text + [c]);
    s1 := Str(st).st;
    assert [COLON] + (text + [c]) == [COLON] + text + [c];
  }

  /** Reading one member, `"name":value`, after what the loop finds
      before it, stores the field and leaves the parser just past it with
      ',' pending. */
  lemma MemberAt(env: Env, cases: seq<UnmarshalCase>, it: Item, x: Msg, st: PState, c: byte, fuel: nat)
    returns (s2: PState)
    requires ItemOK(env, cases, it) && fuel >= 1
    requires st.tok.kind == TokUnknown && (st.pending == NONE || st.pending == COMMA)
    requires At(st, Lead(st.pending) + MemberText(it) + [c]) && (c == COMMA || c == RBRACE)
    ensures Fresh(s2, st.data, st.off + |Lead(st.pending)| + |MemberText(it)|, COMMA)
    ensures Members(env, Corrected, cases, x, st, fuel) == Members(env, Corrected, cases, Store(x, it), s2, fuel - 1)
  {
    var s1 := MemberKey(it, st, c);
    var s3 := CaseRead(env, cases, it, x, AssertSymbol(s1, COLON), c, fuel - 1);
    s2 := AssertSymbol(s3, COMMA);
  }

  // ---------------------------------------------------------------
  // The members of an object
  // ---------------------------------------------------------------

  predicate AllOK(env: Env, cases: seq<UnmarshalCase>, items: seq<Item>)
    decreases |items|
  {
    items == [] || (ItemOK(env, cases, items[0]) && AllOK(env, cases, items[1..]))
  }

  /** The members separated by ','. */
  function Joined(items: seq<Item>): Bytes
    decreases |items|
  {
    if items == [] then []
    else if |items| == 1 then MemberText(items[0])
    else MemberText(items[0]) + [COMMA] + Joined(items[1..])
  }

  /** The members stored one after the other, as the loop reads them. */
  function Fold(x: Msg, items: seq<Item>): Msg
    decreases |items|
  {
    if items == [] then x else Fold(Store(x, items[0]), items[1..])
  }

  /** A '}' where a member could start ends the loop with x. */
  lemma CloseAt(env: Env, cases: seq<UnmarshalCase>, x: Msg, st: PState, fuel: nat) returns (fin: PState)
    requires fuel >= 1 && st.tok.kind == TokUnknown && At(st, [RBRACE])
    ensures Members(env, Corrected, cases, x, st, fuel) == Ran(Ok(fin, x)) && fin.off == st.off + 1
  {
    HoldsFirst(st.data, st.off, [RBRACE]);
    var s := AssertSymbol(st, COMMA);
    var t := s.(pending := NONE, tok := s.tok.(kind := TokSymbol, symbol := RBRACE), off := s.off + 1);
    assert Scan(s) == Ok(t, ());
    fin := Reset(t);
  }

  /** The bytes of the next member and what follows it. */
  lemma JoinedFront(items: seq<Item>, d: Bytes, off: nat, lead: Bytes)
    requires items != []
    requires Holds(d, off, lead + Joined(items) + [RBRACE])
    ensures var m := MemberText(items[0]);
      if |items| == 1 then Holds(d, off, lead + m + [RBRACE]) && Holds(d, off + |lead| + |m|, [RBRACE])
      else Holds(d, off, lead + m + [COMMA]) && Holds(d, off + |lead| + |m|, [COMMA] + Joined(items[1..]) + [RBRACE])
  {
    var m := MemberText(items[0]);
    if |items| == 1 {
      FrontBytes(d, off, lead, m, [], false);
    } else {
      FrontBytes(d, off, lead, m, Joined(items[1..]), true);
    }
  }

  lemma FrontBytes(d: Bytes, off: nat, lead: Bytes, m: Bytes, j: Bytes, more: bool)
    requires Holds(d, off, lead + (if more then m + [COMMA] + j else m) + [RBRACE])
    ensures more ==> Holds(d, off, lead + m + [COMMA]) && Holds(d, off + |lead| + |m|, [COMMA] + j + [RBRACE])
    ensures !more ==> Holds(d, off, lead + m + [RBRACE]) && Holds(d, off + |lead| + |m|, [RBRACE])
  {
    if more {
      assert lead + (m + [COMMA] + j) + [RBRACE] == (lead + m) + ([COMMA] + j + [RBRACE]);
      HoldsSplit(d, off, lead + m, [COMMA] + j + [RBRACE]);
      assert [COMMA] + j + [RBRACE] == [COMMA] + (j + [RBRACE]);
      HoldsSplit(d, off + |lead + m|, [COMMA], j + [RBRACE]);
      HoldsJoin(d, off, lead + m, [COMMA]);
    } else {
      HoldsSplit(d, off, lead + m, [RBRACE]);
    }
  }

  /** MemberAt for the first of the items. */
  lemma FrontMember(env: Env, cases: seq<UnmarshalCase>, items: seq<Item>, x: Msg, st: PState, c: byte, fuel: nat)
    returns (s2: PState)
    requires AllOK(env, cases, items) && items != [] && fuel >= 1
    requires st.tok.kind == TokUnknown && (st.pending == NONE || st.pending == COMMA)
    requires At(st, Lead(st.pending) + MemberText(items[0]) + [c]) && (c == COMMA || c == RBRACE)
    ensures Fresh(s2, st.data, st.off + |Lead(st.pending)| + |MemberText(items[0])|, COMMA)
    ensures Members(env, Corrected, cases, x, st, fuel) == Members(env, Corrected, cases, Store(x, items[0]), s2, fuel - 1)
  {
    s2 := MemberAt(env, cases, items[0], x, st, c, fuel);
  }

  /** What the loop over the members needs at st: every item readable,
      fuel for each member and the '}', a clean token, and the members'
      text then '}' ahead (after the pending ',', if any). */
  predicate Ready(env: Env, cases: seq<UnmarshalCase>, items: seq<Item>, st: PState, fuel: nat) {
    AllOK(env, cases, items) && fuel >= |items| + 1 && st.tok.kind == TokUnknown
    && (st.pending == NONE || (st.pending == COMMA && items != []))
    && At(st, Lead(st.pending) + Joined(items) + [RBRACE])
  }

  /** Where the parser stands once the '}' after the items is read. */
  function EndOff(st: PState, items: seq<Item>): int {
    st.off + |Lead(st.pending)| + |Joined(items)| + 1
  }

  /** The only member, then '}'. */
  lemma LastStep(env: Env, cases: seq<UnmarshalCase>, items: seq<Item>, x: Msg, st: PState, fuel: nat) returns (fin: PState)
    requires Ready(env, cases, items, st, fuel) && |items| == 1
    ensures Members(env, Corrected, cases, x, st, fuel) == Ran(Ok(fin, Fold(x, items))) && fin.off == EndOff(st, items)
  {
    LastBytes(env, cases, items, st, fuel);
    var s2 := FrontMember(env, cases, items, x, st, RBRACE, fuel);
    LastClose(env, cases, items, x, st, s2, fuel);
    fin := CloseAt(env, cases, Store(x, items[0]), s2, fuel - 1);
  }

  /** The bytes of the last member and the '}' after it. */
  lemma LastBytes(env: Env, cases: seq<UnmarshalCase>, items: seq<Item>, st: PState, fuel: nat)
    requires Ready(env, cases, items, st, fuel) && |items| == 1
    ensures At(st, Lead(st.pending) + MemberText(items[0]) + [RBRACE])
  {
    JoinedFront(items, st.data, st.off, Lead(st.pending));
  }

  /** Past the last member the '}' follows, and it ends the text. */
  lemma LastClose(env: Env, cases: seq<UnmarshalCase>, items: seq<Item>, x: Msg, st: PState, s2: PState, fuel: nat)
    requires Ready(env, cases, items, st, fuel) && |items| == 1
    requires Fresh(s2, st.data, st.off + |Lead(st.pending)| + |MemberText(items[0])|, COMMA)
    ensures fuel - 1 >= 1 && s2.tok.kind == TokUnknown && At(s2, [RBRACE])
    ensures Fold(x, items) == Store(x, items[0]) && s2.off + 1 == EndOff(st, items)
  {
    JoinedFront(items, st.data, st.off, Lead(st.pending));
    assert Joined(items) == MemberText(items[0]);
  }

  /** The bytes of the first of several members and the ',' after it. */
  lemma FirstBytes(env: Env, cases: seq<UnmarshalCase>, items: seq<Item>, st: PState, fuel: nat)
    requires Ready(env, cases, items, st, fuel) && |items| >= 2
    ensures At(st, Lead(st.pending) + MemberText(items[0]) + [COMMA])
  {
    JoinedFront(items, st.data, st.off, Lead(st.pending));
  }

  /** Past the first of several members, with ',' pending, the loop is
      ready for the rest and ends where it would have. */
  lemma RestReady(env: Env, cases: seq<UnmarshalCase>, items: seq<Item>, x: Msg, st: PState, s2: PState, fuel: nat)
    requires Ready(env, cases, items, st, fuel) && |items| >= 2
    requires Fresh(s2, st.data, st.off + |Lead(st.pending)| + |MemberText(items[0])|, COMMA)
    ensures Ready(env, cases, items[1..], s2, fuel - 1)
    ensures Fold(x, items) == Fold(Store(x, items[0]), items[1..]) && EndOff(s2, items[1..]) == EndOff(st, items)
  {
    JoinedFront(items, st.data, st.off, Lead(st.pending));
    assert Joined(items) == MemberText(items[0]) + [COMMA] + Joined(items[1..]);
  }

  /** The first of several members, up to the ',' after it. */
  lemma FirstStep(env: Env, cases: seq<UnmarshalCase>, items: seq<Item>, x: Msg, st: PState, fuel: nat)
    returns (s2: PState)
    requires Ready(env, cases, items, st, fuel) && |items| >= 2
    ensures Ready(env, cases, items[1..], s2, fuel - 1)
    ensures Fold(x, items) == Fold(Store(x, items[0]), items[1..]) && EndOff(s2, items[1..]) == EndOff(st, items)
    ensures Members(env, Corrected, cases, x, st, fuel) == Members(env, Corrected, cases, Store(x, items[0]), s2, fuel - 1)
  {
    FirstBytes(env, cases, items, st, fuel);
    s2 := FrontMember(env, cases, items, x, st, COMMA, fuel);
    RestReady(env, cases, items, x, st, s2, fuel);
  }

  /** No member left: the loop reads the '}' and stops. */
  lemma EmptyStep(env: Env, cases: seq<UnmarshalCase>, items: seq<Item>, x: Msg, st: PState, fuel: nat) returns (fin: PState)
    requires Ready(env, cases, items, st, fuel) && items == []
    ensures Members(env, Corrected, cases, x, st, fuel) == Ran(Ok(fin, Fold(x, items))) && fin.off == EndOff(st, items)
  {
    assert Lead(st.pending) + Joined(items) + [RBRACE] == [RBRACE];
    fin := CloseAt(env, cases, x, st, fuel);
  }

  /** The loop from st on is ready to read items, and it is what the loop
      call at x0, st0, fuel0 comes to; that call ends with v at offset e. */
  predicate Pending(env: Env, cases: seq<UnmarshalCase>, items: seq<Item>, x: Msg, st: PState, fuel: nat,
                    x0: Msg, st0: PState, fuel0: nat, v: Msg, e: int) {
    Ready(env, cases, items, st, fuel)
    && Members(env, Corrected, cases, x0, st0, fuel0) == Members(env, Corrected, cases, x, st, fuel)
    && v == Fold(x, items) && e == EndOff(st, items)
  }

  /** At most one member left: the loop call it continues (at x0, st0,
      fuel0) ends with v at offset e. */
  lemma EndFrom(env: Env, cases: seq<UnmarshalCase>, items: seq<Item>, x: Msg, st: PState, fuel: nat,
                x0: Msg, st0: PState, fuel0: nat, v: Msg, e: int)
    returns (fin: PState)
    requires Pending(env, cases, items, x, st, fuel, x0, st0, fuel0, v, e) && |items| <= 1
    ensures Members(env, Corrected, cases, x0, st0, fuel0) == Ran(Ok(fin, v)) && fin.off == e
  {
    if items == [] {
      fin := EmptyStep(env, cases, items, x, st, fuel);
    } else {
      fin := LastStep(env, cases, items, x, st, fuel);
    }
  }

  /** Several members left: past the first one the loop call it continues
      is the loop from the next member on. */
  lemma MoreFrom(env: Env, cases: seq<UnmarshalCase>, items: seq<Item>, x: Msg, st: PState, fuel: nat,
                 x0: Msg, st0: PState, fuel0: nat, v: Msg, e: int)
    returns (s2: PState)
    requires Pending(env, cases, items, x, st, fuel, x0, st0, fuel0, v, e) && |items| >= 2
    ensures Pending(env, cases, items[1..], Store(x, items[0]), s2, fuel - 1, x0, st0, fuel0, v, e)
  {
    s2 := FirstStep(env, cases, items, x, st, fuel);
  }

  /** The loop from st on, with the loop call it continues (at x0, st0,
      fuel0), the message v it ends with and the offset e it ends at. */
  lemma {:induction false} ReadFrom(env: Env, cases: seq<UnmarshalCase>, items: seq<Item>, x: Msg, st: PState, fuel: nat,
                                    x0: Msg, st0: PState, fuel0: nat, v: Msg, e: int)
    returns (fin: PState)
    requires Pending(env, cases, items, x, st, fuel, x0, st0, fuel0, v, e)
    ensures Members(env, Corrected, cases, x0, st0, fuel0) == Ran(Ok(fin, v)) && fin.off == e
    decreases |items|
  {
    if |items| <= 1 {
      fin := EndFrom(env, cases, items, x, st, fuel, x0, st0, fuel0, v, e);
    } else {
      var s2 := MoreFrom(env, cases, items, x, st, fuel, x0, st0, fuel0, v, e);
      fin := ReadFrom(env, cases, items[1..], Store(x, items[0]), s2, fuel - 1, x0, st0, fuel0, v, e);
    }
  }

  /** FastUnmarshal's loop over the text of the members and '}' stores
      every member in order and stops just past the '}'. */
  lemma ReadMembers(env: Env, cases: seq<UnmarshalCase>, items: seq<Item>, x: Msg, st: PState, fuel: nat)
    returns (fin: PState)
    requires Ready(env, cases, items, st, fuel)
    ensures Members(env, Corrected, cases, x, st, fuel) == Ran(Ok(fin, Fold(x, items))) && fin.off == EndOff(st, items)
  {
    fin := ReadFrom(env, cases, items, x, st, fuel, x, st, fuel, Fold(x, items), EndOff(st, items));
  }
}
