/** The round trip as a whole: for a message whose FastMarshal has only
    blocks for singular fields with a writer of one token, FastMarshal
    writes `{`, the members of the fields it does not skip separated by
    ',', and `}`; the generated FastUnmarshal (with the two decoding faults
    corrected) reads that text into a zero message as exactly those fields,
    each holding the value read back. */
module FlatRoundTrip {
  import opened Bytes
  import opened Options
  import OutputBuffer
  import opened Schema
  import opened GenRules
  import opened GenCode
  import opened ParserSpec
  import opened ParserProps
  import opened Runtime
  import opened MarshalRun
  import opened UnmarshalRun
  import opened RoundTrip

  // ---------------------------------------------------------------
  // Reading an object
  // ---------------------------------------------------------------

  /** The text of an object holding the members. */
  function ObjectText(items: seq<Item>): Bytes {
    [LBRACE] + Joined(items) + [RBRACE]
  }

  /** A '{' with nothing pending is read as the opener, one byte on. */
  lemma OpenAt(st: PState) returns (s: PState)
    requires st.tok.kind == TokUnknown && st.pending == NONE && At(st, [LBRACE])
    ensures Symbol(st, LBRACE) == Ok(s, ()) && Fresh(s, st.data, st.off + 1, NONE)
  {
    HoldsFirst(st.data, st.off, [LBRACE]);
    OpenRule(st);
    s := Reset(Scan(st).st);
  }

  /** The object text starts with '{'. */
  lemma ObjectOpens(items: seq<Item>)
    ensures At(Init(ObjectText(items)), [LBRACE])
  {
    HoldsSlice(ObjectText(items), 0, [LBRACE]);
  }

  /** Past the '{' of the object text the loop is ready for the members,
      and it ends at the end of the text. */
  lemma ObjectReady(env: Env, cases: seq<UnmarshalCase>, items: seq<Item>, s: PState, fuel: nat)
    requires AllOK(env, cases, items) && fuel >= |items| + 1
    requires Fresh(s, ObjectText(items), 1, NONE)
    ensures Ready(env, cases, items, s, fuel) && EndOff(s, items) == |ObjectText(items)|
  {
    var t := ObjectText(items);
    HoldsSlice(t, 1, Joined(items) + [RBRACE]);
    assert t[1..1 + |Joined(items) + [RBRACE]|] == Joined(items) + [RBRACE];
    assert Lead(s.pending) + Joined(items) + [RBRACE] == Joined(items) + [RBRACE];
  }

  /** FastUnmarshal on `&T{}` reads the object text of the members back
      as the members stored in order, and reads the whole text. */
  lemma UnmarshalObject(env: Env, typ: string, items: seq<Item>, fuel: nat) returns (fin: PState)
    requires typ in env.unmarshals && AllOK(env, env.unmarshals[typ], items) && fuel >= |items| + 1
    ensures Unmarshal(env, Corrected, typ, Some(EMPTY), Init(ObjectText(items)), fuel) == Ran(Ok(fin, Fold(EMPTY, items)))
    ensures fin.off == |ObjectText(items)|
  {
    var st := Init(ObjectText(items));
    ObjectOpens(items);
    var s := OpenAt(st);
    ObjectReady(env, env.unmarshals[typ], items, s, fuel);
    fin := ReadMembers(env, env.unmarshals[typ], items, EMPTY, s, fuel);
  }

  // ---------------------------------------------------------------
  // Writing an object
  // ---------------------------------------------------------------

  /** A block of a flat message: a singular field with a writer, an
      IsEmpty<F> that returns, and, when the field is not empty, a value
      of one token that the writer accepts. */
  predicate Flat(env: Env, typ: string, b: MarshalBlock, x: Msg) {
    b.TypeBlock? && b.w.Some? && (typ, b.goName) in env.empties &&
    IsEmpty(env.empties[(typ, b.goName)], FieldOf(Some(x), b.goName)).Some? &&
    (IsEmpty(env.empties[(typ, b.goName)], FieldOf(Some(x), b.goName)) == Some(false) ==>
      b.goName in x.fields && x.fields[b.goName].One? &&
      Written(env, b.w.value, b.ref, x.fields[b.goName].v).Some?)
  }

  predicate AllFlat(env: Env, typ: string, bs: seq<MarshalBlock>, x: Msg) {
    forall i :: 0 <= i < |bs| ==> Flat(env, typ, bs[i], x)
  }

  /** The block writes its field: IsEmpty<F> says the field is not empty. */
  predicate Shown(env: Env, typ: string, b: MarshalBlock, x: Msg)
    requires Flat(env, typ, b, x)
  {
    IsEmpty(env.empties[(typ, b.goName)], FieldOf(Some(x), b.goName)) == Some(false)
  }

  /** The member a block writes. */
  function ItemOf(env: Env, typ: string, b: MarshalBlock, x: Msg): Item
    requires Flat(env, typ, b, x) && Shown(env, typ, b, x)
  {
    var v := x.fields[b.goName].v;
    Item(b.jsonName, b.goName, b.w.value, b.ref, v, Written(env, b.w.value, b.ref, v).value)
  }

  /** The members the first n blocks write, in order. */
  function ItemsOf(env: Env, typ: string, bs: seq<MarshalBlock>, n: nat, x: Msg): (r: seq<Item>)
    requires n <= |bs| && AllFlat(env, typ, bs, x)
    ensures |r| <= n
  {
    if n == 0 then []
    else ItemsOf(env, typ, bs, n - 1, x) + (if Shown(env, typ, bs[n - 1], x) then [ItemOf(env, typ, bs[n - 1], x)] else [])
  }

  /** Each member followed by ',', as the blocks leave them in the buffer. */
  function Listed(items: seq<Item>): Bytes
    decreases |items|
  {
    if items == [] then [] else MemberText(items[0]) + [COMMA] + Listed(items[1..])
  }

  lemma {:induction false} ListedSnoc(items: seq<Item>, it: Item)
    ensures Listed(items + [it]) == Listed(items) + MemberText(it) + [COMMA]
    decreases |items|
  {
    if items == [] {
      assert [it][1..] == [];
    } else {
      assert (items + [it])[0] == items[0] && (items + [it])[1..] == items[1..] + [it];
      ListedSnoc(items[1..], it);
    }
  }

  /** The ',' after the last member is the one FixSymbol takes back. */
  lemma {:induction false} ListedJoined(items: seq<Item>)
    requires items != []
    ensures Listed(items) == Joined(items) + [COMMA]
    decreases |items|
  {
    if |items| == 1 {
      assert items[1..] == [];
    } else {
      ListedJoined(items[1..]);
    }
  }

  /** A block writes its member and ',', or nothing when its field is empty. */
  lemma BlockText(env: Env, typ: string, b: MarshalBlock, x: Msg)
    requires Flat(env, typ, b, x)
    ensures Block(env, typ, b, Some(x))
         == Wrote(if Shown(env, typ, b, x) then MemberText(ItemOf(env, typ, b, x)) + [COMMA] else [])
  {
    if Shown(env, typ, b, x) {
      var v := x.fields[b.goName].v;
      WrittenAgrees(env, b.w.value, b.ref, v);
      SymbolsAsThemselves();
    }
  }

  lemma {:induction false} BlocksText(env: Env, typ: string, bs: seq<MarshalBlock>, n: nat, x: Msg)
    requires n <= |bs| && AllFlat(env, typ, bs, x)
    ensures Blocks(env, typ, bs, n, Some(x)) == Wrote(Listed(ItemsOf(env, typ, bs, n, x)))
  {
    if n > 0 {
      BlocksText(env, typ, bs, n - 1, x);
      BlockText(env, typ, bs[n - 1], x);
      var pre := ItemsOf(env, typ, bs, n - 1, x);
      assert Blocks(env, typ, bs, n, Some(x)) == Then(Wrote(Listed(pre)), Block(env, typ, bs[n - 1], Some(x)));
      if Shown(env, typ, bs[n - 1], x) {
        var it := ItemOf(env, typ, bs[n - 1], x);
        ListedSnoc(pre, it);
        assert ItemsOf(env, typ, bs, n, x) == pre + [it];
        assert Listed(pre) + (MemberText(it) + [COMMA]) == Listed(pre + [it]);
      } else {
        assert ItemsOf(env, typ, bs, n, x) == pre;
        assert Listed(pre) + [] == Listed(pre);
      }
    }
  }

  /** FastMarshal of a flat message without oneofs writes the object text
      of the members of its non-empty fields. */
  lemma MarshalFlat(env: Env, typ: string, x: Msg)
    requires typ in env.marshals && env.marshals[typ].1 == []
    requires AllFlat(env, typ, env.marshals[typ].0, x)
    ensures MarshalText(env, typ, Some(x))
         == Wrote(ObjectText(ItemsOf(env, typ, env.marshals[typ].0, |env.marshals[typ].0|, x)))
  {
    var bs := env.marshals[typ].0;
    var items := ItemsOf(env, typ, bs, |bs|, x);
    BlocksText(env, typ, bs, |bs|, x);
    SymbolsAsThemselves();
    assert Then(Blocks(env, typ, bs, |bs|, Some(x)), Oneofs(env, env.marshals[typ].1, 0, Some(x))) == Wrote(Listed(items));
    assert [] + Sym(LBRACE) == [LBRACE];
    SealObject(items);
  }

  /** FixSymbol takes back the ',' after the last member, and '}' closes. */
  lemma SealObject(items: seq<Item>)
    ensures Seal([LBRACE] + Listed(items), RBRACE) == ObjectText(items)
  {
    SymbolsAsThemselves();
    var c := [LBRACE] + Listed(items);
    if items == [] {
      assert OutputBuffer.Retract(c) == [LBRACE];
      assert ObjectText(items) == [LBRACE] + [RBRACE];
    } else {
      ListedJoined(items);
      assert c == [LBRACE] + Joined(items) + [COMMA];
      assert OutputBuffer.Retract(c) == [LBRACE] + Joined(items);
    }
  }

  // ---------------------------------------------------------------
  // The two sides agree
  // ---------------------------------------------------------------

  /** The unmarshaller's case c reads back what block b writes: the plain
      case of the same Go field, with the reader of b's writer and, for an
      enum, b's enum type. */
  predicate ReadsBackBlock(c: UnmarshalCase, b: MarshalBlock)
    requires b.TypeBlock? && b.w.Some?
  {
    c.TypeCase? && c.jsonName == b.jsonName && c.goName == b.goName && c.r == Some(ReaderFor(b.w.value)) &&
    (b.w.value == WriteEnumName ==> c.typ == b.ref.goName)
  }

  /** generateMarshal and generateUnmarshal emit, for a singular field with
      a writer, a block and a case that go together. */
  lemma GeneratedPair(f: Field, messages: map<string, Message>, enums: map<string, EnumType>)
    requires f.card.Singular? && ValWriter(f.kind).Some?
    ensures UnmarshalCaseOf(f, messages, enums).Emitted?
    ensures MarshalBlockOf(f).TypeBlock? && MarshalBlockOf(f).w.Some?
    ensures ReadsBackBlock(UnmarshalCaseOf(f, messages, enums).value, MarshalBlockOf(f))
  {
    ReaderMatchesWriter(f.kind);
    TypeNameMatchesWriter(f.kind, f.ref, false);
  }

  /** The case the loop finds for the block's name reads the block back,
      and the value the block writes is one the reader takes back. */
  predicate Paired(env: Env, cases: seq<UnmarshalCase>, typ: string, b: MarshalBlock, x: Msg)
    requires Flat(env, typ, b, x)
  {
    SafeText(b.jsonName) && CaseFor(cases, b.jsonName).Some? && ReadsBackBlock(CaseFor(cases, b.jsonName).value, b) &&
    (Shown(env, typ, b, x) ==> Readable(env, b.w.value, b.ref, x.fields[b.goName].v))
  }

  predicate AllPaired(env: Env, cases: seq<UnmarshalCase>, typ: string, bs: seq<MarshalBlock>, x: Msg)
    requires AllFlat(env, typ, bs, x)
  {
    forall i :: 0 <= i < |bs| ==> Paired(env, cases, typ, bs[i], x)
  }

  lemma {:induction false} AllOKSnoc(env: Env, cases: seq<UnmarshalCase>, items: seq<Item>, it: Item)
    requires AllOK(env, cases, items) && ItemOK(env, cases, it)
    ensures AllOK(env, cases, items + [it])
    decreases |items|
  {
    if items == [] {
      assert [it][1..] == [];
    } else {
      assert (items + [it])[0] == items[0] && (items + [it])[1..] == items[1..] + [it];
      AllOKSnoc(env, cases, items[1..], it);
    }
  }

  /** Every member the blocks write is one the loop reads back. */
  lemma {:induction false} ItemsOK(env: Env, cases: seq<UnmarshalCase>, typ: string, bs: seq<MarshalBlock>, n: nat, x: Msg)
    requires n <= |bs| && AllFlat(env, typ, bs, x) && AllPaired(env, cases, typ, bs, x)
    ensures AllOK(env, cases, ItemsOf(env, typ, bs, n, x))
  {
    if n > 0 {
      ItemsOK(env, cases, typ, bs, n - 1, x);
      var b := bs[n - 1];
      if Shown(env, typ, b, x) {
        assert Paired(env, cases, typ, b, x);
        assert ItemOK(env, cases, ItemOf(env, typ, b, x));
        AllOKSnoc(env, cases, ItemsOf(env, typ, bs, n - 1, x), ItemOf(env, typ, b, x));
      } else {
        assert ItemsOf(env, typ, bs, n, x) == ItemsOf(env, typ, bs, n - 1, x);
      }
    }
  }

  // ---------------------------------------------------------------
  // What comes back
  // ---------------------------------------------------------------

  lemma {:induction false} FoldSnoc(x: Msg, items: seq<Item>, it: Item)
    ensures Fold(x, items + [it]) == Store(Fold(x, items), it)
    decreases |items|
  {
    if items == [] {
      assert [it][1..] == [];
    } else {
      assert (items + [it])[0] == items[0] && (items + [it])[1..] == items[1..] + [it];
      FoldSnoc(Store(x, items[0]), items[1..], it);
    }
  }

  /** The blocks are for different fields. */
  predicate DistinctFields(bs: seq<MarshalBlock>) {
    forall i, j :: 0 <= i < j < |bs| ==> bs[i].goName != bs[j].goName
  }

  /** y holds what reading the members of the first n blocks sets: exactly
      the fields those blocks write, each to the value written as it reads
      back, and no oneof. */
  predicate FieldsRead(env: Env, typ: string, bs: seq<MarshalBlock>, n: nat, x: Msg, y: Msg)
    requires n <= |bs| && AllFlat(env, typ, bs, x)
  {
    y.oneofs == map[] && y.fields.Keys <= (set i | 0 <= i < n :: bs[i].goName) &&
    (forall i :: 0 <= i < n ==> (bs[i].goName in y.fields <==> Shown(env, typ, bs[i], x))) &&
    (forall i :: 0 <= i < n && Shown(env, typ, bs[i], x) ==>
      y.fields[bs[i].goName] == One(ReadBack(x.fields[bs[i].goName].v)))
  }

  /** Reading the member of block n-1 extends what the first n-1 set. */
  lemma FieldStored(env: Env, typ: string, bs: seq<MarshalBlock>, n: nat, x: Msg, y: Msg)
    requires 0 < n <= |bs| && AllFlat(env, typ, bs, x) && DistinctFields(bs)
    requires Shown(env, typ, bs[n - 1], x) && FieldsRead(env, typ, bs, n - 1, x, y)
    ensures FieldsRead(env, typ, bs, n, x, Store(y, ItemOf(env, typ, bs[n - 1], x)))
  {
    var k := bs[n - 1].goName;
    var v := One(ReadBack(x.fields[k].v));
    var z := Store(y, ItemOf(env, typ, bs[n - 1], x));
    assert z.fields == y.fields[k := v] && z.oneofs == y.oneofs;
    forall i | 0 <= i < n - 1
      ensures bs[i].goName in z.fields <==> bs[i].goName in y.fields
      ensures bs[i].goName in z.fields ==> z.fields[bs[i].goName] == y.fields[bs[i].goName]
    {
      assert bs[i].goName != k;
    }
  }

  /** A block that writes nothing leaves what the first n-1 set. */
  lemma FieldSkipped(env: Env, typ: string, bs: seq<MarshalBlock>, n: nat, x: Msg, y: Msg)
    requires 0 < n <= |bs| && AllFlat(env, typ, bs, x) && DistinctFields(bs)
    requires !Shown(env, typ, bs[n - 1], x) && FieldsRead(env, typ, bs, n - 1, x, y)
    ensures FieldsRead(env, typ, bs, n, x, y)
  {
  }

  /** Reading the members of the first n blocks into a zero message. */
  lemma {:induction false} ReadFields(env: Env, typ: string, bs: seq<MarshalBlock>, n: nat, x: Msg)
    requires n <= |bs| && AllFlat(env, typ, bs, x) && DistinctFields(bs)
    ensures FieldsRead(env, typ, bs, n, x, Fold(EMPTY, ItemsOf(env, typ, bs, n, x)))
  {
    if n > 0 {
      ReadFields(env, typ, bs, n - 1, x);
      var pre := ItemsOf(env, typ, bs, n - 1, x);
      if Shown(env, typ, bs[n - 1], x) {
        var it := ItemOf(env, typ, bs[n - 1], x);
        assert ItemsOf(env, typ, bs, n, x) == pre + [it];
        FoldSnoc(EMPTY, pre, it);
        FieldStored(env, typ, bs, n, x, Fold(EMPTY, pre));
      } else {
        assert ItemsOf(env, typ, bs, n, x) == pre;
        FieldSkipped(env, typ, bs, n, x, Fold(EMPTY, pre));
      }
    }
  }

  /** The round trip: FastMarshal writes a text t for x, and the generated
      FastUnmarshal reads all of t into `&T{}` as the members of x's
      non-empty fields stored in order. */
  lemma FlatRoundTrip(env: Env, typ: string, x: Msg, fuel: nat) returns (t: Bytes, fin: PState)
    requires typ in env.marshals && typ in env.unmarshals && env.marshals[typ].1 == []
    requires AllFlat(env, typ, env.marshals[typ].0, x)
    requires AllPaired(env, env.unmarshals[typ], typ, env.marshals[typ].0, x)
    requires fuel >= |env.marshals[typ].0| + 1
    ensures MarshalText(env, typ, Some(x)) == Wrote(t)
    ensures Unmarshal(env, Corrected, typ, Some(EMPTY), Init(t), fuel)
         == Ran(Ok(fin, Fold(EMPTY, ItemsOf(env, typ, env.marshals[typ].0, |env.marshals[typ].0|, x))))
    ensures fin.off == |t|
  {
    var bs := env.marshals[typ].0;
    var items := ItemsOf(env, typ, bs, |bs|, x);
    MarshalFlat(env, typ, x);
    ItemsOK(env, env.unmarshals[typ], typ, bs, |bs|, x);
    t := ObjectText(items);
    fin := UnmarshalObject(env, typ, items, fuel);
  }

  /** What the round trip gives: a message with no oneof whose fields are
      exactly those FastMarshal writes, each holding the value written as
      it reads back; an empty field stays unset, which Go reads as its
      zero value. */
  lemma FieldsComeBack(env: Env, typ: string, x: Msg, fuel: nat) returns (t: Bytes, fin: PState, y: Msg)
    requires typ in env.marshals && typ in env.unmarshals && env.marshals[typ].1 == []
    requires AllFlat(env, typ, env.marshals[typ].0, x) && DistinctFields(env.marshals[typ].0)
    requires AllPaired(env, env.unmarshals[typ], typ, env.marshals[typ].0, x)
    requires fuel >= |env.marshals[typ].0| + 1
    ensures MarshalText(env, typ, Some(x)) == Wrote(t)
    ensures Unmarshal(env, Corrected, typ, Some(EMPTY), Init(t), fuel) == Ran(Ok(fin, y)) && fin.off == |t|
    ensures var bs := env.marshals[typ].0;
      y.oneofs == map[] && y.fields.Keys <= (set i | 0 <= i < |bs| :: bs[i].goName)
    ensures var bs := env.marshals[typ].0;
      forall i :: 0 <= i < |bs| ==> (bs[i].goName in y.fields <==> Shown(env, typ, bs[i], x))
    ensures var bs := env.marshals[typ].0;
      forall i :: 0 <= i < |bs| && Shown(env, typ, bs[i], x) ==>
        y.fields[bs[i].goName] == One(ReadBack(x.fields[bs[i].goName].v))
  {
    var bs := env.marshals[typ].0;
    t, fin := FlatRoundTrip(env, typ, x, fuel);
    y := Fold(EMPTY, ItemsOf(env, typ, bs, |bs|, x));
    ReadFields(env, typ, bs, |bs|, x);
    assert FieldsRead(env, typ, bs, |bs|, x, y);
  }
}
