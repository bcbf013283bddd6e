/** What a generated Destructor does to a message, and the <T>Pool free
    list it feeds <T>New from. Destruct gives the messages put into the
    pools, in order, the receiver last.

    The resets read the receiver's fields as they were on entry. A Go
    struct has one field per name, so no reset reads a field an earlier
    reset has cleared.

    Two resets behave differently as generated and once corrected (Build).
    `x.F.Set(0)` on an enum goes through a value receiver and stores
    nothing; corrected, it zeroes the field. `x.F.Destructor()` on a
    message field is called even when F is nil, which panics; corrected,
    a nil F is skipped. */
module Lifecycle {
  import opened Bytes
  import opened Options
  import opened Schema
  import opened GenRules
  import opened GenCode
  import opened Runtime
  import opened UnmarshalRun
  import opened ParserSpec
  import DecodeFindings

  /** A message handed to <T>Pool.Put: its Go type and its fields then. */
  datatype Pooled = Pooled(typ: string, m: Msg)

  /** An outcome: a value, a panic, or code that does not compile (or a
      value that does not have the type the code is written for). */
  datatype DOut<T> = Did(value: T) | DPanics | DIll

  /** What the resets run so far did: the fields and oneofs they set to
      zero or nil, and the messages they pooled. */
  datatype Cleared = Cleared(fields: set<string>, oneofs: set<string>, pool: seq<Pooled>)

  const NOTHING: Cleared := Cleared({}, {}, [])

  /** One step after another; the second is not run after a failure. */
  function Seq(a: DOut<Cleared>, b: DOut<Cleared>): (r: DOut<Cleared>)
    ensures !a.Did? ==> r == a
    ensures a.Did? && !b.Did? ==> r == b
    ensures a.Did? && b.Did? ==>
      r == Did(Cleared(a.value.fields + b.value.fields, a.value.oneofs + b.value.oneofs, a.value.pool + b.value.pool))
  {
    match a
    case Did(c1) =>
      (match b
       case Did(c2) => Did(Cleared(c1.fields + c2.fields, c1.oneofs + c2.oneofs, c1.pool + c2.pool))
       case DPanics => DPanics
       case DIll => DIll)
    case DPanics => DPanics
    case DIll => DIll
  }

  /** A step that does nothing, before or after another, changes nothing. */
  lemma SeqNothing(d: DOut<Cleared>)
    ensures Seq(Did(NOTHING), d) == d && Seq(d, Did(NOTHING)) == d
  {
    if d.Did? {
      assert {} + d.value.fields == d.value.fields + {} == d.value.fields;
      assert {} + d.value.oneofs == d.value.oneofs + {} == d.value.oneofs;
      assert [] + d.value.pool == d.value.pool + [] == d.value.pool;
    }
  }

  /** One reset alone. */
  lemma OneReset(env: Env, b: Build, r: FieldReset, x: Option<Msg>)
    requires x.Some?
    ensures Resets(env, b, [r], 1, x) == Reset(env, b, r, x)
  {
    SeqNothing(Reset(env, b, r, x));
  }

  /** The messages a nested Destructor pooled, as a step of the resets. */
  function Pooling(d: DOut<seq<Pooled>>): (r: DOut<Cleared>)
    ensures d.Did? ==> r == Did(Cleared({}, {}, d.value))
    ensures d.DPanics? <==> r.DPanics?
  {
    match d
    case Did(p) => Did(Cleared({}, {}, p))
    case DPanics => DPanics
    case DIll => DIll
  }

  /** v.Destructor() for a value v of message type ref. */
  function DestructVal(env: Env, b: Build, ref: TypeRef, v: Val): DOut<seq<Pooled>>
    decreases v, 0
  {
    match v
    case VMsg(m) => Destruct(env, b, ref.goName, m)
    case _ => DIll
  }

  /** `for i := range x.F { x.F[i].Destructor() }` over the first n elements. */
  function Elems(env: Env, b: Build, ref: TypeRef, s: Slot, n: nat): (r: DOut<Cleared>)
    requires s.ListOf? && n <= |s.elems|
    ensures r.Did? ==> r.value.fields == {} && r.value.oneofs == {}
    decreases s, n
  {
    if n == 0 then Did(NOTHING)
    else Seq(Elems(env, b, ref, s, n - 1), Pooling(DestructVal(env, b, ref, s.elems[n - 1])))
  }

  /** The same loop over the first n values of a map. */
  function Values(env: Env, b: Build, ref: TypeRef, s: Slot, n: nat): (r: DOut<Cleared>)
    requires s.MapOf? && n <= |s.entries|
    ensures r.Did? ==> r.value.fields == {} && r.value.oneofs == {}
    decreases s, n
  {
    if n == 0 then Did(NOTHING)
    else Seq(Values(env, b, ref, s, n - 1), Pooling(DestructVal(env, b, ref, s.entries[n - 1].val)))
  }

  /** What typeDestructor, listDestructor or mapDestructor emitted for one
      field does to the receiver x. */
  function Reset(env: Env, b: Build, r: FieldReset, x: Option<Msg>): DOut<Cleared>
    requires x.Some?
    decreases x, 1
  {
    var zeroed := Did(Cleared({r.goName}, {}, []));
    var present := r.goName in x.value.fields;
    match r
    case TypeReset(g, action, ref) =>
      (match action
       case NoAction => Did(NOTHING)
       case EnumSetZero =>
         if ref.goName !in env.enums || ref.goName !in env.setters then DIll
         else if 0 !in env.enums[ref.goName].names then DPanics
         else if b == AsWritten then Did(NOTHING)
         else zeroed
       case DestructThenNil =>
         if ref.goName !in env.destructors || ref.goName !in env.pools then DIll
         else if !present || x.value.fields[g] == One(VMsg(None)) then (if b == AsWritten then DPanics else zeroed)
         else (match x.value.fields[g]
               case One(v) => Seq(Pooling(DestructVal(env, b, ref, v)), zeroed)
               case _ => DIll)
       case _ => zeroed)
    case ListReset(g, each, ref) =>
      if !each || !present then zeroed
      else (match x.value.fields[g]
            case ListOf(vs) => Seq(Elems(env, b, ref, ListOf(vs), |vs|), zeroed)
            case _ => DIll)
    case MapReset(g, each, ref) =>
      if !each || !present then zeroed
      else (match x.value.fields[g]
            case MapOf(es) => Seq(Values(env, b, ref, MapOf(es), |es|), zeroed)
            case _ => DIll)
  }

  /** The first n field resets, in order. */
  function Resets(env: Env, b: Build, rs: seq<FieldReset>, n: nat, x: Option<Msg>): DOut<Cleared>
    requires x.Some? && n <= |rs|
    decreases x, 2, n
  {
    if n == 0 then Did(NOTHING) else Seq(Resets(env, b, rs, n - 1, x), Reset(env, b, rs[n - 1], x))
  }

  /** `if x.O != nil { <chain>; x.O = nil }` */
  function OneofClear(env: Env, b: Build, o: OneofReset, x: Option<Msg>): DOut<Cleared>
    requires x.Some?
    decreases x, 1
  {
    if o.goName !in x.value.oneofs then Did(NOTHING)
    else
      var cleared := Did(Cleared({}, {o.goName}, []));
      match Arm(o.variants, (v: VariantReset) => v.ident, x.value.oneofs[o.goName].ident)
      case None => cleared
      case Some(vr) => Seq(Pooling(DestructVal(env, b, vr.ref, x.value.oneofs[o.goName].v)), cleared)
  }

  function OneofClears(env: Env, b: Build, os: seq<OneofReset>, n: nat, x: Option<Msg>): DOut<Cleared>
    requires x.Some? && n <= |os|
    decreases x, 2, n
  {
    if n == 0 then Did(NOTHING) else Seq(OneofClears(env, b, os, n - 1, x), OneofClear(env, b, os[n - 1], x))
  }

  /** The receiver once the resets in c have run. */
  function Zeroed(m: Msg, c: Cleared): Msg {
    Msg(m.fields - c.fields, m.oneofs - c.oneofs)
  }

  /** x.Destructor() for the generated Destructor of typ: a nil x panics;
      otherwise the resets, the oneofs, then <typ>Pool.Put(x). */
  function Destruct(env: Env, b: Build, typ: string, x: Option<Msg>): DOut<seq<Pooled>>
    decreases x, 3
  {
    if typ !in env.destructors || typ !in env.pools then DIll
    else if x.None? then DPanics
    else
      var (rs, os) := env.destructors[typ];
      match Seq(Resets(env, b, rs, |rs|, x), OneofClears(env, b, os, |os|, x))
      case Did(c) => Did(c.pool + [Pooled(typ, Zeroed(x.value, c))])
      case DPanics => DPanics
      case DIll => DIll
  }

  // ---------------------------------------------------------------
  // The free lists
  // ---------------------------------------------------------------

  /** The instances each <T>Pool holds. sync.Pool may hand back any of them
      or none; the model hands back the one put last. */
  type Pools = map<string, seq<Msg>>

  /** <T>Pool.Put for each pooled message, in order. */
  function PutAll(pools: Pools, ps: seq<Pooled>): (r: Pools)
    ensures forall t :: t in pools ==> t in r
    decreases |ps|
  {
    if ps == [] then pools
    else
      var p := ps[|ps| - 1];
      var q := PutAll(pools, ps[..|ps| - 1]);
      q[p.typ := (if p.typ in q then q[p.typ] else []) + [p.m]]
  }

  /** <T>New: a pooled instance, removed from the pool, or &T{}. */
  function New(pools: Pools, typ: string): (r: (Pools, Msg))
    ensures typ !in pools || pools[typ] == [] ==> r == (pools, EMPTY)
    ensures typ in pools && pools[typ] != [] ==> r.1 in pools[typ] && typ in r.0 && |r.0[typ]| == |pools[typ]| - 1
  {
    if typ !in pools || pools[typ] == [] then (pools, EMPTY)
    else
      var s := pools[typ];
      (pools[typ := s[..|s| - 1]], s[|s| - 1])
  }

  // ---------------------------------------------------------------
  // Properties
  // ---------------------------------------------------------------

  /** The Destructor aborts on a nil receiver. */
  lemma NilDestruct(env: Env, b: Build, typ: string)
    requires typ in env.destructors && typ in env.pools
    ensures Destruct(env, b, typ, None) == DPanics
  {
  }

  /** New hands back the instance a Destructor put last. */
  lemma NewAfterPut(pools: Pools, ps: seq<Pooled>)
    requires ps != []
    ensures New(PutAll(pools, ps), ps[|ps| - 1].typ).1 == ps[|ps| - 1].m
  {
  }

  /** Whether a reset clears its field in build b: every one but a group
      field's and, as generated, an enum's. */
  predicate Clears(b: Build, r: FieldReset) {
    r.TypeReset? ==> r.action != NoAction && (b == AsWritten ==> r.action != EnumSetZero)
  }

  lemma {:induction false} ResetsClear(env: Env, b: Build, rs: seq<FieldReset>, n: nat, x: Option<Msg>)
    requires x.Some? && n <= |rs|
    requires Resets(env, b, rs, n, x).Did?
    ensures forall i :: 0 <= i < n && Clears(b, rs[i]) ==> rs[i].goName in Resets(env, b, rs, n, x).value.fields
    ensures Resets(env, b, rs, n, x).value.oneofs == {}
  {
    if n > 0 {
      ResetsClear(env, b, rs, n - 1, x);
      ResetClears(env, b, rs[n - 1], x);
    }
  }

  lemma ResetClears(env: Env, b: Build, r: FieldReset, x: Option<Msg>)
    requires x.Some? && Reset(env, b, r, x).Did?
    ensures Clears(b, r) ==> r.goName in Reset(env, b, r, x).value.fields
    ensures Reset(env, b, r, x).value.oneofs == {}
  {
  }

  lemma {:induction false} OneofsClear(env: Env, b: Build, os: seq<OneofReset>, n: nat, x: Option<Msg>)
    requires x.Some? && n <= |os|
    requires OneofClears(env, b, os, n, x).Did?
    ensures forall i :: 0 <= i < n && os[i].goName in x.value.oneofs ==> os[i].goName in OneofClears(env, b, os, n, x).value.oneofs
  {
    if n > 0 {
      OneofsClear(env, b, os, n - 1, x);
    }
  }

  /** A Destructor that returns pools its receiver last, with every field
      its resets clear and every oneof zeroed, and nothing else changed. */
  lemma DestructClears(env: Env, b: Build, typ: string, x: Msg)
    requires Destruct(env, b, typ, Some(x)).Did?
    ensures var p := Destruct(env, b, typ, Some(x)).value;
      p != [] && p[|p| - 1].typ == typ &&
      (forall r :: r in env.destructors[typ].0 && Clears(b, r) ==> r.goName !in p[|p| - 1].m.fields) &&
      (forall o :: o in env.destructors[typ].1 ==> o.goName !in p[|p| - 1].m.oneofs) &&
      (forall g :: g in p[|p| - 1].m.fields ==> g in x.fields && p[|p| - 1].m.fields[g] == x.fields[g])
  {
    var (rs, os) := env.destructors[typ];
    ResetsClear(env, b, rs, |rs|, Some(x));
    OneofsClear(env, b, os, |os|, Some(x));
    var p := Destruct(env, b, typ, Some(x)).value;
    var c := Seq(Resets(env, b, rs, |rs|, Some(x)), OneofClears(env, b, os, |os|, Some(x))).value;
    assert p[|p| - 1] == Pooled(typ, Zeroed(x, c));
    forall r | r in rs && Clears(b, r)
      ensures r.goName !in p[|p| - 1].m.fields
    {
      var i :| 0 <= i < |rs| && rs[i] == r;
    }
    forall o | o in os
      ensures o.goName !in p[|p| - 1].m.oneofs
    {
      var i :| 0 <= i < |os| && os[i] == o;
    }
  }

  /** Destruct on a receiver whose resets and oneof chains finish. */
  lemma DestructRuns(env: Env, b: Build, typ: string, x: Msg, c: Cleared)
    requires typ in env.destructors && typ in env.pools
    requires var (rs, os) := env.destructors[typ];
      Seq(Resets(env, b, rs, |rs|, Some(x)), OneofClears(env, b, os, |os|, Some(x))) == Did(c)
    ensures Destruct(env, b, typ, Some(x)) == Did(c.pool + [Pooled(typ, Zeroed(x, c))])
  {
  }

  /** A type with a single field reset and no oneof. */
  lemma SingleReset(env: Env, b: Build, typ: string, r: FieldReset, x: Msg, c: Cleared)
    requires typ in env.destructors && typ in env.pools && env.destructors[typ] == ([r], [])
    requires Reset(env, b, r, Some(x)) == Did(c)
    ensures Destruct(env, b, typ, Some(x)) == Did(c.pool + [Pooled(typ, Zeroed(x, c))])
  {
    OneReset(env, b, r, Some(x));
    SeqNothing(Did(c));
    assert OneofClears(env, b, [], 0, Some(x)) == Did(NOTHING);
    DestructRuns(env, b, typ, x, c);
  }

  // ---------------------------------------------------------------
  // A nil message field
  // ---------------------------------------------------------------

  /** message Outer { Inner inner = 1; } and an empty message Inner. */
  function OuterEnv(): Env {
    var inner := TypeRef("Inner", "Inner");
    Env(map[], map[], map["Outer" := ([TypeReset("Inner", DestructThenNil, inner)], []), "Inner" := ([], [])],
        map[], {"Outer", "Inner"}, {}, {}, map[])
  }

  /** As generated, destructing an Outer whose inner is not set panics. */
  lemma NilFieldPanics()
    ensures Destruct(OuterEnv(), AsWritten, "Outer", Some(EMPTY)) == DPanics
  {
  }

  /** Corrected, it pools the Outer. */
  lemma NilFieldSkipped()
    ensures Destruct(OuterEnv(), Corrected, "Outer", Some(EMPTY)) == Did([Pooled("Outer", EMPTY)])
  {
    var env := OuterEnv();
    var r := TypeReset("Inner", DestructThenNil, TypeRef("Inner", "Inner"));
    assert env.destructors["Outer"] == ([r], []);
    var c := Cleared({"Inner"}, {}, []);
    assert Reset(env, Corrected, r, Some(EMPTY)) == Did(c);
    SingleReset(env, Corrected, "Outer", r, EMPTY, c);
    assert Zeroed(EMPTY, c) == EMPTY;
    assert c.pool + [Pooled("Outer", Zeroed(EMPTY, c))] == [Pooled("Outer", EMPTY)];
  }

  /** With inner set, both builds pool the Inner, then the Outer without it. */
  lemma SetFieldDestructed(b: Build)
    ensures Destruct(OuterEnv(), b, "Outer", Some(Msg(map["Inner" := One(VMsg(Some(EMPTY)))], map[])))
         == Did([Pooled("Inner", EMPTY), Pooled("Outer", EMPTY)])
  {
    var env := OuterEnv();
    var x := Msg(map["Inner" := One(VMsg(Some(EMPTY)))], map[]);
    var r := TypeReset("Inner", DestructThenNil, TypeRef("Inner", "Inner"));
    assert env.destructors["Outer"] == ([r], []);
    assert env.destructors["Inner"] == ([], []);
    SeqNothing(Did(NOTHING));
    DestructRuns(env, b, "Inner", EMPTY, NOTHING);
    assert Zeroed(EMPTY, NOTHING) == EMPTY;
    var inner := [Pooled("Inner", EMPTY)];
    assert NOTHING.pool + [Pooled("Inner", Zeroed(EMPTY, NOTHING))] == inner;
    assert Destruct(env, b, "Inner", Some(EMPTY)) == Did(inner);
    var c := Cleared({"Inner"}, {}, inner);
    assert x.fields["Inner"] == One(VMsg(Some(EMPTY)));
    assert DestructVal(env, b, r.ref, VMsg(Some(EMPTY))) == Did(inner);
    assert Pooling(DestructVal(env, b, r.ref, x.fields["Inner"].v)) == Did(Cleared({}, {}, inner));
    var none: set<string> := {};
    assert none + {"Inner"} == {"Inner"} && none + none == none && inner + [] == inner;
    assert Seq(Did(Cleared({}, {}, inner)), Did(Cleared({"Inner"}, {}, []))) == Did(c);
    assert Reset(env, b, r, Some(x)) == Did(c);
    SingleReset(env, b, "Outer", r, x, c);
    assert Zeroed(x, c) == EMPTY;
    assert c.pool + [Pooled("Outer", Zeroed(x, c))] == [Pooled("Inner", EMPTY), Pooled("Outer", EMPTY)];
  }

  // ---------------------------------------------------------------
  // A recycled enum
  // ---------------------------------------------------------------

  /** message M { Color e = 1; } with its Destructor, pool and FastUnmarshal. */
  function RecycleEnv(): Env {
    var color := TypeRef("Color", "Color");
    Env(map[], map["M" := [TypeCase([0x65], "E", Some(ReadEnum), "Color")]],
        map["M" := ([TypeReset("E", EnumSetZero, color)], [])], map[], {"M"}, {}, {"Color"},
        map["Color" := DecodeFindings.COLOR])
  }

  const GREEN_M: Msg := Msg(map["E" := One(VEnum(1))], map[])

  /** As generated, the Destructor pools an M with e still GREEN, and the
      next MNew hands it back: decoding `{}` into it gives e == GREEN. */
  lemma StaleEnumRecycled(fuel: nat)
    requires fuel >= 1
    ensures Destruct(RecycleEnv(), AsWritten, "M", Some(GREEN_M)) == Did([Pooled("M", GREEN_M)])
    ensures New(PutAll(map[], [Pooled("M", GREEN_M)]), "M").1 == GREEN_M
    ensures Unmarshal(RecycleEnv(), AsWritten, "M", Some(GREEN_M), Init([LBRACE, RBRACE]), fuel).Ran?
    ensures Unmarshal(RecycleEnv(), AsWritten, "M", Some(GREEN_M), Init([LBRACE, RBRACE]), fuel).out.Ok?
    ensures Unmarshal(RecycleEnv(), AsWritten, "M", Some(GREEN_M), Init([LBRACE, RBRACE]), fuel).out.value == GREEN_M
  {
    var env := RecycleEnv();
    var r := TypeReset("E", EnumSetZero, TypeRef("Color", "Color"));
    assert env.destructors["M"] == ([r], []);
    assert 0 in env.enums["Color"].names;
    assert Reset(env, AsWritten, r, Some(GREEN_M)) == Did(NOTHING);
    SingleReset(env, AsWritten, "M", r, GREEN_M, NOTHING);
    assert Zeroed(GREEN_M, NOTHING) == GREEN_M;
    assert NOTHING.pool + [Pooled("M", Zeroed(GREEN_M, NOTHING))] == [Pooled("M", GREEN_M)];
    NewAfterPut(map[], [Pooled("M", GREEN_M)]);
    EmptyObjectKeeps(RecycleEnv(), AsWritten, "M", GREEN_M, fuel);
  }

  /** Corrected, the pooled M is the zero message. */
  lemma EnumZeroedOnDestruct()
    ensures Destruct(RecycleEnv(), Corrected, "M", Some(GREEN_M)) == Did([Pooled("M", EMPTY)])
  {
    var env := RecycleEnv();
    var r := TypeReset("E", EnumSetZero, TypeRef("Color", "Color"));
    assert env.destructors["M"] == ([r], []);
    assert 0 in env.enums["Color"].names;
    var c := Cleared({"E"}, {}, []);
    assert Reset(env, Corrected, r, Some(GREEN_M)) == Did(c);
    SingleReset(env, Corrected, "M", r, GREEN_M, c);
    assert Zeroed(GREEN_M, c) == EMPTY;
    assert c.pool + [Pooled("M", Zeroed(GREEN_M, c))] == [Pooled("M", EMPTY)];
  }
}
