/** What a generated FastMarshal writes. Each function gives the text
    appended to the buffer; FixSymbol, which looks at the whole buffer, is
    applied to the text written since the enclosing '{' or '[', which
    RetractLocal shows is the same thing. */
module MarshalRun {
  import opened Bytes
  import opened Options
  import opened Decimal
  import opened JsonEscape
  import Base64
  import opened OutputBuffer
  import opened Schema
  import opened GenRules
  import opened GenCode
  import opened Runtime

  /** What running generated code gives: the text written, a panic, or
      nothing at all because the Go compiler rejects the code or the value
      does not have the type the code is written for. */
  datatype MOut = Wrote(text: Bytes) | Panics | Ill

  /** Two steps in sequence. */
  function Then(a: MOut, b: MOut): (r: MOut)
    ensures a.Wrote? && b.Wrote? ==> r == Wrote(a.text + b.text)
    ensures !a.Wrote? ==> r == a
  {
    match a
    case Wrote(x) => (match b case Wrote(y) => Wrote(x + y) case _ => b)
    case _ => a
  }

  /** symbolMarshal: buf.WriteString of a one-byte Go string. */
  function Sym(c: byte): Bytes {
    Escape([c])
  }

  /** WriteStringWithQuote */
  function Quoted(s: Bytes): Bytes {
    [QUOTE] + Escape(s) + [QUOTE]
  }

  /** keyMarshal(StringKind, `"name"`): the quoted JSON name and ':'. */
  function Key(name: Bytes): Bytes {
    Quoted(name) + Sym(COLON)
  }

  /** FixSymbol, then the closer. */
  function Seal(t: Bytes, closer: byte): Bytes {
    Retract(t) + Sym(closer)
  }

  /** The enum's String(): its name, or its number in decimal when the
      number has no name. */
  function EnumString(e: EnumType, n: int): Bytes {
    if n in e.names then e.names[n] else FormatInt(n)
  }

  /** What valMarshal's call writes for v. ref is the enum or message type
      of the value. */
  function WriteVal(env: Env, w: Writer, ref: TypeRef, v: Val): MOut
    decreases v, 1
  {
    match (w, v)
    case (WriteBool, VBool(b)) => Wrote(FormatBool(b))
    case (WriteEnumName, VEnum(n)) =>
      if ref.goName in env.enums then Wrote(Quoted(EnumString(env.enums[ref.goName], n))) else Ill
    case (WriteInt32, VInt(i)) => if InSigned(i, 32) then Wrote(FormatInt(i)) else Ill
    case (WriteInt64, VInt(i)) => if InSigned(i, 64) then Wrote(FormatInt(i)) else Ill
    case (WriteUint32, VUint(u)) => if InUnsigned(u, 32) then Wrote(FormatUint(u)) else Ill
    case (WriteUint64, VUint(u)) => if InUnsigned(u, 64) then Wrote(FormatUint(u)) else Ill
    case (WriteFloat32, VFloat(text)) => Wrote(text)
    case (WriteFloat64, VFloat(text)) => Wrote(text)
    case (WriteQuoted, VStr(s)) => Wrote(Quoted(s))
    case (WriteBase64, VBytes(d)) => Wrote([QUOTE] + Base64.Encode(if d.Some? then d.value else []) + [QUOTE])
    case (WriteNested, VMsg(m)) => MarshalText(env, ref.goName, m)
    case _ => Ill
  }

  /** valMarshal or keyMarshal's writer call; no writer writes nothing. */
  function WriteOpt(env: Env, w: Option<Writer>, ref: TypeRef, v: Val): MOut
    decreases v, 2
  {
    if w.None? then Wrote([]) else WriteVal(env, w.value, ref, v)
  }

  /** The loop over the first n elements of a slice: each element and ','. */
  function ListItems(env: Env, w: Option<Writer>, ref: TypeRef, s: Slot, n: nat): MOut
    requires s.ListOf? && n <= |s.elems|
    decreases s, n
  {
    if n == 0 then Wrote([])
    else Then(ListItems(env, w, ref, s, n - 1),
              Then(WriteOpt(env, w, ref, s.elems[n - 1]), Wrote(Sym(COMMA))))
  }

  /** The loop over the first n entries of a map: key, ':', value and ','. */
  function MapItems(env: Env, kw: Option<Writer>, w: Option<Writer>, ref: TypeRef, s: Slot, n: nat): MOut
    requires s.MapOf? && n <= |s.entries|
    decreases s, n
  {
    if n == 0 then Wrote([])
    else
      Then(MapItems(env, kw, w, ref, s, n - 1),
           Then(WriteOpt(env, kw, ref, s.entries[n - 1].key),
                Then(Wrote(Sym(COLON)), Then(WriteOpt(env, w, ref, s.entries[n - 1].val), Wrote(Sym(COMMA))))))
  }

  /** A block typeMarshal, listMarshal or mapMarshal emitted, run on the
      receiver x of type typ: skipped when IsEmpty<F> says so. */
  function Block(env: Env, typ: string, b: MarshalBlock, x: Option<Msg>): MOut
    decreases x, 0
  {
    if (typ, b.goName) !in env.empties then Ill
    else
      var s := FieldOf(x, b.goName);
      match IsEmpty(env.empties[(typ, b.goName)], s)
      case None => Ill
      case Some(empty) =>
        if empty then Wrote([])
        else match (b, x.value.fields[b.goName])
          case (TypeBlock(_, json, w, ref), One(v)) =>
            Then(Wrote(Key(json)), Then(WriteOpt(env, w, ref, v), Wrote(Sym(COMMA))))
          case (ListBlock(_, json, w, ref), ListOf(vs)) =>
            (match ListItems(env, w, ref, ListOf(vs), |vs|)
             case Wrote(items) => Wrote(Key(json) + Seal(Sym(LBRACKET) + items, RBRACKET) + Sym(COMMA))
             case other => other)
          case (MapBlock(_, json, kw, w, ref), MapOf(es)) =>
            (match MapItems(env, kw, w, ref, MapOf(es), |es|)
             case Wrote(items) => Wrote(Key(json) + Seal(Sym(LBRACE) + items, RBRACE) + Sym(COMMA))
             case other => other)
          case _ => Ill
  }

  /** The first n blocks, in order. */
  function Blocks(env: Env, typ: string, bs: seq<MarshalBlock>, n: nat, x: Option<Msg>): MOut
    requires n <= |bs|
    decreases x, 1, n
  {
    if n == 0 then Wrote([]) else Then(Blocks(env, typ, bs, n - 1, x), Block(env, typ, bs[n - 1], x))
  }

  /** `if x.O != nil { if _, ok := x.GetO().(*Ident); ok { ... } else if ... }`:
      reading x.O through a nil x panics. */
  function OneofArm(env: Env, ob: OneofBlock, x: Option<Msg>): MOut
    decreases x, 0
  {
    if x.None? then Panics
    else if ob.goName !in x.value.oneofs then Wrote([])
    else
      var held := x.value.oneofs[ob.goName];
      match Arm(ob.variants, (v: VariantBlock) => v.ident, held.ident)
      case None => Wrote([])
      case Some(vb) => Then(Wrote(Key(vb.jsonName)), Then(WriteOpt(env, vb.w, vb.ref, held.v), Wrote(Sym(COMMA))))
  }

  function Oneofs(env: Env, os: seq<OneofBlock>, n: nat, x: Option<Msg>): MOut
    requires n <= |os|
    decreases x, 1, n
  {
    if n == 0 then Wrote([]) else Then(Oneofs(env, os, n - 1, x), OneofArm(env, os[n - 1], x))
  }

  /** x.FastMarshal(buf) for the generated FastMarshal of typ. A nil x
      writes "{}" and carries on (the emitted `if x == nil` has no return). */
  function MarshalText(env: Env, typ: string, x: Option<Msg>): MOut
    decreases x, 2
  {
    if typ !in env.marshals then Ill
    else
      var (bs, os) := env.marshals[typ];
      var pre := (if x.None? then Escape([LBRACE, RBRACE]) else []) + Sym(LBRACE);
      match Then(Blocks(env, typ, bs, |bs|, x), Oneofs(env, os, |os|, x))
      case Wrote(body) => Wrote(Seal(pre + body, RBRACE))
      case other => other
  }

  // ---------------------------------------------------------------
  // Properties
  // ---------------------------------------------------------------

  /** Every symbol symbolMarshal writes is a safe byte, written as itself. */
  lemma SymbolsAsThemselves()
    ensures Sym(LBRACE) == [LBRACE] && Sym(RBRACE) == [RBRACE]
    ensures Sym(LBRACKET) == [LBRACKET] && Sym(RBRACKET) == [RBRACKET]
    ensures Sym(COMMA) == [COMMA] && Sym(COLON) == [COLON]
    ensures Escape([LBRACE, RBRACE]) == [LBRACE, RBRACE]
  {
    EscapePassThrough([LBRACE]);
    EscapePassThrough([RBRACE]);
    EscapePassThrough([LBRACKET]);
    EscapePassThrough([RBRACKET]);
    EscapePassThrough([COMMA]);
    EscapePassThrough([COLON]);
    EscapePassThrough([LBRACE, RBRACE]);
  }

  /** FixSymbol on the whole buffer does to the text written since an
      opener what it would do to that text alone. */
  lemma RetractLocal(out: Bytes, t: Bytes)
    requires |t| >= 1 && t[0] != COMMA
    ensures Retract(out + t) == out + Retract(t)
  {
    if |t| >= 2 && t[|t| - 1] == COMMA {
      assert (out + t)[..|out + t| - 1] == out + t[..|t| - 1];
    }
  }

  /** Every block on a nil receiver is skipped, if IsEmpty is declared for it. */
  lemma {:induction false} NilBlocks(env: Env, typ: string, bs: seq<MarshalBlock>, n: nat)
    requires n <= |bs|
    requires forall i :: 0 <= i < n ==> (typ, bs[i].goName) in env.empties && env.empties[(typ, bs[i].goName)] != NoReturn
    ensures Blocks(env, typ, bs, n, None) == Wrote([])
  {
    if n > 0 {
      NilBlocks(env, typ, bs, n - 1);
    }
  }

  /** A nil message: with no oneof it writes "{}{}" (the "{}" for nil,
      then an empty object); with a oneof it panics. */
  lemma NilMarshal(env: Env, typ: string)
    requires typ in env.marshals
    requires var bs := env.marshals[typ].0;
      forall i :: 0 <= i < |bs| ==> (typ, bs[i].goName) in env.empties && env.empties[(typ, bs[i].goName)] != NoReturn
    ensures env.marshals[typ].1 == [] ==> MarshalText(env, typ, None) == Wrote([LBRACE, RBRACE, LBRACE, RBRACE])
    ensures env.marshals[typ].1 != [] ==> MarshalText(env, typ, None) == Panics
  {
    var (bs, os) := env.marshals[typ];
    NilBlocks(env, typ, bs, |bs|);
    SymbolsAsThemselves();
    var pre := Escape([LBRACE, RBRACE]) + Sym(LBRACE);
    assert pre == [LBRACE, RBRACE, LBRACE];
    if os != [] {
      NilOneofs(env, os, |os|);
      assert Then(Blocks(env, typ, bs, |bs|, None), Oneofs(env, os, |os|, None)) == Panics;
    } else {
      assert Then(Blocks(env, typ, bs, |bs|, None), Oneofs(env, os, |os|, None)) == Wrote([]);
      assert pre + [] == pre;
      assert Seal(pre, RBRACE) == [LBRACE, RBRACE, LBRACE, RBRACE];
    }
  }

  lemma {:induction false} NilOneofs(env: Env, os: seq<OneofBlock>, n: nat)
    requires 0 < n <= |os|
    ensures Oneofs(env, os, n, None) == Panics
  {
    if n > 1 {
      NilOneofs(env, os, n - 1);
    }
  }

  // ---------------------------------------------------------------
  // Lists and maps
  // ---------------------------------------------------------------

  /** Each text followed by ',', as the element loops leave them. */
  function Terminated(ts: seq<Bytes>): Bytes {
    if ts == [] then [] else Terminated(ts[..|ts| - 1]) + ts[|ts| - 1] + [COMMA]
  }

  /** The texts separated by ','. */
  function CommaJoin(ts: seq<Bytes>): Bytes {
    if ts == [] then []
    else if |ts| == 1 then ts[0]
    else CommaJoin(ts[..|ts| - 1]) + [COMMA] + ts[|ts| - 1]
  }

  lemma {:induction false} TerminatedJoin(ts: seq<Bytes>)
    requires ts != []
    ensures Terminated(ts) == CommaJoin(ts) + [COMMA]
    decreases |ts|
  {
    var init := ts[..|ts| - 1];
    if |ts| == 1 {
      assert init == [];
    } else {
      TerminatedJoin(init);
    }
  }

  /** FixSymbol then the closer turn the opener and the terminated texts
      into a JSON array or object: no ',' before the closer, and "[]" or
      "{}" when there is nothing. */
  lemma SealTerminated(open: byte, ts: seq<Bytes>, closer: byte)
    requires open != COMMA && (closer == RBRACKET || closer == RBRACE)
    ensures Seal([open] + Terminated(ts), closer) == [open] + CommaJoin(ts) + [closer]
  {
    SymbolsAsThemselves();
    if ts == [] {
      assert Retract([open]) == [open];
    } else {
      TerminatedJoin(ts);
      assert [open] + Terminated(ts) == ([open] + CommaJoin(ts)) + [COMMA];
      RetractComma([open] + CommaJoin(ts));
    }
  }

  /** The text of a list or map block once its element loop has written ts. */
  lemma SealedField(json: Bytes, open: byte, ts: seq<Bytes>, closer: byte)
    requires (open, closer) == (LBRACKET, RBRACKET) || (open, closer) == (LBRACE, RBRACE)
    ensures Key(json) + Seal(Sym(open) + Terminated(ts), closer) + Sym(COMMA)
         == Key(json) + ([open] + CommaJoin(ts) + [closer]) + [COMMA]
  {
    SymbolsAsThemselves();
    SealTerminated(open, ts, closer);
  }

  /** The loop over a slice writes each element's text followed by ','. */
  lemma {:induction false} ListItemsText(env: Env, w: Option<Writer>, ref: TypeRef, s: Slot, n: nat, ts: seq<Bytes>)
    requires s.ListOf? && n <= |s.elems| && |ts| == n
    requires forall i :: 0 <= i < n ==> WriteOpt(env, w, ref, s.elems[i]) == Wrote(ts[i])
    ensures ListItems(env, w, ref, s, n) == Wrote(Terminated(ts))
    decreases n
  {
    if n > 0 {
      ListItemsText(env, w, ref, s, n - 1, ts[..n - 1]);
      SymbolsAsThemselves();
      assert ts[..n - 1] == ts[..|ts| - 1];
    }
  }

  /** The loop over a map writes key ':' value for each entry, in range
      order, each followed by ','. */
  lemma {:induction false} MapItemsText(env: Env, kw: Option<Writer>, w: Option<Writer>, ref: TypeRef, s: Slot, n: nat,
                                        ks: seq<Bytes>, vs: seq<Bytes>, es: seq<Bytes>)
    requires s.MapOf? && n <= |s.entries| && n <= |ks| && n <= |vs| && n <= |es|
    requires forall i :: 0 <= i < n ==>
      WriteOpt(env, kw, ref, s.entries[i].key) == Wrote(ks[i]) &&
      WriteOpt(env, w, ref, s.entries[i].val) == Wrote(vs[i]) &&
      es[i] == ks[i] + [COLON] + vs[i]
    ensures MapItems(env, kw, w, ref, s, n) == Wrote(Terminated(es[..n]))
    decreases n
  {
    if n > 0 {
      MapItemsText(env, kw, w, ref, s, n - 1, ks, vs, es);
      var e := s.entries[n - 1];
      EntryWrites(env, kw, w, ref, e, ks[n - 1], vs[n - 1]);
      TerminatedStep(es, n, ks[n - 1] + [COLON] + vs[n - 1] + [COMMA]);
      assert MapItems(env, kw, w, ref, s, n)
          == Then(MapItems(env, kw, w, ref, s, n - 1),
                  Then(WriteOpt(env, kw, ref, e.key), Then(Wrote(Sym(COLON)), Then(WriteOpt(env, w, ref, e.val), Wrote(Sym(COMMA))))));
    }
  }

  lemma TerminatedStep(es: seq<Bytes>, n: nat, last: Bytes)
    requires 0 < n <= |es| && last == es[n - 1] + [COMMA]
    ensures Terminated(es[..n]) == Terminated(es[..n - 1]) + last
  {
    assert es[..n][..n - 1] == es[..n - 1];
  }

  /** One map entry whose key and value write k and v writes k:v and ','. */
  lemma EntryWrites(env: Env, kw: Option<Writer>, w: Option<Writer>, ref: TypeRef, e: Entry, k: Bytes, v: Bytes)
    requires WriteOpt(env, kw, ref, e.key) == Wrote(k) && WriteOpt(env, w, ref, e.val) == Wrote(v)
    ensures Then(WriteOpt(env, kw, ref, e.key), Then(Wrote(Sym(COLON)), Then(WriteOpt(env, w, ref, e.val), Wrote(Sym(COMMA)))))
         == Wrote(k + [COLON] + v + [COMMA])
  {
    SymbolsAsThemselves();
    EntryBytes(k, v, Sym(COLON), Sym(COMMA));
  }

  lemma EntryBytes(k: Bytes, v: Bytes, colon: Bytes, comma: Bytes)
    requires colon == [COLON] && comma == [COMMA]
    ensures Then(Wrote(k), Then(Wrote(colon), Then(Wrote(v), Wrote(comma)))) == Wrote(k + [COLON] + v + [COMMA])
  {
    assert k + (colon + (v + comma)) == k + [COLON] + v + [COMMA];
  }

  /** A list field that is not empty writes `"name":[e1,...,en],` with
      the texts of its elements. */
  lemma ListBlockText(env: Env, typ: string, b: MarshalBlock, x: Msg, ts: seq<Bytes>)
    requires b.ListBlock? && (typ, b.goName) in env.empties
    requires IsEmpty(env.empties[(typ, b.goName)], FieldOf(Some(x), b.goName)) == Some(false)
    requires b.goName in x.fields && x.fields[b.goName].ListOf? && |ts| == |x.fields[b.goName].elems|
    requires forall i :: 0 <= i < |ts| ==> WriteOpt(env, b.w, b.ref, x.fields[b.goName].elems[i]) == Wrote(ts[i])
    ensures Block(env, typ, b, Some(x)) == Wrote(Key(b.jsonName) + ([LBRACKET] + CommaJoin(ts) + [RBRACKET]) + [COMMA])
  {
    var s := x.fields[b.goName];
    ListItemsText(env, b.w, b.ref, s, |s.elems|, ts);
    assert Block(env, typ, b, Some(x)) == Wrote(Key(b.jsonName) + Seal(Sym(LBRACKET) + Terminated(ts), RBRACKET) + Sym(COMMA));
    SealedField(b.jsonName, LBRACKET, ts, RBRACKET);
  }

  /** A map field that is not empty writes `"name":{k1:v1,...},` with its
      entries in range order. */
  lemma MapBlockText(env: Env, typ: string, b: MarshalBlock, x: Msg, ks: seq<Bytes>, vs: seq<Bytes>, es: seq<Bytes>)
    requires b.MapBlock? && (typ, b.goName) in env.empties
    requires IsEmpty(env.empties[(typ, b.goName)], FieldOf(Some(x), b.goName)) == Some(false)
    requires b.goName in x.fields && x.fields[b.goName].MapOf?
    requires var n := |x.fields[b.goName].entries|; |ks| == n && |vs| == n && |es| == n
    requires forall i :: 0 <= i < |es| ==>
      WriteOpt(env, b.key, b.ref, x.fields[b.goName].entries[i].key) == Wrote(ks[i]) &&
      WriteOpt(env, b.w, b.ref, x.fields[b.goName].entries[i].val) == Wrote(vs[i]) &&
      es[i] == ks[i] + [COLON] + vs[i]
    ensures Block(env, typ, b, Some(x)) == Wrote(Key(b.jsonName) + ([LBRACE] + CommaJoin(es) + [RBRACE]) + [COMMA])
  {
    var s := x.fields[b.goName];
    MapItemsText(env, b.key, b.w, b.ref, s, |s.entries|, ks, vs, es);
    assert es[..|s.entries|] == es;
    assert Block(env, typ, b, Some(x)) == Wrote(Key(b.jsonName) + Seal(Sym(LBRACE) + Terminated(es), RBRACE) + Sym(COMMA));
    SealedField(b.jsonName, LBRACE, es, RBRACE);
  }
}
