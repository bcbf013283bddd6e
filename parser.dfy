/** The tokenizer object: the Go struct's fields, updated in place by its
    methods. Every method is proved to leave the object in the state the
    matching function of ParserSpec / ParseTree computes from the state it
    started in, and to report a panic (ok == false) exactly when that
    function does. */
module JsonParser {
  import opened Bytes
  import S = ParserSpec
  import T = ParseTree
  import Decimal

  class Parser {
    const data: Bytes
    var off: nat
    var tok: S.Token
    var pending: byte

    function State(): S.PState
      reads this
    {
      S.PState(data, off, tok, pending)
    }

    /** New(data) */
    constructor (input: Bytes)
      ensures State() == S.Init(input)
    {
      data := input;
      off := 0;
      tok := S.Token(S.TokUnknown, false, [], 0);
      pending := S.NONE;
    }

    /** reset */
    method Reset()
      modifies this
      ensures State() == S.Reset(old(State()))
    {
      tok := tok.(kind := S.TokUnknown);
    }

    /** AssertSymbol */
    method AssertSymbol(b: byte)
      modifies this
      ensures State() == S.AssertSymbol(old(State()), b)
    {
      pending := b;
    }

    /** getToken: whitespace and the pending separator are consumed in
        the loop; the first other byte starts a token (or is an error). */
    method GetToken() returns (ok: bool)
      modifies this
      ensures ok == S.Scan(old(State())).Ok? && State() == S.Scan(old(State())).st
    {
      if off > |data| {
        return false;
      }
      while off < |data| && (S.IsSpace(data[off]) || data[off] == COLON || data[off] == COMMA)
        invariant off <= |data|
        invariant S.Scan(State()) == S.Scan(old(State()))
        decreases |data| - off
      {
        ok := SkipOne();
        if !ok {
          return;
        }
      }
      if off == |data| {
        return true;
      }
      ok := TokenStart();
    }

    /** One turn of getToken's loop: a blank is skipped, the pending
        separator consumed, any other separator is an error. */
    method SkipOne() returns (ok: bool)
      requires off < |data| && (S.IsSpace(data[off]) || data[off] == COLON || data[off] == COMMA)
      modifies this
      ensures ok ==> off == old(off) + 1 && S.Scan(State()) == S.Scan(old(State()))
      ensures !ok ==> State() == old(State()) && S.Scan(old(State())) == S.Panic(old(State()))
    {
      var c := data[off];
      if c == COLON || c == COMMA {
        S.SeparatorRule(State());
        if pending != c {
          return false;
        }
        Reset();
        pending := S.NONE;
      } else {
        S.SkipsWhitespace(State());
      }
      off := off + 1;
      ok := true;
    }

    /** The byte at off starts a token: a symbol or a value. */
    method TokenStart() returns (ok: bool)
      requires off < |data| && !S.IsSpace(data[off]) && data[off] != COLON && data[off] != COMMA
      modifies this
      ensures ok == S.Scan(old(State())).Ok? && State() == S.Scan(old(State())).st
    {
      var c := data[off];
      if c == LBRACE || c == LBRACKET {
        if pending != S.NONE {
          return false;
        }
        tok := tok.(kind := S.TokSymbol, symbol := c);
        off := off + 1;
        return true;
      } else if c == RBRACE || c == RBRACKET {
        if pending != COMMA {
          return false;
        }
        pending := S.NONE;
        tok := tok.(kind := S.TokSymbol, symbol := c);
        off := off + 1;
        return true;
      } else if pending != S.NONE {
        return false;
      }
      ok := ValueStart();
    }

    /** A string, number or literal starts at off; no separator is pending. */
    method ValueStart() returns (ok: bool)
      requires off < |data| && pending == S.NONE
      requires var c := data[off]; !S.IsSpace(c) && c != COLON && c != COMMA && c != LBRACE && c != LBRACKET && c != RBRACE && c != RBRACKET
      modifies this
      ensures ok == S.Scan(old(State())).Ok? && State() == S.Scan(old(State())).st
    {
      var c := data[off];
      if c == QUOTE {
        off := off + 1;
        tok := tok.(kind := S.TokString);
        ok := GetString();
      } else if IsDigit(c) || c == MINUS {
        tok := tok.(kind := S.TokNumber);
        GetNumber();
        ok := true;
      } else if c == 0x74 {
        tok := tok.(kind := S.TokBool);
        ok := GetTrue();
      } else if c == 0x66 {
        tok := tok.(kind := S.TokBool);
        ok := GetFalse();
      } else if c == 0x6E {
        tok := tok.(kind := S.TokNull);
        ok := GetNull();
      } else {
        ok := false;
      }
    }

    /** getString: scan to the closing quote, a '\' skipping one byte. */
    method GetString() returns (ok: bool)
      requires off <= |data|
      modifies this
      ensures ok == S.GetString(old(State())).Ok? && State() == S.GetString(old(State())).st
    {
      var i := off;
      while i < |data|
        invariant off <= i <= |data| + 1
        invariant S.StringEnd(data, i) == S.StringEnd(data, off)
        decreases |data| + 1 - i
      {
        if data[i] == BACKSLASH {
          i := i + 1;
        } else if data[i] == QUOTE {
          break;
        }
        i := i + 1;
      }
      if i > |data| {
        return false;
      }
      tok := tok.(raw := data[off..i]);
      off := i + 1;
      return true;
    }

    /** getNumber: the longest run of number characters. */
    method GetNumber()
      requires off <= |data|
      modifies this
      ensures State() == S.GetNumber(old(State()))
    {
      var i := off;
      while i < |data| && S.IsNumberChar(data[i])
        invariant off <= i <= |data|
        invariant S.NumberEnd(data, i) == S.NumberEnd(data, off)
        decreases |data| - i
      {
        i := i + 1;
      }
      tok := tok.(raw := data[off..i]);
      off := i;
    }

    /** getTrue */
    method GetTrue() returns (ok: bool)
      requires off < |data|
      modifies this
      ensures ok == S.GetTrue(old(State())).Ok? && State() == S.GetTrue(old(State())).st
    {
      if off + 3 > |data| || data[off + 1] != 0x72 || data[off + 2] != 0x75 {
        return false;
      }
      if off + 3 == |data| || data[off + 3] != 0x65 {
        return false;
      }
      tok := tok.(bol := true);
      off := off + 4;
      return true;
    }

    /** getFalse */
    method GetFalse() returns (ok: bool)
      requires off < |data|
      modifies this
      ensures ok == S.GetFalse(old(State())).Ok? && State() == S.GetFalse(old(State())).st
    {
      if off + 4 > |data| || data[off + 1] != 0x61 || data[off + 2] != 0x6C || data[off + 3] != 0x73 {
        return false;
      }
      if off + 4 == |data| || data[off + 4] != 0x65 {
        return false;
      }
      tok := tok.(bol := false);
      off := off + 5;
      return true;
    }

    /** getNull */
    method GetNull() returns (ok: bool)
      requires off < |data|
      modifies this
      ensures ok == S.GetNull(old(State())).Ok? && State() == S.GetNull(old(State())).st
    {
      if off + 3 > |data| || data[off + 1] != 0x75 || data[off + 2] != 0x6C {
        return false;
      }
      if off + 3 == |data| || data[off + 3] != 0x6C {
        return false;
      }
      off := off + 4;
      return true;
    }

    /** The extractors' first step: scan unless a token is cached. */
    method Fetch() returns (ok: bool)
      modifies this
      ensures ok == S.Fetch(old(State())).Ok? && State() == S.Fetch(old(State())).st
    {
      ok := true;
      if tok.kind == S.TokUnknown {
        ok := GetToken();
      }
    }

    /** Str and Bytes */
    method Str() returns (ok: bool, s: Bytes)
      modifies this
      ensures ok == S.Str(old(State())).Ok? && State() == S.Str(old(State())).st
      ensures ok ==> s == S.Str(old(State())).value
    {
      ok := Fetch();
      if !ok {
        return false, [];
      }
      if tok.kind != S.TokString {
        return false, [];
      }
      Reset();
      return true, tok.raw;
    }

    /** Bol */
    method Bol() returns (ok: bool, b: bool)
      modifies this
      ensures ok == S.Bol(old(State())).Ok? && State() == S.Bol(old(State())).st
      ensures ok ==> b == S.Bol(old(State())).value
    {
      ok := Fetch();
      if !ok {
        return false, false;
      }
      if tok.kind != S.TokBool {
        return false, false;
      }
      Reset();
      return true, tok.bol;
    }

    /** Null */
    method Null() returns (ok: bool)
      modifies this
      ensures ok == S.Null(old(State())).Ok? && State() == S.Null(old(State())).st
    {
      ok := Fetch();
      if !ok {
        return;
      }
      if tok.kind != S.TokNull {
        return false;
      }
      Reset();
    }

    /** Symbol(b) */
    method Symbol(b: byte) returns (ok: bool)
      modifies this
      ensures ok == S.Symbol(old(State()), b).Ok? && State() == S.Symbol(old(State()), b).st
    {
      ok := Fetch();
      if !ok {
        return;
      }
      if tok.kind != S.TokSymbol || tok.symbol != b {
        return false;
      }
      Reset();
    }

    /** Int32 (bits 32) and Int64 (bits 64) */
    method Int(bits: nat) returns (ok: bool, v: int)
      requires bits >= 1
      modifies this
      ensures ok == S.Int(old(State()), bits).Ok? && State() == S.Int(old(State()), bits).st
      ensures ok ==> v == S.Int(old(State()), bits).value
    {
      ok := Fetch();
      if !ok {
        return false, 0;
      }
      if tok.kind != S.TokNumber {
        return false, 0;
      }
      var parsed := Decimal.ParseInt(tok.raw, bits);
      if parsed.None? {
        return false, 0;
      }
      Reset();
      return true, parsed.value;
    }

    /** Uint32 (bits 32) and Uint64 (bits 64) */
    method Uint(bits: nat) returns (ok: bool, v: nat)
      modifies this
      ensures ok == S.Uint(old(State()), bits).Ok? && State() == S.Uint(old(State()), bits).st
      ensures ok ==> v == S.Uint(old(State()), bits).value
    {
      ok := Fetch();
      if !ok {
        return false, 0;
      }
      if tok.kind != S.TokNumber {
        return false, 0;
      }
      var parsed := Decimal.ParseUint(tok.raw, bits);
      if parsed.None? {
        return false, 0;
      }
      Reset();
      return true, parsed.value;
    }

    /** Number, Float32 and Float64: the number's text */
    method Number() returns (ok: bool, text: Bytes)
      modifies this
      ensures ok == S.Number(old(State())).Ok? && State() == S.Number(old(State())).st
      ensures ok ==> text == S.Number(old(State())).value
    {
      ok := Fetch();
      if !ok {
        return false, [];
      }
      if tok.kind != S.TokNumber || !S.FloatSyntax(tok.raw) {
        return false, [];
      }
      Reset();
      return true, tok.raw;
    }

    /** Enum */
    method Enum() returns (ok: bool, e: S.EnumValue)
      modifies this
      ensures ok == S.Enum(old(State())).Ok? && State() == S.Enum(old(State())).st
      ensures ok ==> e == S.Enum(old(State())).value
    {
      e := S.EnumValue(S.ENUM_UNKNOWN, [], 0);
      ok := Fetch();
      if !ok {
        return;
      }
      if tok.kind == S.TokString {
        var name;
        ok, name := Str();
        if ok {
          e := S.EnumValue(S.ENUM_STRING, name, 0);
        }
      } else if tok.kind == S.TokNumber {
        var n;
        ok, n := Int(32);
        if ok {
          e := S.EnumValue(S.ENUM_NUMBER, [], n);
        }
      } else {
        ok := false;
      }
    }

    /** IsSymbol(b) */
    method IsSymbol(b: byte) returns (ok: bool, at: bool)
      modifies {}
      ensures ok == S.IsSymbol(State(), b).Ok?
      ensures ok ==> at == S.IsSymbol(State(), b).value
    {
      if off >= |data| {
        return false, false;
      }
      return true, data[off] == b;
    }

    /** The leaf cases of Parse's switch. */
    method Leaf() returns (ok: bool, v: T.JValue)
      modifies this
      ensures ok == T.Leaf(old(State())).Ok? && State() == T.Leaf(old(State())).st
      ensures ok ==> v == T.Leaf(old(State())).value
    {
      v := T.JNull;
      match tok.kind {
        case TokBool =>
          var b;
          ok, b := Bol();
          v := T.JBool(b);
        case TokString =>
          var s;
          ok, s := Str();
          v := T.JString(s);
        case TokNumber =>
          var t;
          ok, t := Number();
          v := T.JNumber(t);
        case TokNull =>
          ok := Null();
        case TokSymbol =>
          Reset();
          ok := false;
        case TokUnknown =>
          ok := false;
      }
    }

    /** Parse's body: one value, failures propagated. */
    method ParseValue() returns (ok: bool, v: T.JValue)
      modifies this
      ensures ok == T.ParseValue(old(State())).Ok? && State() == T.ParseValue(old(State())).st
      ensures ok ==> v == T.ParseValue(old(State())).value
      decreases T.Rem(State()), 0
    {
      v := T.JNull;
      if tok.kind != S.TokUnknown {
        return false, v;
      }
      ok := GetToken();
      if !ok {
        return;
      }
      if T.Opens(State()) {
        ok, v := Container();
      } else {
        ok, v := Leaf();
      }
    }

    /** An object or an array, after its opening symbol was scanned. */
    method Container() returns (ok: bool, v: T.JValue)
      requires T.Opens(State())
      modifies this
      ensures ok == T.Container(old(State())).Ok? && State() == T.Container(old(State())).st
      ensures ok ==> v == T.Container(old(State())).value
      decreases T.Rem(State()), 3
    {
      var open := tok.symbol;
      Reset();
      if open == LBRACE {
        ok, v := Obj();
      } else {
        ok, v := Arr();
      }
    }

    /** The closing step of obj and arr. */
    method Close(closer: byte, result: T.JValue) returns (ok: bool, v: T.JValue)
      modifies this
      ensures ok == T.Close(old(State()), closer, result).Ok? && State() == T.Close(old(State()), closer, result).st
      ensures ok ==> v == result
    {
      AssertSymbol(COMMA);
      ok := Symbol(closer);
      v := result;
    }

    /** obj */
    method Obj() returns (ok: bool, v: T.JValue)
      modifies this
      ensures ok == T.ObjLoop(old(State()), map[]).Ok? && State() == T.ObjLoop(old(State()), map[]).st
      ensures ok ==> v == T.ObjLoop(old(State()), map[]).value
      decreases T.Rem(State()), 2
    {
      var acc: map<Bytes, T.JValue> := map[];
      while true
        invariant T.ObjLoop(State(), acc) == T.ObjLoop(old(State()), map[])
        invariant T.Rem(State()) <= T.Rem(old(State()))
        decreases T.Rem(State())
      {
        ghost var before := State();
        var ok1, close := IsSymbol(RBRACE);
        if !ok1 {
          return false, T.JNull;
        }
        if close {
          ok, v := Close(RBRACE, T.JObject(acc));
          return;
        }
        assert T.ObjLoop(before, acc) == T.ObjMember(before, acc);
        var ok2, key := Str();
        if !ok2 {
          return false, T.JNull;
        }
        AssertSymbol(COLON);
        var ok3, val := ParseValue();
        if !ok3 {
          return false, T.JNull;
        }
        AssertSymbol(COMMA);
        acc := acc[key := val];
      }
    }

    /** arr */
    method Arr() returns (ok: bool, v: T.JValue)
      modifies this
      ensures ok == T.ArrLoop(old(State()), []).Ok? && State() == T.ArrLoop(old(State()), []).st
      ensures ok ==> v == T.ArrLoop(old(State()), []).value
      decreases T.Rem(State()), 2
    {
      var acc: seq<T.JValue> := [];
      while true
        invariant T.ArrLoop(State(), acc) == T.ArrLoop(old(State()), [])
        invariant T.Rem(State()) <= T.Rem(old(State()))
        decreases T.Rem(State())
      {
        ghost var before := State();
        var ok1, close := IsSymbol(RBRACKET);
        if !ok1 {
          return false, T.JNull;
        }
        if close {
          ok, v := Close(RBRACKET, T.JArray(acc));
          return;
        }
        assert T.ArrLoop(before, acc) == T.ArrElement(before, acc);
        var ok2, val := ParseValue();
        if !ok2 {
          return false, T.JNull;
        }
        AssertSymbol(COMMA);
        acc := acc + [val];
      }
    }

    /** Parse, with its recover at the outermost call: a failure returns
        nil and leaves the parser where the failure happened. */
    method Parse() returns (v: T.JValue)
      modifies this
      ensures (State(), v) == T.Parse(old(State()))
    {
      var ok;
      ok, v := ParseValue();
      if !ok {
        v := T.JNull;
      }
    }
  }
}
