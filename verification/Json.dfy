/** JSON texts (RFC 8259): values, and a byte-at-a-time parser. The parser is an
    automaton with an explicit stack of open containers, so reading `a + b` is
    reading `b` from the state that `a` leaves behind. */
module Json {
  import opened Bytes
  import Utf8

  datatype Json =
    | Null
    | Bool(b: bool)
    | Num(raw: bytes)               // the literal as written
    | Str(text: bytes)              // decoded, in UTF-8
    | Arr(items: seq<Json>)
    | Obj(members: seq<Member>)

  datatype Member = Member(key: bytes, value: Json)

  // ---------------------------------------------------------------- lexemes

  predicate IsSpace(b: byte) {
    b == ' ' || b == '\t' || b == LF || b == CR
  }

  datatype StrLex =
    | Plain
    | Escape
    | Hex(left: nat, code: int, high: Option<int>)
    | LowSlash(lead: int)           // a high surrogate needs `\u` and a low one
    | LowU(lead: int)

  datatype StrStep = StrMore(acc: bytes, lex: StrLex) | StrEnd | StrBad

  function HexValue(b: byte): Option<int> {
    if '0' <= b <= '9' then Some(b as int - '0' as int)
    else if 'a' <= b <= 'f' then Some(b as int - 'a' as int + 10)
    else if 'A' <= b <= 'F' then Some(b as int - 'A' as int + 10)
    else None
  }

  function StepHex(acc: bytes, code: int, high: Option<int>): StrStep {
    if high.Some? then
      var cp := 0x10000 + (high.value - 0xD800) * 1024 + (code - 0xDC00);
      if 0xDC00 <= code < 0xE000 && Utf8.IsScalar(cp) then StrMore(acc + Utf8.Encode(cp), Plain) else StrBad
    else if 0xD800 <= code < 0xDC00 then StrMore(acc, LowSlash(code))
    else if Utf8.IsScalar(code) then StrMore(acc + Utf8.Encode(code), Plain)
    else StrBad
  }

  function StepStr(acc: bytes, lex: StrLex, b: byte): StrStep {
    match lex
    case Plain =>
      if b == '"' then StrEnd
      else if b == '\\' then StrMore(acc, Escape)
      else if b < ' ' then StrBad
      else StrMore(acc + [b], Plain)
    case Escape =>
      if b == '"' || b == '\\' || b == '/' then StrMore(acc + [b], Plain)
      else if b == 'b' then StrMore(acc + [Byte(8)], Plain)
      else if b == 'f' then StrMore(acc + [Byte(12)], Plain)
      else if b == 'n' then StrMore(acc + [LF], Plain)
      else if b == 'r' then StrMore(acc + [CR], Plain)
      else if b == 't' then StrMore(acc + ['\t'], Plain)
      else if b == 'u' then StrMore(acc, Hex(4, 0, None))
      else StrBad
    case Hex(left, code, high) =>
      var h := HexValue(b);
      if h.None? || left == 0 then StrBad
      else if left > 1 then StrMore(acc, Hex(left - 1, code * 16 + h.value, high))
      else StepHex(acc, code * 16 + h.value, high)
    case LowSlash(high) => if b == '\\' then StrMore(acc, LowU(high)) else StrBad
    case LowU(high) => if b == 'u' then StrMore(acc, Hex(4, 0, Some(high))) else StrBad
  }

  datatype NumLex = Minus | Zero | Int | Dot | Frac | Exp | ExpSign | ExpDigits

  function StepNum(lex: NumLex, b: byte): Option<NumLex> {
    match lex
    case Minus => if b == '0' then Some(Zero) else if IsDigit(b) then Some(Int) else None
    case Zero => if b == '.' then Some(Dot) else if b == 'e' || b == 'E' then Some(Exp) else None
    case Int =>
      if IsDigit(b) then Some(Int) else if b == '.' then Some(Dot)
      else if b == 'e' || b == 'E' then Some(Exp) else None
    case Dot => if IsDigit(b) then Some(Frac) else None
    case Frac => if IsDigit(b) then Some(Frac) else if b == 'e' || b == 'E' then Some(Exp) else None
    case Exp => if b == '+' || b == '-' then Some(ExpSign) else if IsDigit(b) then Some(ExpDigits) else None
    case ExpSign => if IsDigit(b) then Some(ExpDigits) else None
    case ExpDigits => if IsDigit(b) then Some(ExpDigits) else None
  }

  predicate EndsNum(lex: NumLex) {
    lex.Zero? || lex.Int? || lex.Frac? || lex.ExpDigits?
  }

  // ---------------------------------------------------------------- automaton

  type word = w: bytes | w != [] && forall i :: 0 <= i < |w| ==> 'a' <= w[i] <= 'z' witness "null"

  /** The open containers, innermost first. */
  datatype Stack =
    | Bottom
    | ArrFrame(items: seq<Json>, below: Stack)
    | ObjFrame(members: seq<Member>, key: bytes, below: Stack)

  datatype Mode =
    | Value                         // a value must follow
    | FirstItem                     // just after `[`
    | FirstKey                      // just after `{`
    | NextKey                       // just after `,` in an object
    | Colon(key: bytes)
    | After                         // a value inside a container has just ended
    | Done(v: Json)                 // the top-level value has ended
    | InStr(isKey: bool, acc: bytes, str: StrLex)
    | InNum(raw: bytes, num: NumLex)
    | InLit(rest: word, v: Json)    // `true`, `false` or `null`, with the letters still due

  datatype State = Fail | At(stack: Stack, mode: Mode)

  const Init: State := At(Bottom, Value)

  function StartValue(k: Stack, b: byte): State {
    if b == '"' then At(k, InStr(false, [], Plain))
    else if b == '{' then At(ObjFrame([], [], k), FirstKey)
    else if b == '[' then At(ArrFrame([], k), FirstItem)
    else if b == 't' then At(k, InLit("rue", Bool(true)))
    else if b == 'f' then At(k, InLit("alse", Bool(false)))
    else if b == 'n' then At(k, InLit("ull", Null))
    else if b == '-' then At(k, InNum([b], Minus))
    else if b == '0' then At(k, InNum([b], Zero))
    else if IsDigit(b) then At(k, InNum([b], Int))
    else Fail
  }

  /** The state once `v` has ended inside the containers `k`. */
  function Close(k: Stack, v: Json): State {
    match k
    case Bottom => At(Bottom, Done(v))
    case ArrFrame(items, below) => At(ArrFrame(items + [v], below), After)
    case ObjFrame(members, key, below) => At(ObjFrame(members + [Member(key, v)], [], below), After)
  }

  function StepAfter(k: Stack, b: byte): State {
    if IsSpace(b) then At(k, After)
    else match k
      case Bottom => Fail
      case ArrFrame(items, below) =>
        if b == ',' then At(k, Value) else if b == ']' then Close(below, Arr(items)) else Fail
      case ObjFrame(members, _, below) =>
        if b == ',' then At(k, NextKey) else if b == '}' then Close(below, Obj(members)) else Fail
  }

  /** One byte right after a value. */
  function StepSettled(s: State, b: byte): State {
    if s.Fail? then Fail
    else if s.mode.After? then StepAfter(s.stack, b)
    else if s.mode.Done? && IsSpace(b) then s
    else Fail
  }

  function StepKey(k: Stack, b: byte): State {
    if b == '"' then At(k, InStr(true, [], Plain)) else Fail
  }

  function StepColon(k: Stack, key: bytes, b: byte): State {
    if b == ':' && k.ObjFrame? then At(ObjFrame(k.members, key, k.below), Value) else Fail
  }

  function StepInStr(k: Stack, isKey: bool, acc: bytes, lex: StrLex, b: byte): State {
    match StepStr(acc, lex, b)
    case StrBad => Fail
    case StrMore(acc', lex') => At(k, InStr(isKey, acc', lex'))
    case StrEnd => if isKey then At(k, Colon(acc)) else Close(k, Str(acc))
  }

  function StepInNum(k: Stack, raw: bytes, lex: NumLex, b: byte): State {
    var next := StepNum(lex, b);
    if next.Some? then At(k, InNum(raw + [b], next.value))
    else if EndsNum(lex) then StepSettled(Close(k, Num(raw)), b)
    else Fail
  }

  function StepInLit(k: Stack, rest: word, v: Json, b: byte): State {
    if b != rest[0] then Fail
    else if |rest| == 1 then Close(k, v)
    else At(k, InLit(rest[1..], v))
  }

  function Step(s: State, b: byte): State {
    if s.Fail? then Fail
    else
      var k := s.stack;
      match s.mode
      case InStr(isKey, acc, lex) => StepInStr(k, isKey, acc, lex, b)
      case InNum(raw, lex) => StepInNum(k, raw, lex, b)
      case InLit(rest, v) => StepInLit(k, rest, v, b)
      case Value => if IsSpace(b) then s else StartValue(k, b)
      case FirstItem =>
        if IsSpace(b) then s
        else if b == ']' && k.ArrFrame? then Close(k.below, Arr(k.items))
        else StartValue(k, b)
      case FirstKey =>
        if IsSpace(b) then s
        else if b == '}' && k.ObjFrame? then Close(k.below, Obj(k.members))
        else StepKey(k, b)
      case NextKey => if IsSpace(b) then s else StepKey(k, b)
      case Colon(key) => if IsSpace(b) then s else StepColon(k, key, b)
      case After => StepAfter(k, b)
      case Done(_) => StepSettled(s, b)
  }

  function Run(s: State, text: bytes): State
    decreases text
  {
    if text == [] then s else Run(Step(s, text[0]), text[1..])
  }

  function Finish(s: State): Option<Json> {
    if s.Fail? || s.stack != Bottom then None
    else match s.mode
      case Done(v) => Some(v)
      case InNum(raw, lex) => if EndsNum(lex) then Some(Num(raw)) else None
      case _ => None
  }

  function Parse(text: bytes): Option<Json> {
    Finish(Run(Init, text))
  }

  /** A JSON document as a byte slice: well-formed UTF-8 holding one JSON text. */
  function FromSlice(text: bytes): Option<Json> {
    if Utf8.Valid(text) then Parse(text) else None
  }

  lemma {:induction false} RunAppend(s: State, a: bytes, b: bytes)
    ensures Run(s, a + b) == Run(Run(s, a), b)
    decreases a
  {
    if a == [] {
      assert a + b == b;
    } else {
      assert (a + b)[1..] == a[1..] + b;
      RunAppend(Step(s, a[0]), a[1..], b);
    }
  }

  lemma RunCons(s: State, b: byte, rest: bytes)
    ensures Run(s, [b] + rest) == Run(Step(s, b), rest)
  {
    assert ([b] + rest)[1..] == rest;
  }

  lemma RunSnoc(s: State, a: bytes, b: byte)
    ensures Run(s, a + [b]) == Step(Run(s, a), b)
  {
    RunAppend(s, a, [b]);
    assert [b][1..] == [];
  }

  lemma {:induction false} FailStays(text: bytes)
    ensures Run(Fail, text) == Fail
  {
    if text != [] {
      FailStays(text[1..]);
    }
  }

  // ---------------------------------------------------------------- white space

  /** The parser is not inside a token, so white space may follow. */
  predicate BetweenTokens(s: State) {
    s.At? && (s.mode.Value? || s.mode.FirstItem? || s.mode.FirstKey? || s.mode.NextKey?
              || s.mode.Colon? || s.mode.After? || s.mode.Done?)
  }

  lemma {:induction false} SpacesKeepState(s: State, w: bytes)
    requires BetweenTokens(s) && forall i :: 0 <= i < |w| ==> IsSpace(w[i])
    ensures Run(s, w) == s
  {
    if w != [] {
      assert Step(s, w[0]) == s;
      SpacesKeepState(s, w[1..]);
    }
  }

  /** Any white space, blank lines included, may stand between two tokens. */
  lemma WhiteSpaceInsertion(a: bytes, w: bytes, b: bytes)
    requires BetweenTokens(Run(Init, a)) && forall i :: 0 <= i < |w| ==> IsSpace(w[i])
    ensures Parse(a + w + b) == Parse(a + b)
  {
    RunAppend(Init, a + w, b);
    RunAppend(Init, a, w);
    SpacesKeepState(Run(Init, a), w);
    RunAppend(Init, a, b);
  }

  /** A raw line break is only ever read between tokens. */
  lemma LineBreakStep(s: State, b: byte)
    requires b == LF || b == CR
    ensures Step(s, b).Fail? || BetweenTokens(Step(s, b))
  {
  }

  // ---------------------------------------------------------------- reading values

  predicate AllDigits(raw: bytes) {
    forall i :: 0 <= i < |raw| ==> IsDigit(raw[i])
  }

  function DecimalValue(raw: bytes): (n: nat)
    requires AllDigits(raw)
  {
    if raw == [] then 0
    else DecimalValue(raw[..|raw| - 1]) * 10 + (raw[|raw| - 1] as int - '0' as int)
  }

  /** An unsigned 64-bit integer literal; fractions, exponents and signs are not. */
  function AsU64(v: Json): (r: Option<u64>)
    ensures r.Some? ==> v.Num? && AllDigits(v.raw) && DecimalValue(v.raw) == r.value
  {
    if v.Num? && AllDigits(v.raw) && DecimalValue(v.raw) <= U64_MAX then Some(DecimalValue(v.raw)) else None
  }

  function AsStr(v: Json): Option<bytes> {
    if v.Str? then Some(v.text) else None
  }

  /** Member lookup in a parsed value: a repeated key keeps its last value. */
  function Find(members: seq<Member>, key: bytes): Option<Json> {
    if members == [] then None
    else if members[|members| - 1].key == key then Some(members[|members| - 1].value)
    else Find(members[..|members| - 1], key)
  }

  lemma {:induction false} FindIsLast(members: seq<Member>, key: bytes)
    ensures Find(members, key).None? <==> forall i :: 0 <= i < |members| ==> members[i].key != key
    ensures Find(members, key).Some? ==>
      exists i :: 0 <= i < |members| && members[i] == Member(key, Find(members, key).value)
                  && forall j :: i < j < |members| ==> members[j].key != key
  {
    if members != [] {
      var n := |members| - 1;
      if members[n].key == key {
        assert members[n] == Member(key, Find(members, key).value);
      } else {
        FindIsLast(members[..n], key);
        assert forall i :: 0 <= i < n ==> members[..n][i] == members[i];
      }
    }
  }

  function Get(v: Json, key: bytes): Option<Json> {
    if v.Obj? then Find(v.members, key) else None
  }
}
