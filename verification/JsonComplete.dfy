/** The automaton accepts every text of the grammar, and reads the value it has. */
module JsonComplete {
  import opened Bytes
  import Utf8
  import opened Json
  import opened JsonGrammar
  import opened JsonSound

  // ---------------------------------------------------------------- numbers

  lemma {:induction false} WholeBack(d: bytes)
    requires Whole(d) && |d| > 1
    ensures Whole(d[..|d| - 1]) && IsDigit(d[|d| - 1])
  {
  }

  lemma {:induction false} IntegerBack(lex: NumLex, raw: bytes) returns (prev: NumLex)
    requires (lex.Minus? || lex.Zero? || lex.Int?) && NumberSoFar(lex, raw) && |raw| > 1
    ensures NumberSoFar(prev, raw[..|raw| - 1]) && StepNum(prev, raw[|raw| - 1]) == Some(lex)
  {
    var n := |raw| - 1;
    if raw[0] == '-' && n == 1 {
      prev := Minus;
      assert lex.Int? ==> raw[1..] == [raw[1]];
    } else {
      prev := Int;
      if Whole(raw) {
        WholeBack(raw);
      } else {
        WholeBack(raw[1..]);
        assert raw[..n][1..] == raw[1..][..n - 1];
      }
    }
  }

  function LexOfInteger(raw: bytes): NumLex {
    if raw == "0" || raw == "-0" then Zero else Int
  }

  lemma {:induction false} LexOfMantissa(m: bytes) returns (lex: NumLex)
    requires IsMantissa(m)
    ensures NumberSoFar(lex, m) && (lex.Zero? || lex.Int? || lex.Frac?)
  {
    lex := if IsInteger(m) then LexOfInteger(m) else Frac;
  }

  lemma {:induction false} NumberBack(lex: NumLex, raw: bytes) returns (prev: NumLex)
    requires NumberSoFar(lex, raw) && |raw| > 1
    ensures NumberSoFar(prev, raw[..|raw| - 1]) && StepNum(prev, raw[|raw| - 1]) == Some(lex)
  {
    var n := |raw| - 1;
    match lex {
      case Dot =>
        var i: bytes :| IsInteger(i) && raw == i + ['.'];
        prev := LexOfInteger(i);
        assert raw[..n] == i;
      case Frac => prev := FractionBack(raw);
      case Exp =>
        var m: bytes, e: bytes :| IsMantissa(m) && IsE(e) && raw == m + e;
        prev := LexOfMantissa(m);
        assert raw[..n] == m;
      case ExpSign =>
        var m: bytes, e: bytes, s: bytes :| IsMantissa(m) && IsE(e) && s != [] && IsSign(s) && raw == m + e + s;
        prev := Exp;
        assert raw[..n] == m + e;
      case ExpDigits => prev := ExponentBack(raw);
      case _ => prev := IntegerBack(lex, raw);
    }
  }

  lemma {:induction false} FractionBack(raw: bytes) returns (prev: NumLex)
    requires NumberSoFar(Frac, raw)
    ensures raw != [] && NumberSoFar(prev, raw[..|raw| - 1]) && StepNum(prev, raw[|raw| - 1]) == Some(Frac)
  {
    var i: bytes, f: bytes :| Fraction(raw, i, f);
    var n := |raw| - 1;
    if |f| == 1 {
      prev := Dot;
      assert raw[..n] == i + ['.'];
    } else {
      prev := Frac;
      assert raw[..n] == i + ['.'] + f[..|f| - 1];
      assert Fraction(raw[..n], i, f[..|f| - 1]);
    }
  }

  lemma {:induction false} ExponentBack(raw: bytes) returns (prev: NumLex)
    requires NumberSoFar(ExpDigits, raw)
    ensures raw != [] && NumberSoFar(prev, raw[..|raw| - 1]) && StepNum(prev, raw[|raw| - 1]) == Some(ExpDigits)
  {
    var m: bytes, e: bytes, s: bytes, d: bytes :| Exponent(raw, m, e, s, d);
    var n := |raw| - 1;
    if |d| > 1 {
      prev := ExpDigits;
      assert raw[..n] == m + e + s + d[..|d| - 1];
      assert Exponent(raw[..n], m, e, s, d[..|d| - 1]);
    } else if s == [] {
      prev := Exp;
      assert raw[..n] == m + e;
    } else {
      prev := ExpSign;
      assert raw[..n] == m + e + s;
    }
  }

  predicate ValueDue(m: Mode) {
    m.Value? || m.FirstItem?
  }

  lemma {:induction false} OneByteNumber(k: Stack, m: Mode, lex: NumLex, raw: bytes)
    requires NumberSoFar(lex, raw) && |raw| == 1 && ValueDue(m)
    ensures Step(At(k, m), raw[0]) == At(k, InNum(raw, lex))
  {
    assert raw == [raw[0]];
  }

  lemma {:induction false} NotEmptyNumber(lex: NumLex, raw: bytes)
    requires NumberSoFar(lex, raw)
    ensures raw != []
  {
  }

  lemma {:induction false} NumberRuns(k: Stack, m: Mode, lex: NumLex, raw: bytes)
    requires NumberSoFar(lex, raw) && ValueDue(m)
    ensures Run(At(k, m), raw) == At(k, InNum(raw, lex))
    decreases |raw|
  {
    NotEmptyNumber(lex, raw);
    RunLast(At(k, m), raw);
    if |raw| == 1 {
      OneByteNumber(k, m, lex, raw);
    } else {
      var prev := NumberBack(lex, raw);
      NumberRuns(k, m, prev, raw[..|raw| - 1]);
      MoreNumber(k, prev, raw, lex);
    }
  }

  lemma {:induction false} RunLast(s: State, t: bytes)
    requires t != []
    ensures Run(s, t) == Step(Run(s, t[..|t| - 1]), t[|t| - 1])
    ensures |t| == 1 ==> Run(s, t) == Step(s, t[0])
  {
    assert t == t[..|t| - 1] + [t[|t| - 1]];
    RunSnoc(s, t[..|t| - 1], t[|t| - 1]);
  }

  lemma {:induction false} MoreNumber(k: Stack, prev: NumLex, raw: bytes, lex: NumLex)
    requires raw != [] && StepNum(prev, raw[|raw| - 1]) == Some(lex)
    ensures Step(At(k, InNum(raw[..|raw| - 1], prev)), raw[|raw| - 1]) == At(k, InNum(raw, lex))
  {
    assert raw == raw[..|raw| - 1] + [raw[|raw| - 1]];
  }

  lemma {:induction false} LexOfNumber(raw: bytes) returns (lex: NumLex)
    requires IsNumber(raw)
    ensures NumberSoFar(lex, raw) && EndsNum(lex)
  {
    if IsMantissa(raw) {
      lex := LexOfMantissa(raw);
    } else {
      lex := ExpDigits;
    }
  }

  // ---------------------------------------------------------------- strings

  /** The string lexer's state inside some string. */
  function In(k: Stack, isKey: bool, acc: bytes, lex: StrLex): State {
    At(k, InStr(isKey, acc, lex))
  }

  lemma {:induction false} ShortRuns(k: Stack, isKey: bool, acc: bytes, u: bytes, c: bytes)
    requires ShortEscape(u, c)
    ensures Run(In(k, isKey, acc, Plain), c) == In(k, isKey, acc + u, Plain)
  {
    assert u == [u[0]] && c == [c[0]] + ([c[1]] + []);
    RunCons(In(k, isKey, acc, Plain), c[0], [c[1]] + []);
    RunCons(In(k, isKey, acc, Escape), c[1], []);
  }

  lemma {:induction false} OneHex(k: Stack, isKey: bool, acc: bytes, left: nat, code: int, high: Option<int>, b: byte)
    requires left > 1 && HexValue(b).Some?
    ensures Step(In(k, isKey, acc, Hex(left, code, high)), b) == In(k, isKey, acc, Hex(left - 1, code * 16 + HexValue(b).value, high))
  {
  }

  lemma {:induction false} HexRuns(k: Stack, isKey: bool, acc: bytes, high: Option<int>, d: bytes)
    requires HexDigits(d) && |d| < 4
    ensures Run(In(k, isKey, acc, Hex(4, 0, high)), d) == In(k, isKey, acc, Hex(4 - |d|, HexOf(d), high))
  {
    if d != [] {
      var n := |d| - 1;
      assert d == d[..n] + [d[n]];
      HexRuns(k, isKey, acc, high, d[..n]);
      RunSnoc(In(k, isKey, acc, Hex(4, 0, high)), d[..n], d[n]);
      OneHex(k, isKey, acc, 4 - n, HexOf(d[..n]), high, d[n]);
    }
  }

  /** `\\u` and four digits. */
  lemma {:induction false} UnitRuns(k: Stack, isKey: bool, acc: bytes, high: Option<int>, d: bytes)
    requires Hex4(d)
    ensures Run(In(k, isKey, acc, Hex(4, 0, high)), d) == match StepHex(acc, HexOf(d), high)
            case StrMore(acc', lex') => In(k, isKey, acc', lex')
            case _ => Fail
  {
    assert d == d[..3] + [d[3]];
    HexRuns(k, isKey, acc, high, d[..3]);
    RunSnoc(In(k, isKey, acc, Hex(4, 0, high)), d[..3], d[3]);
  }

  lemma {:induction false} SlashU(k: Stack, isKey: bool, acc: bytes, rest: bytes)
    ensures Run(In(k, isKey, acc, Plain), ['\\', 'u'] + rest) == Run(In(k, isKey, acc, Hex(4, 0, None)), rest)
    ensures forall lead :: Run(In(k, isKey, acc, LowSlash(lead)), ['\\', 'u'] + rest) == Run(In(k, isKey, acc, Hex(4, 0, Some(lead))), rest)
  {
    assert ['\\', 'u'] + rest == ['\\'] + (['u'] + rest);
    RunCons(In(k, isKey, acc, Plain), '\\', ['u'] + rest);
    RunCons(In(k, isKey, acc, Escape), 'u', rest);
    forall lead ensures Run(In(k, isKey, acc, LowSlash(lead)), ['\\', 'u'] + rest) == Run(In(k, isKey, acc, Hex(4, 0, Some(lead))), rest) {
      RunCons(In(k, isKey, acc, LowSlash(lead)), '\\', ['u'] + rest);
      RunCons(In(k, isKey, acc, LowU(lead)), 'u', rest);
    }
  }

  lemma {:induction false} PairRuns(k: Stack, isKey: bool, acc: bytes, u: bytes, c: bytes, d: bytes, e: bytes)
    requires PairEscape(u, c, d, e)
    ensures Run(In(k, isKey, acc, Plain), c) == In(k, isKey, acc + u, Plain)
  {
    var low := ['\\', 'u'] + e;
    PairParts(c, d, e);
    SlashU(k, isKey, acc, d + low);
    RunAppend(In(k, isKey, acc, Hex(4, 0, None)), d, low);
    UnitRuns(k, isKey, acc, None, d);
    LowRuns(k, isKey, acc, u, HexOf(d), e);
  }

  lemma {:induction false} PairParts(c: bytes, d: bytes, e: bytes)
    requires c == ['\\', 'u'] + d + ['\\', 'u'] + e
    ensures c == ['\\', 'u'] + (d + (['\\', 'u'] + e))
  {
  }

  lemma {:induction false} LowRuns(k: Stack, isKey: bool, acc: bytes, u: bytes, lead: int, e: bytes)
    requires Hex4(e) && 0xD800 <= lead < 0xDC00 && 0xDC00 <= HexOf(e) < 0xE000
    requires u == Utf8.Encode(0x10000 + (lead - 0xD800) * 0x400 + (HexOf(e) - 0xDC00))
    ensures Run(In(k, isKey, acc, LowSlash(lead)), ['\\', 'u'] + e) == In(k, isKey, acc + u, Plain)
  {
    SlashU(k, isKey, acc, e);
    UnitRuns(k, isKey, acc, Some(lead), e);
  }

  lemma {:induction false} CharRuns(k: Stack, isKey: bool, acc: bytes, u: bytes, c: bytes)
    requires CharText(u, c)
    ensures Run(In(k, isKey, acc, Plain), c) == In(k, isKey, acc + u, Plain)
  {
    if PlainChar(u, c) {
      assert u == [c[0]] && c == [c[0]] + [];
      RunCons(In(k, isKey, acc, Plain), c[0], []);
    } else if ShortEscape(u, c) {
      ShortRuns(k, isKey, acc, u, c);
    } else if d :| UnitEscape(u, c, d) {
      SlashU(k, isKey, acc, d);
      UnitRuns(k, isKey, acc, None, d);
    } else {
      var d, e :| PairEscape(u, c, d, e);
      PairRuns(k, isKey, acc, u, c, d, e);
    }
  }

  lemma {:induction false} CharsParts(n: nat, s: bytes, body: bytes) returns (t: bytes, u: bytes, b: bytes, c: bytes)
    requires n > 0 && CharsText(n, s, body)
    ensures CharsText(n - 1, t, b) && CharText(u, c) && s == t + u && body == b + c
  {
    assert LastChar(n, s, body);
    t, u, b, c :| CharsText(n - 1, t, b) && CharText(u, c) && s == t + u && body == b + c;
  }

  lemma {:induction false} CharsRun(k: Stack, isKey: bool, n: nat, s: bytes, body: bytes)
    requires CharsText(n, s, body)
    ensures Run(In(k, isKey, [], Plain), body) == In(k, isKey, s, Plain)
  {
    if n > 0 {
      var t, u, b, c := CharsParts(n, s, body);
      CharsRun(k, isKey, n - 1, t, b);
      CharRuns(k, isKey, t, u, c);
      RunAppend(In(k, isKey, [], Plain), b, c);
    }
  }

  lemma {:induction false} StringRuns(k: Stack, isKey: bool, m: Mode, s: bytes, t: bytes)
    requires StringText(s, t)
    requires if isKey then m.FirstKey? || m.NextKey? else ValueDue(m)
    ensures Run(At(k, m), t) == if isKey then At(k, Colon(s)) else Close(k, Str(s))
  {
    var n: nat, body: bytes :| CharsText(n, s, body) && t == ['"'] + body + ['"'];
    assert t == ['"'] + (body + ['"']);
    RunCons(At(k, m), '"', body + ['"']);
    RunSnoc(In(k, isKey, [], Plain), body, '"');
    CharsRun(k, isKey, n, s, body);
  }

  // ---------------------------------------------------------------- values

  /** A value has been read inside `k`; a number may still wait for its end. */
  ghost predicate Settles(s: State, k: Stack, v: Json) {
    s == Close(k, v) || (v.Num? && exists lex :: EndsNum(lex) && s == At(k, InNum(v.raw, lex)))
  }

  lemma {:induction false} RunThrough(s: State, x: bytes, d: byte, w: bytes)
    ensures Run(s, x + [d] + w) == Run(Step(Run(s, x), d), w)
  {
    RunAppend(s, x + [d], w);
    RunSnoc(s, x, d);
  }

  predicate Ends(d: byte) {
    d == ',' || d == ']' || d == '}' || IsSpace(d)
  }

  lemma {:induction false} SettledStep(s: State, k: Stack, v: Json, d: byte)
    requires Settles(s, k, v) && Ends(d)
    ensures Step(s, d) == StepSettled(Close(k, v), d)
  {
  }

  lemma {:induction false} SpacesSettle(s: State, k: Stack, v: Json, w: bytes)
    requires Settles(s, k, v) && Spaces(w)
    ensures Settles(Run(s, w), k, v)
  {
    if w != [] {
      SettledStep(s, k, v, w[0]);
      assert Step(s, w[0]) == Close(k, v);
      SpacesKeepState(Close(k, v), w[1..]);
    }
  }

  lemma {:induction false} WordRuns(k: Stack, m: Mode, v: Json)
    requires (v.Null? || v.Bool?) && ValueDue(m)
    ensures Run(At(k, m), Word(v)) == Close(k, v)
  {
    var rest: word := if v.Null? then "ull" else if v.b then "rue" else "alse";
    var t := Word(v);
    assert t == [t[0]] + rest;
    RunCons(At(k, m), t[0], rest);
    LettersRun(k, rest, v);
  }

  lemma {:induction false} LettersRun(k: Stack, w: word, v: Json)
    ensures Run(At(k, InLit(w, v)), w) == Close(k, v)
  {
    assert w == [w[0]] + w[1..];
    RunCons(At(k, InLit(w, v)), w[0], w[1..]);
    if |w| > 1 {
      LettersRun(k, w[1..], v);
    }
  }

  lemma {:induction false} NumSettles(k: Stack, m: Mode, raw: bytes)
    requires IsNumber(raw) && ValueDue(m)
    ensures Settles(Run(At(k, m), raw), k, Num(raw))
  {
    var lex := LexOfNumber(raw);
    NumberRuns(k, m, lex, raw);
  }

  lemma {:induction false} DerivesRuns(k: Stack, m: Mode, v: Json, t: bytes)
    requires Derives(v, t) && ValueDue(m)
    ensures Settles(Run(At(k, m), t), k, v)
    decreases v, 5
  {
    match v {
      case Null => WordRuns(k, m, v);
      case Bool(_) => WordRuns(k, m, v);
      case Num(raw) => NumSettles(k, m, raw);
      case Str(s) => StringRuns(k, false, m, s, t);
      case Arr(items) =>
        var b: bytes :| ItemsText(items, b) && t == ['['] + b + [']'];
        ArrayRuns(k, m, items, b, t);
      case Obj(members) =>
        var b: bytes :| MembersText(members, b) && t == ['{'] + b + ['}'];
        ObjectRuns(k, m, members, b, t);
    }
  }

  lemma {:induction false} ElemRuns(k: Stack, m: Mode, v: Json, e: bytes)
    requires Elem(v, e) && ValueDue(m)
    ensures Settles(Run(At(k, m), e), k, v)
    decreases v, 6
  {
    var t: bytes, w: bytes :| Derives(v, t) && Spaces(w) && e == t + w;
    DerivesRuns(k, m, v, t);
    RunAppend(At(k, m), t, w);
    SpacesSettle(Run(At(k, m), t), k, v, w);
  }

  function DueIn(items: seq<Json>): Mode {
    if items == [] then FirstItem else Value
  }

  lemma {:induction false} ItemsCommaRuns(k: Stack, items: seq<Json>, b: bytes)
    requires ItemsComma(items, b)
    ensures Run(At(ArrFrame([], k), FirstItem), b) == At(ArrFrame(items, k), DueIn(items))
    decreases items, 0
  {
    var s := At(ArrFrame([], k), FirstItem);
    if items == [] {
      SpacesKeepState(s, b);
    } else {
      var a, e, w := ItemsCommaParts(items, b);
      ItemRuns(k, items, a, e);
      RunThrough(s, a + e, ',', w);
      ItemThen(Run(s, a + e), k, items, ',');
      SpacesKeepState(At(ArrFrame(items, k), Value), w);
    }
  }

  lemma {:induction false} ClosedItem(k: Stack, items: seq<Json>)
    requires items != []
    ensures Close(ArrFrame(items[..|items| - 1], k), items[|items| - 1]) == At(ArrFrame(items, k), After)
  {
    assert items[..|items| - 1] + [items[|items| - 1]] == items;
  }

  lemma {:induction false} ItemThen(s: State, k: Stack, items: seq<Json>, d: byte)
    requires items != [] && Settles(s, ArrFrame(items[..|items| - 1], k), items[|items| - 1])
    ensures d == ',' ==> Step(s, d) == At(ArrFrame(items, k), Value)
    ensures d == ']' ==> Step(s, d) == Close(k, Arr(items))
  {
    ClosedItem(k, items);
    if d == ',' || d == ']' {
      SettledStep(s, ArrFrame(items[..|items| - 1], k), items[|items| - 1], d);
    }
  }

  lemma {:induction false} ItemRuns(k: Stack, items: seq<Json>, a: bytes, e: bytes)
    requires items != [] && ItemsComma(items[..|items| - 1], a) && Elem(items[|items| - 1], e)
    ensures Settles(Run(At(ArrFrame([], k), FirstItem), a + e), ArrFrame(items[..|items| - 1], k), items[|items| - 1])
    decreases items, 0, 0
  {
    var n := |items| - 1;
    ItemsCommaRuns(k, items[..n], a);
    RunAppend(At(ArrFrame([], k), FirstItem), a, e);
    ElemRuns(ArrFrame(items[..n], k), DueIn(items[..n]), items[n], e);
  }

  lemma {:induction false} ArrayRuns(k: Stack, m: Mode, items: seq<Json>, b: bytes, t: bytes)
    requires ItemsText(items, b) && t == ['['] + b + [']'] && ValueDue(m)
    ensures Run(At(k, m), t) == Close(k, Arr(items))
    decreases items, 2
  {
    var s := At(ArrFrame([], k), FirstItem);
    assert t == ['['] + (b + [']']);
    RunCons(At(k, m), '[', b + [']']);
    RunSnoc(s, b, ']');
    if items == [] {
      SpacesKeepState(s, b);
    } else {
      ItemsTextRuns(k, items, b);
      ItemThen(Run(s, b), k, items, ']');
    }
  }

  lemma {:induction false} ItemsTextRuns(k: Stack, items: seq<Json>, b: bytes)
    requires items != [] && ItemsText(items, b)
    ensures Settles(Run(At(ArrFrame([], k), FirstItem), b), ArrFrame(items[..|items| - 1], k), items[|items| - 1])
    decreases items, 1
  {
    var a, e := ItemsTextParts(items, b);
    ItemRuns(k, items, a, e);
  }

  lemma {:induction false} KeyColonRuns(k: Stack, members: seq<Member>, m: Mode, key: bytes, c: bytes)
    requires KeyColon(key, c) && (m.FirstKey? || m.NextKey?)
    ensures Run(At(ObjFrame(members, [], k), m), c) == At(ObjFrame(members, key, k), Value)
  {
    var q: bytes, w: bytes, x: bytes :| StringText(key, q) && Spaces(w) && Spaces(x) && c == q + w + [':'] + x;
    var s := At(ObjFrame(members, [], k), m);
    RunAppend(s, q + w + [':'], x);
    RunSnoc(s, q + w, ':');
    RunAppend(s, q, w);
    StringRuns(ObjFrame(members, [], k), true, m, key, q);
    SpacesKeepState(At(ObjFrame(members, [], k), Colon(key)), w);
    SpacesKeepState(At(ObjFrame(members, key, k), Value), x);
  }

  lemma {:induction false} FieldParts(m: Member, f: bytes) returns (c: bytes, e: bytes)
    requires Field(m, f)
    ensures KeyColon(m.key, c) && Elem(m.value, e) && f == c + e
  {
    var q: bytes, w: bytes, x: bytes;
    q, w, x, e :| StringText(m.key, q) && Spaces(w) && Spaces(x) && Elem(m.value, e) && f == q + w + [':'] + x + e;
    c := q + w + [':'] + x;
  }

  lemma {:induction false} FieldRuns(k: Stack, members: seq<Member>, m: Mode, x: Member, f: bytes)
    requires Field(x, f) && (m.FirstKey? || m.NextKey?)
    ensures Settles(Run(At(ObjFrame(members, [], k), m), f), ObjFrame(members, x.key, k), x.value)
    decreases x, 7
  {
    var c, e := FieldParts(x, f);
    RunAppend(At(ObjFrame(members, [], k), m), c, e);
    KeyColonRuns(k, members, m, x.key, c);
    ElemRuns(ObjFrame(members, x.key, k), Value, x.value, e);
  }

  function KeyDueIn(members: seq<Member>): Mode {
    if members == [] then FirstKey else NextKey
  }

  lemma {:induction false} ClosedMember(k: Stack, members: seq<Member>)
    requires members != []
    ensures Close(ObjFrame(members[..|members| - 1], members[|members| - 1].key, k), members[|members| - 1].value)
         == At(ObjFrame(members, [], k), After)
  {
    assert members[..|members| - 1] + [members[|members| - 1]] == members;
    assert Member(members[|members| - 1].key, members[|members| - 1].value) == members[|members| - 1];
  }

  lemma {:induction false} MemberThen(s: State, k: Stack, members: seq<Member>, d: byte)
    requires members != [] && Settles(s, ObjFrame(members[..|members| - 1], members[|members| - 1].key, k), members[|members| - 1].value)
    ensures d == ',' ==> Step(s, d) == At(ObjFrame(members, [], k), NextKey)
    ensures d == '}' ==> Step(s, d) == Close(k, Obj(members))
  {
    var n := |members| - 1;
    ClosedMember(k, members);
    if d == ',' || d == '}' {
      SettledStep(s, ObjFrame(members[..n], members[n].key, k), members[n].value, d);
    }
  }

  lemma {:induction false} MemberRuns(k: Stack, members: seq<Member>, a: bytes, f: bytes)
    requires members != [] && MembersComma(members[..|members| - 1], a) && Field(members[|members| - 1], f)
    ensures Settles(Run(At(ObjFrame([], [], k), FirstKey), a + f),
                    ObjFrame(members[..|members| - 1], members[|members| - 1].key, k), members[|members| - 1].value)
    decreases members, 0, 0
  {
    var n := |members| - 1;
    MembersCommaRuns(k, members[..n], a);
    RunAppend(At(ObjFrame([], [], k), FirstKey), a, f);
    FieldRuns(k, members[..n], KeyDueIn(members[..n]), members[n], f);
  }

  lemma {:induction false} MembersCommaRuns(k: Stack, members: seq<Member>, b: bytes)
    requires MembersComma(members, b)
    ensures Run(At(ObjFrame([], [], k), FirstKey), b) == At(ObjFrame(members, [], k), KeyDueIn(members))
    decreases members, 0
  {
    var s := At(ObjFrame([], [], k), FirstKey);
    if members == [] {
      SpacesKeepState(s, b);
    } else {
      var a, f, w := MembersCommaParts(members, b);
      MemberRuns(k, members, a, f);
      RunThrough(s, a + f, ',', w);
      MemberThen(Run(s, a + f), k, members, ',');
      SpacesKeepState(At(ObjFrame(members, [], k), NextKey), w);
    }
  }

  lemma {:induction false} ObjectRuns(k: Stack, m: Mode, members: seq<Member>, b: bytes, t: bytes)
    requires MembersText(members, b) && t == ['{'] + b + ['}'] && ValueDue(m)
    ensures Run(At(k, m), t) == Close(k, Obj(members))
    decreases members, 2
  {
    var s := At(ObjFrame([], [], k), FirstKey);
    assert t == ['{'] + (b + ['}']);
    RunCons(At(k, m), '{', b + ['}']);
    RunSnoc(s, b, '}');
    if members == [] {
      SpacesKeepState(s, b);
    } else {
      MembersTextRuns(k, members, b);
      MemberThen(Run(s, b), k, members, '}');
    }
  }

  lemma {:induction false} MembersTextRuns(k: Stack, members: seq<Member>, b: bytes)
    requires members != [] && MembersText(members, b)
    ensures Settles(Run(At(ObjFrame([], [], k), FirstKey), b),
                    ObjFrame(members[..|members| - 1], members[|members| - 1].key, k), members[|members| - 1].value)
    decreases members, 1
  {
    var a, f := MembersTextParts(members, b);
    MemberRuns(k, members, a, f);
  }

  /** Every JSON text parses to its value. */
  lemma {:induction false} TextIsParsed(text: bytes, v: Json)
    requires TextOf(v, text)
    ensures Parse(text) == Some(v)
  {
    var p: bytes, e: bytes :| Spaces(p) && Elem(v, e) && text == p + e;
    RunAppend(Init, p, e);
    SpacesKeepState(Init, p);
    ElemRuns(Bottom, Value, v, e);
  }

  /** Parsing is exactly the grammar: a text parses to a value if and only if it is
      a JSON text of it, so that no text has two values. */
  lemma ParsesTheGrammar(text: bytes, v: Json)
    ensures Parse(text) == Some(v) <==> TextOf(v, text)
  {
    if Parse(text) == Some(v) {
      ParsedIsText(text, v);
    }
    if TextOf(v, text) {
      TextIsParsed(text, v);
    }
  }
}
