/** The automaton accepts only texts of the grammar: what it has read so far is
    always the beginning of one, and the values it builds are those the text has. */
module JsonSound {
  import opened Bytes
  import Utf8
  import opened Json
  import opened JsonGrammar

  // ---------------------------------------------------------------- numbers

  /** What has been read of a number. */
  ghost predicate NumberSoFar(lex: NumLex, raw: bytes) {
    match lex
    case Minus => raw == "-"
    case Zero => raw == "0" || raw == "-0"
    case Int => Whole(raw) || (raw != [] && raw[0] == '-' && Whole(raw[1..]))
    case Dot => exists i: bytes :: IsInteger(i) && raw == i + ['.']
    case Frac => exists i: bytes, f: bytes :: Fraction(raw, i, f)
    case Exp => exists m: bytes, e: bytes :: IsMantissa(m) && IsE(e) && raw == m + e
    case ExpSign => exists m: bytes, e: bytes, s: bytes :: IsMantissa(m) && IsE(e) && s != [] && IsSign(s) && raw == m + e + s
    case ExpDigits => exists m: bytes, e: bytes, s: bytes, d: bytes :: Exponent(raw, m, e, s, d)
  }

  lemma {:induction false} WholeSnoc(d: bytes, b: byte)
    requires Whole(d) && IsDigit(b)
    ensures Whole(d + [b])
  {
  }

  lemma {:induction false} DigitsSnoc(d: bytes, b: byte)
    requires AllDigits(d) && IsDigit(b)
    ensures Digits(d + [b])
  {
  }

  lemma {:induction false} IntegerGrows(lex: NumLex, raw: bytes, b: byte)
    requires (lex.Minus? || lex.Zero? || lex.Int?) && NumberSoFar(lex, raw) && StepNum(lex, b).Some?
    ensures NumberSoFar(StepNum(lex, b).value, raw + [b])
  {
    match lex {
      case Minus =>
        assert raw + [b] == ['-', b] && (raw + [b])[1..] == [b];
      case Zero =>
        assert IsInteger(raw);
      case Int =>
        assert IsInteger(raw);
        if IsDigit(b) {
          if Whole(raw) {
            WholeSnoc(raw, b);
          } else {
            WholeSnoc(raw[1..], b);
            assert (raw + [b])[1..] == raw[1..] + [b];
          }
        }
    }
  }

  lemma {:induction false} NumberGrows(lex: NumLex, raw: bytes, b: byte)
    requires NumberSoFar(lex, raw) && StepNum(lex, b).Some?
    ensures NumberSoFar(StepNum(lex, b).value, raw + [b])
  {
    match lex {
      case Dot =>
        var i: bytes :| IsInteger(i) && raw == i + ['.'];
        DigitsSnoc([], b);
        assert Fraction(raw + [b], i, [] + [b]);
      case Frac =>
        var i: bytes, f: bytes :| Fraction(raw, i, f);
        if IsDigit(b) {
          DigitsSnoc(f, b);
          Regroup(i + ['.'], f, [b]);
          assert Fraction(raw + [b], i, f + [b]);
        } else {
          assert IsMantissa(raw);
        }
      case Exp =>
        var m: bytes, e: bytes :| IsMantissa(m) && IsE(e) && raw == m + e;
        if IsDigit(b) {
          DigitsSnoc([], b);
          assert Exponent(raw + [b], m, e, [], [] + [b]);
        } else {
          assert IsSign([b]) && raw + [b] == m + e + [b];
        }
      case ExpSign =>
        var m: bytes, e: bytes, s: bytes :| IsMantissa(m) && IsE(e) && s != [] && IsSign(s) && raw == m + e + s;
        DigitsSnoc([], b);
        assert Exponent(raw + [b], m, e, s, [] + [b]);
      case ExpDigits =>
        var m: bytes, e: bytes, s: bytes, d: bytes :| Exponent(raw, m, e, s, d);
        DigitsSnoc(d, b);
        Regroup(m + e + s, d, [b]);
        assert Exponent(raw + [b], m, e, s, d + [b]);
      case _ => IntegerGrows(lex, raw, b);
    }
  }

  lemma {:induction false} NumberEnds(lex: NumLex, raw: bytes)
    requires NumberSoFar(lex, raw) && EndsNum(lex)
    ensures Derives(Num(raw), raw)
  {
    if lex.Frac? {
      var i: bytes, f: bytes :| Fraction(raw, i, f);
      assert IsMantissa(raw);
    } else if lex.ExpDigits? {
      var m: bytes, e: bytes, s: bytes, d: bytes :| Exponent(raw, m, e, s, d);
    } else {
      assert IsInteger(raw) && IsMantissa(raw);
    }
  }

  // ---------------------------------------------------------------- strings

  lemma {:induction false} CharsSnoc(n: nat, t: bytes, b: bytes, u: bytes, c: bytes, s: bytes, body: bytes)
    requires CharsText(n, t, b) && CharText(u, c) && s == t + u && body == b + c
    ensures CharsText(n + 1, s, body)
  {
    assert LastChar(n + 1, s, body);
  }

  /** What has been read of an escape. */
  ghost predicate EscapeSoFar(lex: StrLex, c: bytes) {
    match lex
    case Plain => c == []
    case Escape => c == ['\\']
    case Hex(left, code, high) =>
      if high.None? then exists d: bytes :: UnitSoFar(left, code, d) && c == ['\\', 'u'] + d
      else exists h: bytes, d: bytes :: HighUnit(high.value, h) && UnitSoFar(left, code, d) && c == ['\\', 'u'] + h + ['\\', 'u'] + d
    case LowSlash(lead) => exists h: bytes :: HighUnit(lead, h) && c == ['\\', 'u'] + h
    case LowU(lead) => exists h: bytes :: HighUnit(lead, h) && c == ['\\', 'u'] + h + ['\\']
  }

  predicate UnitSoFar(left: nat, code: int, d: bytes) {
    1 <= left <= 4 && |d| == 4 - left && HexDigits(d) && HexOf(d) == code
  }

  predicate HighUnit(lead: int, h: bytes) {
    Hex4(h) && HexOf(h) == lead && 0xD800 <= lead < 0xDC00
  }

  ghost predicate StringSoFar(acc: bytes, lex: StrLex, body: bytes) {
    exists n: nat, b: bytes, c: bytes :: CharsText(n, acc, b) && EscapeSoFar(lex, c) && body == b + c
  }

  lemma {:induction false} HexGrows(d: bytes, b: byte)
    requires HexDigits(d) && HexValue(b).Some?
    ensures HexDigits(d + [b]) && HexOf(d + [b]) == HexOf(d) * 16 + HexValue(b).value
  {
    assert (d + [b])[..|d|] == d;
  }

  lemma {:induction false} PairGrows(left: nat, code: int, high: int, c: bytes, b: byte)
    requires EscapeSoFar(Hex(left, code, Some(high)), c) && left > 1 && HexValue(b).Some?
    ensures EscapeSoFar(Hex(left - 1, code * 16 + HexValue(b).value, Some(high)), c + [b])
  {
    var h: bytes, d: bytes :| HighUnit(high, h) && UnitSoFar(left, code, d) && c == ['\\', 'u'] + h + ['\\', 'u'] + d;
    HexGrows(d, b);
    Regroup(['\\', 'u'] + h + ['\\', 'u'], d, [b]);
    assert UnitSoFar(left - 1, HexOf(d + [b]), d + [b]);
  }

  /** A step that stays inside the escape. */
  lemma {:induction false} EscapeGrows(acc: bytes, lex: StrLex, c: bytes, b: byte)
    requires EscapeSoFar(lex, c) && StepStr(acc, lex, b).StrMore? && StepStr(acc, lex, b).acc == acc && !StepStr(acc, lex, b).lex.Plain?
    ensures EscapeSoFar(StepStr(acc, lex, b).lex, c + [b])
  {
    match lex {
      case Plain =>
      case Escape =>
        assert UnitSoFar(4, 0, []) && c + [b] == ['\\', 'u'] + [];
      case Hex(left, code, high) =>
        if high.None? {
          var d: bytes :| UnitSoFar(left, code, d) && c == ['\\', 'u'] + d;
          HexGrows(d, b);
          Regroup(['\\', 'u'], d, [b]);
          assert left > 1 ==> UnitSoFar(left - 1, HexOf(d + [b]), d + [b]);
          assert left == 1 ==> HighUnit(HexOf(d + [b]), d + [b]);
        } else {
          PairGrows(left, code, high.value, c, b);
        }
      case LowSlash(lead) =>
        var h: bytes :| HighUnit(lead, h) && c == ['\\', 'u'] + h;
      case LowU(lead) =>
        var h: bytes :| HighUnit(lead, h) && c == ['\\', 'u'] + h + ['\\'];
        assert UnitSoFar(4, 0, []) && c + [b] == ['\\', 'u'] + h + ['\\', 'u'] + [];
    }
  }

  lemma {:induction false} ShortEnds(acc: bytes, b: byte) returns (u: bytes)
    requires StepStr(acc, Escape, b).StrMore? && StepStr(acc, Escape, b).lex.Plain?
    ensures CharText(u, ['\\'] + [b]) && StepStr(acc, Escape, b).acc == acc + u
  {
    u := StepStr([], Escape, b).acc;
    assert ShortEscape(u, ['\\'] + [b]);
  }

  lemma {:induction false} UnitEnds(acc: bytes, code: int, c: bytes, b: byte) returns (u: bytes)
    requires EscapeSoFar(Hex(1, code, None), c) && HexValue(b).Some? && Utf8.IsScalar(code * 16 + HexValue(b).value)
    ensures CharText(u, c + [b]) && u == Utf8.Encode(code * 16 + HexValue(b).value)
  {
    var d: bytes :| UnitSoFar(1, code, d) && c == ['\\', 'u'] + d;
    HexGrows(d, b);
    u := Utf8.Encode(HexOf(d + [b]));
    Regroup(['\\', 'u'], d, [b]);
    assert UnitEscape(u, c + [b], d + [b]);
  }

  lemma {:induction false} PairEnds(acc: bytes, code: int, high: int, c: bytes, b: byte) returns (u: bytes)
    requires EscapeSoFar(Hex(1, code, Some(high)), c) && HexValue(b).Some? && 0xDC00 <= code * 16 + HexValue(b).value < 0xE000
    ensures 0xD800 <= high < 0xDC00
    ensures CharText(u, c + [b]) && u == Utf8.Encode(0x10000 + (high - 0xD800) * 0x400 + (code * 16 + HexValue(b).value - 0xDC00))
  {
    var h: bytes, d: bytes :| HighUnit(high, h) && UnitSoFar(1, code, d) && c == ['\\', 'u'] + h + ['\\', 'u'] + d;
    HexGrows(d, b);
    u := Utf8.Encode(0x10000 + (HexOf(h) - 0xD800) * 0x400 + (HexOf(d + [b]) - 0xDC00));
    Regroup(['\\', 'u'] + h + ['\\', 'u'], d, [b]);
    assert PairEscape(u, c + [b], h, d + [b]);
  }

  /** A step that completes a character. */
  lemma {:induction false} CharEnds(acc: bytes, lex: StrLex, c: bytes, b: byte) returns (u: bytes)
    requires EscapeSoFar(lex, c) && StepStr(acc, lex, b).StrMore? && StepStr(acc, lex, b).lex.Plain?
    ensures CharText(u, c + [b]) && StepStr(acc, lex, b).acc == acc + u
  {
    match lex {
      case Plain =>
        u := [b];
        assert PlainChar(u, c + [b]);
      case Escape =>
        u := ShortEnds(acc, b);
      case Hex(left, code, high) =>
        if high.None? {
          u := UnitEnds(acc, code, c, b);
        } else {
          u := PairEnds(acc, code, high.value, c, b);
        }
    }
  }

  /** A step inside a string either completes a character or stays inside one. */
  lemma {:induction false} StepStrKinds(acc: bytes, lex: StrLex, b: byte)
    requires StepStr(acc, lex, b).StrMore? && !StepStr(acc, lex, b).lex.Plain?
    ensures StepStr(acc, lex, b).acc == acc
  {
  }

  lemma {:induction false} StringSoFarAs(n: nat, acc: bytes, lex: StrLex, b: bytes, c: bytes, body: bytes)
    requires CharsText(n, acc, b) && EscapeSoFar(lex, c) && body == b + c
    ensures StringSoFar(acc, lex, body)
  {
  }

  lemma {:induction false} StringParts(acc: bytes, lex: StrLex, body: bytes) returns (n: nat, a: bytes, c: bytes)
    requires StringSoFar(acc, lex, body)
    ensures CharsText(n, acc, a) && EscapeSoFar(lex, c) && body == a + c
  {
    n, a, c :| CharsText(n, acc, a) && EscapeSoFar(lex, c) && body == a + c;
  }

  lemma {:induction false} CharacterDone(n: nat, acc: bytes, a: bytes, lex: StrLex, c: bytes, b: byte)
    requires CharsText(n, acc, a) && EscapeSoFar(lex, c) && StepStr(acc, lex, b).StrMore? && StepStr(acc, lex, b).lex.Plain?
    ensures StringSoFar(StepStr(acc, lex, b).acc, Plain, a + (c + [b]))
  {
    var u := CharEnds(acc, lex, c, b);
    CharsSnoc(n, acc, a, u, c + [b], acc + u, a + (c + [b]));
    StringSoFarAs(n + 1, acc + u, Plain, a + (c + [b]), [], a + (c + [b]));
  }

  lemma {:induction false} StringGrows(acc: bytes, lex: StrLex, body: bytes, b: byte)
    requires StringSoFar(acc, lex, body) && StepStr(acc, lex, b).StrMore?
    ensures StringSoFar(StepStr(acc, lex, b).acc, StepStr(acc, lex, b).lex, body + [b])
  {
    var n, a, c := StringParts(acc, lex, body);
    Regroup(a, c, [b]);
    if StepStr(acc, lex, b).lex.Plain? {
      CharacterDone(n, acc, a, lex, c, b);
    } else {
      StepStrKinds(acc, lex, b);
      EscapeGrows(acc, lex, c, b);
      StringSoFarAs(n, acc, StepStr(acc, lex, b).lex, a, c + [b], body + [b]);
    }
  }

  lemma {:induction false} StringEnds(acc: bytes, lex: StrLex, body: bytes, b: byte)
    requires StringSoFar(acc, lex, body) && StepStr(acc, lex, b).StrEnd?
    ensures StringText(acc, ['"'] + body + [b])
  {
    var n: nat, a: bytes, c: bytes :| CharsText(n, acc, a) && EscapeSoFar(lex, c) && body == a + c;
    assert body == a;
  }

  // ---------------------------------------------------------------- places in a text

  /** A text up to where a value may start inside `k`. */
  ghost predicate Lead(k: Stack, a: bytes)
    decreases k, 0
  {
    match k
    case Bottom => Spaces(a)
    case ArrFrame(items, below) => exists p: bytes, b: bytes :: Lead(below, p) && ItemsComma(items, b) && a == p + ['['] + b
    case ObjFrame(members, key, below) =>
      exists p: bytes, c: bytes :: KeyPlace(members, below, p) && KeyColon(key, c) && a == p + c
  }

  /** A text up to where a key may start in an object with these members. */
  ghost predicate KeyPlace(members: seq<Member>, below: Stack, a: bytes)
    decreases below, 1
  {
    exists p: bytes, b: bytes :: Lead(below, p) && MembersComma(members, b) && a == p + ['{'] + b
  }

  /** A text up to behind the last of these items. */
  ghost predicate ItemPlace(items: seq<Json>, below: Stack, a: bytes) {
    items != [] && exists p: bytes, b: bytes :: Lead(below, p) && ItemsText(items, b) && a == p + ['['] + b
  }

  ghost predicate MemberPlace(members: seq<Member>, below: Stack, a: bytes) {
    members != [] && exists p: bytes, b: bytes :: Lead(below, p) && MembersText(members, b) && a == p + ['{'] + b
  }

  ghost predicate AfterPlace(k: Stack, a: bytes) {
    match k
    case Bottom => false
    case ArrFrame(items, below) => ItemPlace(items, below, a)
    case ObjFrame(members, _, below) => MemberPlace(members, below, a)
  }

  ghost predicate KeyEnd(k: Stack, key: bytes, a: bytes) {
    k.ObjFrame? && exists p: bytes, q: bytes, w: bytes ::
      KeyPlace(k.members, k.below, p) && StringText(key, q) && Spaces(w) && a == p + q + w
  }

  ghost predicate InString(k: Stack, isKey: bool, acc: bytes, lex: StrLex, a: bytes) {
    && (isKey ==> k.ObjFrame?)
    && exists p: bytes, body: bytes ::
         (if isKey then KeyPlace(k.members, k.below, p) else Lead(k, p)) && StringSoFar(acc, lex, body) && a == p + ['"'] + body
  }

  ghost predicate InNumber(k: Stack, raw: bytes, lex: NumLex, a: bytes) {
    exists p: bytes :: Lead(k, p) && NumberSoFar(lex, raw) && a == p + raw
  }

  ghost predicate InWord(k: Stack, rest: bytes, v: Json, a: bytes) {
    exists p: bytes, w: bytes :: Lead(k, p) && rest != [] && w + rest == Word(v) && a == p + w
  }

  /** `a` is the beginning of a text that leaves the automaton in `s`. */
  ghost predicate Trace(s: State, a: bytes) {
    s.At? && match s.mode
      case Value => Lead(s.stack, a)
      case FirstItem => s.stack.ArrFrame? && s.stack.items == [] && Lead(s.stack, a)
      case FirstKey => s.stack.ObjFrame? && s.stack.members == [] && KeyPlace([], s.stack.below, a)
      case NextKey => s.stack.ObjFrame? && KeyPlace(s.stack.members, s.stack.below, a)
      case Colon(key) => KeyEnd(s.stack, key, a)
      case After => AfterPlace(s.stack, a)
      case Done(v) => s.stack == Bottom && TextOf(v, a)
      case InStr(isKey, acc, lex) => InString(s.stack, isKey, acc, lex, a)
      case InNum(raw, lex) => InNumber(s.stack, raw, lex, a)
      case InLit(rest, v) => InWord(s.stack, rest, v, a)
  }

  // ---------------------------------------------------------------- lists

  lemma {:induction false} Spliced(p: bytes, x: bytes, b: bytes, c: bytes, t: bytes, a: bytes, at: bytes)
    requires a == p + x + b + c && at == a + t
    ensures at == p + x + (b + (c + t))
  {
  }

  lemma {:induction false} Extended(p: bytes, x: bytes, b: bytes, t: bytes, a: bytes, at: bytes)
    requires a == p + x + b && at == a + t
    ensures at == p + x + (b + t)
  {
  }

  lemma {:induction false} Enclosed(p: bytes, x: bytes, b: bytes, y: bytes, a: bytes)
    requires a == p + x + b + y
    ensures a == p + (x + b + y)
  {
  }

  lemma {:induction false} ItemsTextAs(items: seq<Json>, a: bytes, e: bytes, b: bytes)
    requires items != [] && ItemsComma(items[..|items| - 1], a) && Elem(items[|items| - 1], e) && b == a + e
    ensures ItemsText(items, b)
  {
  }

  lemma {:induction false} ItemsTextParts(items: seq<Json>, b: bytes) returns (a: bytes, e: bytes)
    requires items != [] && ItemsText(items, b)
    ensures ItemsComma(items[..|items| - 1], a) && Elem(items[|items| - 1], e) && b == a + e
  {
    a, e :| ItemsComma(items[..|items| - 1], a) && Elem(items[|items| - 1], e) && b == a + e;
  }

  lemma {:induction false} ItemsCommaAs(items: seq<Json>, a: bytes, e: bytes, w: bytes, b: bytes)
    requires items != [] && ItemsComma(items[..|items| - 1], a) && Elem(items[|items| - 1], e) && Spaces(w)
    requires b == a + e + [','] + w
    ensures ItemsComma(items, b)
  {
  }

  lemma {:induction false} MembersTextAs(members: seq<Member>, a: bytes, f: bytes, b: bytes)
    requires members != [] && MembersComma(members[..|members| - 1], a) && Field(members[|members| - 1], f) && b == a + f
    ensures MembersText(members, b)
  {
  }

  lemma {:induction false} MembersTextParts(members: seq<Member>, b: bytes) returns (a: bytes, f: bytes)
    requires members != [] && MembersText(members, b)
    ensures MembersComma(members[..|members| - 1], a) && Field(members[|members| - 1], f) && b == a + f
  {
    a, f :| MembersComma(members[..|members| - 1], a) && Field(members[|members| - 1], f) && b == a + f;
  }

  // ---------------------------------------------------------------- white space

  lemma {:induction false} SpacesSnoc(w: bytes, b: byte)
    requires Spaces(w) && IsSpace(b)
    ensures Spaces(w + [b])
  {
  }

  lemma {:induction false} ElemSpace(v: Json, e: bytes, b: byte)
    requires Elem(v, e) && IsSpace(b)
    ensures Elem(v, e + [b])
  {
    var t: bytes, w: bytes :| Derives(v, t) && Spaces(w) && e == t + w;
    SpacesSnoc(w, b);
    Regroup(t, w, [b]);
  }

  lemma {:induction false} ItemsCommaParts(items: seq<Json>, b: bytes) returns (a: bytes, e: bytes, w: bytes)
    requires items != [] && ItemsComma(items, b)
    ensures ItemsComma(items[..|items| - 1], a) && Elem(items[|items| - 1], e) && Spaces(w) && b == a + e + [','] + w
  {
    a, e, w :| ItemsComma(items[..|items| - 1], a) && Elem(items[|items| - 1], e) && Spaces(w) && b == a + e + [','] + w;
  }

  lemma {:induction false} MembersCommaParts(members: seq<Member>, b: bytes) returns (a: bytes, f: bytes, w: bytes)
    requires members != [] && MembersComma(members, b)
    ensures MembersComma(members[..|members| - 1], a) && Field(members[|members| - 1], f) && Spaces(w) && b == a + f + [','] + w
  {
    a, f, w :| MembersComma(members[..|members| - 1], a) && Field(members[|members| - 1], f) && Spaces(w) && b == a + f + [','] + w;
  }

  lemma {:induction false} ItemsCommaSpace(items: seq<Json>, a: bytes, b: byte)
    requires ItemsComma(items, a) && IsSpace(b)
    ensures ItemsComma(items, a + [b])
  {
    if items == [] {
      SpacesSnoc(a, b);
    } else {
      var x, e, w := ItemsCommaParts(items, a);
      SpacesSnoc(w, b);
      ItemsCommaAs(items, x, e, w + [b], a + [b]);
    }
  }

  lemma {:induction false} MembersCommaSpace(members: seq<Member>, a: bytes, b: byte)
    requires MembersComma(members, a) && IsSpace(b)
    ensures MembersComma(members, a + [b])
  {
    if members == [] {
      SpacesSnoc(a, b);
    } else {
      var x, f, w := MembersCommaParts(members, a);
      SpacesSnoc(w, b);
      MembersCommaAs(members, x, f, w + [b], a + [b]);
    }
  }

  lemma {:induction false} MembersCommaAs(members: seq<Member>, a: bytes, f: bytes, w: bytes, b: bytes)
    requires members != [] && MembersComma(members[..|members| - 1], a) && Field(members[|members| - 1], f) && Spaces(w)
    requires b == a + f + [','] + w
    ensures MembersComma(members, b)
  {
  }

  lemma {:induction false} ItemsTextSpace(items: seq<Json>, a: bytes, b: byte)
    requires items != [] && ItemsText(items, a) && IsSpace(b)
    ensures ItemsText(items, a + [b])
  {
    var x, e := ItemsTextParts(items, a);
    ElemSpace(items[|items| - 1], e, b);
    ItemsTextAs(items, x, e + [b], a + [b]);
  }

  lemma {:induction false} FieldSpace(m: Member, f: bytes, b: byte)
    requires Field(m, f) && IsSpace(b)
    ensures Field(m, f + [b])
  {
    var q: bytes, w: bytes, x: bytes, e: bytes :|
      StringText(m.key, q) && Spaces(w) && Spaces(x) && Elem(m.value, e) && f == q + w + [':'] + x + e;
    ElemSpace(m.value, e, b);
    Regroup(q + w + [':'] + x, e, [b]);
  }

  lemma {:induction false} MembersTextSpace(members: seq<Member>, a: bytes, b: byte)
    requires members != [] && MembersText(members, a) && IsSpace(b)
    ensures MembersText(members, a + [b])
  {
    var x, f := MembersTextParts(members, a);
    FieldSpace(members[|members| - 1], f, b);
    MembersTextAs(members, x, f + [b], a + [b]);
  }

  lemma {:induction false} KeyPlaceSpace(members: seq<Member>, below: Stack, a: bytes, b: byte)
    requires KeyPlace(members, below, a) && IsSpace(b)
    ensures KeyPlace(members, below, a + [b])
  {
    var p: bytes, x: bytes :| Lead(below, p) && MembersComma(members, x) && a == p + ['{'] + x;
    MembersCommaSpace(members, x, b);
    Regroup(p + ['{'], x, [b]);
  }

  lemma {:induction false} KeyColonSpace(key: bytes, c: bytes, b: byte)
    requires KeyColon(key, c) && IsSpace(b)
    ensures KeyColon(key, c + [b])
  {
    var q: bytes, w: bytes, x: bytes :| StringText(key, q) && Spaces(w) && Spaces(x) && c == q + w + [':'] + x;
    SpacesSnoc(x, b);
    Regroup(q + w + [':'], x, [b]);
  }

  lemma {:induction false} LeadSpace(k: Stack, a: bytes, b: byte)
    requires Lead(k, a) && IsSpace(b)
    ensures Lead(k, a + [b])
  {
    match k {
      case Bottom => SpacesSnoc(a, b);
      case ArrFrame(items, below) =>
        var p: bytes, x: bytes :| Lead(below, p) && ItemsComma(items, x) && a == p + ['['] + x;
        ItemsCommaSpace(items, x, b);
        Regroup(p + ['['], x, [b]);
      case ObjFrame(members, key, below) =>
        var p: bytes, c: bytes :| KeyPlace(members, below, p) && KeyColon(key, c) && a == p + c;
        KeyColonSpace(key, c, b);
        Regroup(p, c, [b]);
    }
  }

  lemma {:induction false} AfterSpace(k: Stack, a: bytes, b: byte)
    requires AfterPlace(k, a) && IsSpace(b)
    ensures AfterPlace(k, a + [b])
  {
    match k {
      case ArrFrame(items, below) =>
        var p: bytes, x: bytes :| Lead(below, p) && ItemsText(items, x) && a == p + ['['] + x;
        ItemsTextSpace(items, x, b);
        Regroup(p + ['['], x, [b]);
      case ObjFrame(members, _, below) =>
        var p: bytes, x: bytes :| Lead(below, p) && MembersText(members, x) && a == p + ['{'] + x;
        MembersTextSpace(members, x, b);
        Regroup(p + ['{'], x, [b]);
    }
  }

  lemma {:induction false} KeyEndSpace(k: Stack, key: bytes, a: bytes, b: byte)
    requires KeyEnd(k, key, a) && IsSpace(b)
    ensures KeyEnd(k, key, a + [b])
  {
    var p: bytes, q: bytes, w: bytes :| KeyPlace(k.members, k.below, p) && StringText(key, q) && Spaces(w) && a == p + q + w;
    SpacesSnoc(w, b);
    Regroup(p + q, w, [b]);
  }

  lemma {:induction false} TextSpace(v: Json, a: bytes, b: byte)
    requires TextOf(v, a) && IsSpace(b)
    ensures TextOf(v, a + [b])
  {
    var p: bytes, e: bytes :| Spaces(p) && Elem(v, e) && a == p + e;
    ElemSpace(v, e, b);
    Regroup(p, e, [b]);
  }

  // ---------------------------------------------------------------- values ending

  lemma {:induction false} ElemOf(v: Json, t: bytes)
    requires Derives(v, t)
    ensures Elem(v, t)
  {
    assert t == t + [] && Spaces([]);
  }

  lemma {:induction false} LeadInArray(items: seq<Json>, below: Stack, a: bytes) returns (p: bytes, b: bytes)
    requires Lead(ArrFrame(items, below), a)
    ensures Lead(below, p) && ItemsComma(items, b) && a == p + ['['] + b
  {
    p, b :| Lead(below, p) && ItemsComma(items, b) && a == p + ['['] + b;
  }

  lemma {:induction false} LeadInObject(members: seq<Member>, key: bytes, below: Stack, a: bytes) returns (p: bytes, b: bytes, c: bytes)
    requires Lead(ObjFrame(members, key, below), a)
    ensures Lead(below, p) && MembersComma(members, b) && KeyColon(key, c) && a == p + ['{'] + b + c
  {
    var o: bytes;
    o, c :| KeyPlace(members, below, o) && KeyColon(key, c) && a == o + c;
    p, b :| Lead(below, p) && MembersComma(members, b) && o == p + ['{'] + b;
  }

  lemma {:induction false} ItemPlaceAs(items: seq<Json>, below: Stack, p: bytes, b: bytes, a: bytes)
    requires items != [] && Lead(below, p) && ItemsText(items, b) && a == p + ['['] + b
    ensures ItemPlace(items, below, a)
  {
  }

  lemma {:induction false} MemberPlaceAs(members: seq<Member>, below: Stack, p: bytes, b: bytes, a: bytes)
    requires members != [] && Lead(below, p) && MembersText(members, b) && a == p + ['{'] + b
    ensures MemberPlace(members, below, a)
  {
  }

  lemma {:induction false} FieldAs(m: Member, c: bytes, t: bytes, f: bytes)
    requires KeyColon(m.key, c) && Derives(m.value, t) && f == c + t
    ensures Field(m, f)
  {
    ElemOf(m.value, t);
    var q: bytes, w: bytes, x: bytes :| StringText(m.key, q) && Spaces(w) && Spaces(x) && c == q + w + [':'] + x;
    FieldFrom(m, q, w, x, t, f);
  }

  lemma {:induction false} FieldFrom(m: Member, q: bytes, w: bytes, x: bytes, e: bytes, f: bytes)
    requires StringText(m.key, q) && Spaces(w) && Spaces(x) && Elem(m.value, e) && f == q + w + [':'] + x + e
    ensures Field(m, f)
  {
  }

  lemma {:induction false} ItemAdded(items: seq<Json>, v: Json, b: bytes, t: bytes)
    requires ItemsComma(items, b) && Derives(v, t)
    ensures ItemsText(items + [v], b + t)
  {
    var all := items + [v];
    assert all[..|all| - 1] == items;
    ElemOf(v, t);
    ItemsTextAs(all, b, t, b + t);
  }

  lemma {:induction false} MemberAdded(members: seq<Member>, m: Member, b: bytes, c: bytes, t: bytes)
    requires MembersComma(members, b) && KeyColon(m.key, c) && Derives(m.value, t)
    ensures MembersText(members + [m], b + (c + t))
  {
    var all := members + [m];
    assert all[..|all| - 1] == members;
    FieldAs(m, c, t, c + t);
    MembersTextAs(all, b, c + t, b + (c + t));
  }

  lemma {:induction false} CloseInArray(items: seq<Json>, below: Stack, a: bytes, v: Json, t: bytes, at: bytes)
    requires Lead(ArrFrame(items, below), a) && Derives(v, t) && at == a + t
    ensures ItemPlace(items + [v], below, at)
  {
    var p, b := LeadInArray(items, below, a);
    Extended(p, ['['], b, t, a, at);
    ItemAdded(items, v, b, t);
    ItemPlaceAs(items + [v], below, p, b + t, at);
  }

  lemma {:induction false} CloseInObject(members: seq<Member>, key: bytes, below: Stack, a: bytes, v: Json, t: bytes, at: bytes)
    requires Lead(ObjFrame(members, key, below), a) && Derives(v, t) && at == a + t
    ensures MemberPlace(members + [Member(key, v)], below, at)
  {
    var p, b, c := LeadInObject(members, key, below, a);
    Spliced(p, ['{'], b, c, t, a, at);
    MemberAdded(members, Member(key, v), b, c, t);
    MemberPlaceAs(members + [Member(key, v)], below, p, b + (c + t), at);
  }

  /** A value that ends where one was due. */
  lemma {:induction false} CloseTraces(k: Stack, a: bytes, v: Json, t: bytes, at: bytes)
    requires Lead(k, a) && Derives(v, t) && at == a + t
    ensures Trace(Close(k, v), at)
  {
    match k {
      case Bottom => ElemOf(v, t);
      case ArrFrame(items, below) => CloseInArray(items, below, a, v, t, at);
      case ObjFrame(members, key, below) => CloseInObject(members, key, below, a, v, t, at);
    }
  }

  lemma {:induction false} ArrayDerives(items: seq<Json>, b: bytes, t: bytes)
    requires ItemsText(items, b) && t == ['['] + b + [']']
    ensures Derives(Arr(items), t)
  {
  }

  lemma {:induction false} ObjectDerives(members: seq<Member>, b: bytes, t: bytes)
    requires MembersText(members, b) && t == ['{'] + b + ['}']
    ensures Derives(Obj(members), t)
  {
  }

  lemma {:induction false} Braced(members: seq<Member>, b: bytes) returns (t: bytes)
    requires MembersText(members, b)
    ensures t == ['{'] + b + ['}'] && Derives(Obj(members), t)
  {
    t := ['{'] + b + ['}'];
    ObjectDerives(members, b, t);
  }

  lemma {:induction false} CloseArray(items: seq<Json>, below: Stack, a: bytes)
    requires ItemPlace(items, below, a)
    ensures Trace(Close(below, Arr(items)), a + [']'])
  {
    var p, b := ItemPlaceParts(items, below, a);
    ArrayDerives(items, b, ['['] + b + [']']);
    Enclosed(p, ['['], b, [']'], a + [']']);
    CloseTraces(below, p, Arr(items), ['['] + b + [']'], a + [']']);
  }

  lemma {:induction false} ItemPlaceParts(items: seq<Json>, below: Stack, a: bytes) returns (p: bytes, b: bytes)
    requires ItemPlace(items, below, a)
    ensures Lead(below, p) && ItemsText(items, b) && a == p + ['['] + b
  {
    p, b :| Lead(below, p) && ItemsText(items, b) && a == p + ['['] + b;
  }

  lemma {:induction false} MemberPlaceParts(members: seq<Member>, below: Stack, a: bytes) returns (p: bytes, b: bytes)
    requires MemberPlace(members, below, a)
    ensures Lead(below, p) && MembersText(members, b) && a == p + ['{'] + b
  {
    p, b :| Lead(below, p) && MembersText(members, b) && a == p + ['{'] + b;
  }

  lemma {:induction false} ObjectPlaceDerives(members: seq<Member>, below: Stack, a: bytes) returns (p: bytes, t: bytes)
    requires MemberPlace(members, below, a)
    ensures Lead(below, p) && Derives(Obj(members), t) && a + ['}'] == p + t
  {
    var b;
    p, b, t := MemberPlaceEnd(members, below, a);
    Enclosed(p, ['{'], b, ['}'], a + ['}']);
  }

  lemma {:induction false} MemberPlaceEnd(members: seq<Member>, below: Stack, a: bytes) returns (p: bytes, b: bytes, t: bytes)
    requires MemberPlace(members, below, a)
    ensures Lead(below, p) && a == p + ['{'] + b
    ensures t == ['{'] + b + ['}'] && Derives(Obj(members), t)
  {
    p, b := MemberPlaceParts(members, below, a);
    t := Braced(members, b);
  }

  lemma {:induction false} CloseObject(members: seq<Member>, below: Stack, a: bytes)
    requires MemberPlace(members, below, a)
    ensures Trace(Close(below, Obj(members)), a + ['}'])
  {
    var p, t := ObjectPlaceDerives(members, below, a);
    CloseTraces(below, p, Obj(members), t, a + ['}']);
  }

  // ---------------------------------------------------------------- one byte

  lemma {:induction false} NextItem(items: seq<Json>, below: Stack, a: bytes)
    requires ItemPlace(items, below, a)
    ensures Lead(ArrFrame(items, below), a + [','])
  {
    var p, x := ItemPlaceParts(items, below, a);
    CommaItem(items, x);
    Regroup(p + ['['], x, [',']);
  }

  lemma {:induction false} NextMember(members: seq<Member>, below: Stack, a: bytes)
    requires MemberPlace(members, below, a)
    ensures KeyPlace(members, below, a + [','])
  {
    var p, x := MemberPlaceParts(members, below, a);
    CommaMember(members, x);
    Regroup(p + ['{'], x, [',']);
  }

  lemma {:induction false} AfterTraces(k: Stack, a: bytes, b: byte)
    requires AfterPlace(k, a) && StepAfter(k, b) != Fail
    ensures Trace(StepAfter(k, b), a + [b])
  {
    if IsSpace(b) {
      AfterSpace(k, a, b);
    } else if k.ArrFrame? {
      if b == ']' {
        CloseArray(k.items, k.below, a);
      } else {
        NextItem(k.items, k.below, a);
      }
    } else {
      if b == '}' {
        CloseObject(k.members, k.below, a);
      } else {
        NextMember(k.members, k.below, a);
      }
    }
  }

  lemma {:induction false} CommaItem(items: seq<Json>, x: bytes)
    requires items != [] && ItemsText(items, x)
    ensures ItemsComma(items, x + [','])
  {
    var a, e := ItemsTextParts(items, x);
    ItemsCommaAs(items, a, e, [], x + [',']);
  }

  lemma {:induction false} CommaMember(members: seq<Member>, x: bytes)
    requires members != [] && MembersText(members, x)
    ensures MembersComma(members, x + [','])
  {
    var a, f := MembersTextParts(members, x);
    MembersCommaAs(members, a, f, [], x + [',']);
  }

  lemma {:induction false} StringStarts()
    ensures StringSoFar([], Plain, [])
  {
    var none: bytes := [];
    assert CharsText(0, none, none) && none == none + none && EscapeSoFar(Plain, none);
  }

  lemma {:induction false} WordStarts(k: Stack, a: bytes, b: byte, rest: bytes, v: Json)
    requires Lead(k, a) && rest != [] && [b] + rest == Word(v)
    ensures InWord(k, rest, v, a + [b])
  {
  }

  lemma {:induction false} NumberStarts(k: Stack, a: bytes, b: byte, lex: NumLex)
    requires Lead(k, a) && NumberSoFar(lex, [b])
    ensures Trace(At(k, InNum([b], lex)), a + [b])
  {
    assert InNumber(k, [b], lex, a + [b]);
  }

  lemma {:induction false} ContainerStarts(k: Stack, a: bytes)
    requires Lead(k, a)
    ensures Trace(At(ObjFrame([], [], k), FirstKey), a + ['{'])
    ensures Trace(At(ArrFrame([], k), FirstItem), a + ['['])
  {
    assert Spaces([]) && MembersComma([], []) && ItemsComma([], []);
    assert a + ['{'] == a + ['{'] + [] && a + ['['] == a + ['['] + [];
  }

  lemma {:induction false} StartTraces(k: Stack, a: bytes, b: byte)
    requires Lead(k, a) && StartValue(k, b) != Fail
    ensures Trace(StartValue(k, b), a + [b])
  {
    if b == '"' {
      StringStarts();
      assert a + [b] == a + ['"'] + [];
    } else if b == '{' || b == '[' {
      ContainerStarts(k, a);
    } else if b == 't' || b == 'f' || b == 'n' {
      WordStartTraces(k, a, b);
    } else {
      NumberStartTraces(k, a, b);
    }
  }

  lemma {:induction false} WordStartTraces(k: Stack, a: bytes, b: byte)
    requires Lead(k, a) && (b == 't' || b == 'f' || b == 'n')
    ensures Trace(StartValue(k, b), a + [b])
  {
    if b == 't' {
      WordStarts(k, a, b, "rue", Bool(true));
    } else if b == 'f' {
      WordStarts(k, a, b, "alse", Bool(false));
    } else {
      WordStarts(k, a, b, "ull", Null);
    }
  }

  lemma {:induction false} NumberStartTraces(k: Stack, a: bytes, b: byte)
    requires Lead(k, a) && (b == '-' || IsDigit(b))
    ensures Trace(StartValue(k, b), a + [b])
  {
    var lex := if b == '-' then Minus else if b == '0' then Zero else Int;
    FirstDigit(k, b, lex);
    NumberStarts(k, a, b, lex);
  }

  lemma {:induction false} FirstDigit(k: Stack, b: byte, lex: NumLex)
    requires (b == '-' || IsDigit(b)) && lex == if b == '-' then Minus else if b == '0' then Zero else Int
    ensures StartValue(k, b) == At(k, InNum([b], lex)) && NumberSoFar(lex, [b])
  {
  }

  lemma {:induction false} EmptyArray(below: Stack, a: bytes)
    requires Lead(ArrFrame([], below), a)
    ensures Trace(Close(below, Arr([])), a + [']'])
  {
    var p, b := LeadInArray([], below, a);
    ArrayDerives([], b, ['['] + b + [']']);
    Enclosed(p, ['['], b, [']'], a + [']']);
    CloseTraces(below, p, Arr([]), ['['] + b + [']'], a + [']']);
  }

  lemma {:induction false} EmptyObject(below: Stack, a: bytes)
    requires KeyPlace([], below, a)
    ensures Trace(Close(below, Obj([])), a + ['}'])
  {
    var p: bytes, b: bytes :| Lead(below, p) && MembersComma([], b) && a == p + ['{'] + b;
    ObjectDerives([], b, ['{'] + b + ['}']);
    Enclosed(p, ['{'], b, ['}'], a + ['}']);
    CloseTraces(below, p, Obj([]), ['{'] + b + ['}'], a + ['}']);
  }

  lemma {:induction false} KeyStarts(k: Stack, a: bytes)
    requires k.ObjFrame? && KeyPlace(k.members, k.below, a)
    ensures InString(k, true, [], Plain, a + ['"'])
  {
    StringStarts();
    var none: bytes := [];
    assert a + ['"'] == a + ['"'] + none;
  }

  lemma {:induction false} KeyEndSplit(k: Stack, key: bytes, a: bytes) returns (p: bytes, q: bytes, w: bytes)
    requires KeyEnd(k, key, a)
    ensures KeyPlace(k.members, k.below, p) && StringText(key, q) && Spaces(w) && a == p + q + w
  {
    p, q, w :| KeyPlace(k.members, k.below, p) && StringText(key, q) && Spaces(w) && a == p + q + w;
  }

  lemma {:induction false} KeyColonAs(key: bytes, q: bytes, w: bytes, x: bytes, c: bytes)
    requires StringText(key, q) && Spaces(w) && Spaces(x) && c == q + w + [':'] + x
    ensures KeyColon(key, c)
  {
  }

  lemma {:induction false} LeadObjectAs(members: seq<Member>, key: bytes, below: Stack, p: bytes, c: bytes, a: bytes)
    requires KeyPlace(members, below, p) && KeyColon(key, c) && a == p + c
    ensures Lead(ObjFrame(members, key, below), a)
  {
  }

  lemma {:induction false} ColonAt(p: bytes, q: bytes, w: bytes, a: bytes) returns (c: bytes)
    requires a == p + q + w
    ensures c == q + w + [':'] + [] && a + [':'] == p + c
  {
    c := q + w + [':'] + [];
  }

  lemma {:induction false} ColonTraces(k: Stack, key: bytes, a: bytes)
    requires KeyEnd(k, key, a)
    ensures Lead(ObjFrame(k.members, key, k.below), a + [':'])
  {
    var p, q, w := KeyEndSplit(k, key, a);
    var c := ColonAt(p, q, w, a);
    KeyColonAs(key, q, w, [], c);
    LeadObjectAs(k.members, key, k.below, p, c, a + [':']);
  }

  /** A closing quote: the key or the string value is complete. */
  lemma {:induction false} QuoteTraces(k: Stack, isKey: bool, acc: bytes, lex: StrLex, a: bytes, b: byte)
    requires InString(k, isKey, acc, lex, a) && StepStr(acc, lex, b).StrEnd?
    ensures if isKey then KeyEnd(k, acc, a + [b]) else Trace(Close(k, Str(acc)), a + [b])
  {
    var p: bytes, body: bytes :|
      (if isKey then KeyPlace(k.members, k.below, p) else Lead(k, p)) && StringSoFar(acc, lex, body) && a == p + ['"'] + body;
    StringEnds(acc, lex, body, b);
    var q := ['"'] + body + [b];
    Enclosed(p, ['"'], body, [b], a + [b]);
    if isKey {
      var none: bytes := [];
      assert Spaces(none) && a + [b] == p + q + none;
    } else {
      CloseTraces(k, p, Str(acc), q, a + [b]);
    }
  }

  lemma {:induction false} InStrTraces(k: Stack, isKey: bool, acc: bytes, lex: StrLex, a: bytes, b: byte)
    requires InString(k, isKey, acc, lex, a) && StepInStr(k, isKey, acc, lex, b) != Fail
    ensures Trace(StepInStr(k, isKey, acc, lex, b), a + [b])
  {
    if StepStr(acc, lex, b).StrEnd? {
      QuoteTraces(k, isKey, acc, lex, a, b);
    } else {
      MoreString(k, isKey, acc, lex, a, b);
    }
  }

  lemma {:induction false} MoreString(k: Stack, isKey: bool, acc: bytes, lex: StrLex, a: bytes, b: byte)
    requires InString(k, isKey, acc, lex, a) && StepStr(acc, lex, b).StrMore?
    ensures InString(k, isKey, StepStr(acc, lex, b).acc, StepStr(acc, lex, b).lex, a + [b])
  {
    var p: bytes, body: bytes :|
      (if isKey then KeyPlace(k.members, k.below, p) else Lead(k, p)) && StringSoFar(acc, lex, body) && a == p + ['"'] + body;
    StringGrows(acc, lex, body, b);
    Regroup(p + ['"'], body, [b]);
  }

  lemma {:induction false} SettledTraces(s: State, a: bytes, b: byte)
    requires Trace(s, a) && (s.mode.After? || s.mode.Done?) && StepSettled(s, b) != Fail
    ensures Trace(StepSettled(s, b), a + [b])
  {
    if s.mode.After? {
      AfterTraces(s.stack, a, b);
    } else {
      TextSpace(s.mode.v, a, b);
    }
  }

  lemma {:induction false} InNumTraces(k: Stack, raw: bytes, lex: NumLex, a: bytes, b: byte)
    requires InNumber(k, raw, lex, a) && StepInNum(k, raw, lex, b) != Fail
    ensures Trace(StepInNum(k, raw, lex, b), a + [b])
  {
    var p: bytes :| Lead(k, p) && NumberSoFar(lex, raw) && a == p + raw;
    if StepNum(lex, b).Some? {
      NumberGrows(lex, raw, b);
      Regroup(p, raw, [b]);
    } else {
      NumberEnds(lex, raw);
      CloseTraces(k, p, Num(raw), raw, a);
      SettledTraces(Close(k, Num(raw)), a, b);
    }
  }

  lemma {:induction false} WordEnds(k: Stack, p: bytes, v: Json, a: bytes)
    requires Lead(k, p) && (v.Null? || v.Bool?) && a == p + Word(v)
    ensures Trace(Close(k, v), a)
  {
    CloseTraces(k, p, v, Word(v), a);
  }

  lemma {:induction false} InWordParts(k: Stack, rest: bytes, v: Json, a: bytes) returns (p: bytes, w: bytes)
    requires InWord(k, rest, v, a)
    ensures Lead(k, p) && rest != [] && w + rest == Word(v) && a == p + w
  {
    p, w :| Lead(k, p) && rest != [] && w + rest == Word(v) && a == p + w;
  }

  lemma {:induction false} InWordAs(k: Stack, rest: bytes, v: Json, p: bytes, w: bytes, a: bytes)
    requires Lead(k, p) && rest != [] && w + rest == Word(v) && a == p + w
    ensures InWord(k, rest, v, a)
  {
  }

  lemma {:induction false} LetterMoves(w: bytes, rest: word)
    ensures w + rest == (w + [rest[0]]) + rest[1..]
    ensures |rest| == 1 ==> w + rest == w + [rest[0]]
  {
  }

  lemma {:induction false} InLitTraces(k: Stack, rest: word, v: Json, a: bytes, b: byte)
    requires InWord(k, rest, v, a) && StepInLit(k, rest, v, b) != Fail
    ensures Trace(StepInLit(k, rest, v, b), a + [b])
  {
    var p, w := InWordParts(k, rest, v, a);
    LetterMoves(w, rest);
    Regroup(p, w, [b]);
    if |rest| == 1 {
      WordEnds(k, p, v, a + [b]);
    } else {
      InWordAs(k, rest[1..], v, p, w + [b], a + [b]);
    }
  }

  lemma {:induction false} PlaceTraces(s: State, a: bytes, b: byte)
    requires Trace(s, a) && Step(s, b) != Fail
    requires s.mode.Value? || s.mode.FirstItem? || s.mode.FirstKey? || s.mode.NextKey? || s.mode.Colon?
    ensures Trace(Step(s, b), a + [b])
  {
    var k := s.stack;
    match s.mode {
      case Value => if IsSpace(b) { LeadSpace(k, a, b); } else { StartTraces(k, a, b); }
      case FirstItem =>
        if IsSpace(b) { LeadSpace(k, a, b); } else if b == ']' { EmptyArray(k.below, a); } else { StartTraces(k, a, b); }
      case FirstKey =>
        if IsSpace(b) { KeyPlaceSpace([], k.below, a, b); } else if b == '}' { EmptyObject(k.below, a); } else { KeyStarts(k, a); }
      case NextKey => if IsSpace(b) { KeyPlaceSpace(k.members, k.below, a, b); } else { KeyStarts(k, a); }
      case Colon(key) => if IsSpace(b) { KeyEndSpace(k, key, a, b); } else { ColonTraces(k, key, a); }
    }
  }

  /** One byte keeps the trace. */
  lemma {:induction false} StepTraces(s: State, a: bytes, b: byte)
    requires Trace(s, a) && Step(s, b) != Fail
    ensures Trace(Step(s, b), a + [b])
  {
    match s.mode {
      case InStr(isKey, acc, lex) => InStrTraces(s.stack, isKey, acc, lex, a, b);
      case InNum(raw, lex) => InNumTraces(s.stack, raw, lex, a, b);
      case InLit(rest, v) => InLitTraces(s.stack, rest, v, a, b);
      case After => AfterTraces(s.stack, a, b);
      case Done(_) => SettledTraces(s, a, b);
      case _ => PlaceTraces(s, a, b);
    }
  }

  lemma {:induction false} RunTraces(s: State, a: bytes, text: bytes)
    requires Trace(s, a) && Run(s, text) != Fail
    ensures Trace(Run(s, text), a + text)
    decreases text
  {
    if text == [] {
      assert a + text == a;
    } else {
      if Step(s, text[0]) == Fail {
        FailStays(text[1..]);
        assert false;
      }
      StepTraces(s, a, text[0]);
      RunTraces(Step(s, text[0]), a + [text[0]], text[1..]);
      assert a + [text[0]] + text[1..] == a + text;
    }
  }

  /** Whatever parses is a JSON text of the value it parses to. */
  lemma {:induction false} ParsedIsText(text: bytes, v: Json)
    requires Parse(text) == Some(v)
    ensures TextOf(v, text)
  {
    var none: bytes := [];
    assert Spaces(none) && Trace(Init, none);
    RunTraces(Init, none, text);
    assert none + text == text;
    var s := Run(Init, text);
    if s.mode.InNum? {
      var p: bytes :| Lead(Bottom, p) && NumberSoFar(s.mode.num, s.mode.raw) && text == p + s.mode.raw;
      NumberEnds(s.mode.num, s.mode.raw);
      ElemOf(v, s.mode.raw);
    }
  }
}
