/** The JSON grammar (RFC 8259, sections 2 to 7) as a relation between values and
    texts, and the proof that the automaton accepts nothing outside it. */
module JsonGrammar {
  import opened Bytes
  import Utf8
  import opened Json

  predicate Spaces(w: bytes) {
    forall i :: 0 <= i < |w| ==> IsSpace(w[i])
  }

  // ---------------------------------------------------------------- numbers

  predicate Whole(d: bytes) {
    d != [] && AllDigits(d) && d[0] != '0'
  }

  predicate IsInteger(raw: bytes) {
    raw == "0" || raw == "-0" || Whole(raw) || (raw != [] && raw[0] == '-' && Whole(raw[1..]))
  }

  predicate Digits(d: bytes) {
    d != [] && AllDigits(d)
  }

  predicate Fraction(raw: bytes, i: bytes, f: bytes) {
    IsInteger(i) && Digits(f) && raw == i + ['.'] + f
  }

  ghost predicate IsMantissa(raw: bytes) {
    IsInteger(raw) || exists i, f :: Fraction(raw, i, f)
  }

  predicate IsE(e: bytes) {
    e == "e" || e == "E"
  }

  predicate IsSign(s: bytes) {
    s == [] || s == "+" || s == "-"
  }

  ghost predicate Exponent(raw: bytes, m: bytes, e: bytes, s: bytes, d: bytes) {
    IsMantissa(m) && IsE(e) && IsSign(s) && Digits(d) && raw == m + e + s + d
  }

  /** `int [ frac ] [ exp ]`. */
  ghost predicate IsNumber(raw: bytes) {
    IsMantissa(raw) || exists m, e, s, d :: Exponent(raw, m, e, s, d)
  }

  // ---------------------------------------------------------------- strings

  predicate HexDigits(d: bytes) {
    forall i :: 0 <= i < |d| ==> HexValue(d[i]).Some?
  }

  function HexOf(d: bytes): (n: nat)
    requires HexDigits(d)
  {
    if d == [] then 0 else HexOf(d[..|d| - 1]) * 16 + HexValue(d[|d| - 1]).value
  }

  predicate Hex4(d: bytes) {
    |d| == 4 && HexDigits(d)
  }

  predicate PlainChar(u: bytes, c: bytes) {
    u == c && |c| == 1 && c[0] >= ' ' && c[0] != '"' && c[0] != '\\'
  }

  predicate ShortEscape(u: bytes, c: bytes) {
    && |c| == 2 && c[0] == '\\' && |u| == 1
    && ((c[1] == '"' && u[0] == '"') || (c[1] == '\\' && u[0] == '\\') || (c[1] == '/' && u[0] == '/')
        || (c[1] == 'b' && u[0] as int == 8) || (c[1] == 'f' && u[0] as int == 12) || (c[1] == 'n' && u[0] as int == 10)
        || (c[1] == 'r' && u[0] as int == 13) || (c[1] == 't' && u[0] as int == 9))
  }

  /** One UTF-16 code unit that is a character by itself. */
  predicate UnitEscape(u: bytes, c: bytes, d: bytes) {
    Hex4(d) && c == ['\\', 'u'] + d && Utf8.IsScalar(HexOf(d)) && u == Utf8.Encode(HexOf(d))
  }

  /** Two code units, a high and a low surrogate, that are one character. */
  predicate PairEscape(u: bytes, c: bytes, d: bytes, e: bytes) {
    && Hex4(d) && Hex4(e) && c == ['\\', 'u'] + d + ['\\', 'u'] + e
    && 0xD800 <= HexOf(d) < 0xDC00 && 0xDC00 <= HexOf(e) < 0xE000
    && u == Utf8.Encode(0x10000 + (HexOf(d) - 0xD800) * 0x400 + (HexOf(e) - 0xDC00))
  }

  ghost predicate CharText(u: bytes, c: bytes) {
    PlainChar(u, c) || ShortEscape(u, c) || (exists d :: UnitEscape(u, c, d)) || (exists d, e :: PairEscape(u, c, d, e))
  }

  /** `body` writes the `n` characters of `s`. */
  ghost predicate CharsText(n: nat, s: bytes, body: bytes)
    decreases n, 1
  {
    if n == 0 then s == [] && body == [] else LastChar(n, s, body)
  }

  ghost predicate LastChar(n: nat, s: bytes, body: bytes)
    requires n > 0
    decreases n, 0
  {
    exists t: bytes, u: bytes, b: bytes, c: bytes :: CharsText(n - 1, t, b) && CharText(u, c) && s == t + u && body == b + c
  }

  ghost predicate StringText(s: bytes, t: bytes) {
    exists n: nat, body: bytes :: CharsText(n, s, body) && t == ['"'] + body + ['"']
  }

  // ---------------------------------------------------------------- values

  function Word(v: Json): bytes {
    if v == Null then "null" else if v == Bool(true) then "true" else if v == Bool(false) then "false" else []
  }

  /** `t` is a text of `v`, without white space around it. */
  ghost predicate Derives(v: Json, t: bytes)
    decreases v, 5
  {
    match v
    case Null => t == Word(v)
    case Bool(_) => t == Word(v)
    case Num(raw) => t == raw && IsNumber(raw)
    case Str(s) => StringText(s, t)
    case Arr(items) => exists b: bytes :: ItemsText(items, b) && t == ['['] + b + [']']
    case Obj(members) => exists b: bytes :: MembersText(members, b) && t == ['{'] + b + ['}']
  }

  /** A value and the white space behind it. */
  ghost predicate Elem(v: Json, e: bytes)
    decreases v, 6
  {
    exists t: bytes, w: bytes :: Derives(v, t) && Spaces(w) && e == t + w
  }

  /** Items, each with a comma behind it and the white space around. */
  ghost predicate ItemsComma(items: seq<Json>, b: bytes)
    decreases items, 0
  {
    if items == [] then Spaces(b)
    else exists a: bytes, e: bytes, w: bytes :: ItemsComma(items[..|items| - 1], a) && Elem(items[|items| - 1], e) && Spaces(w) && b == a + e + [','] + w
  }

  ghost predicate ItemsText(items: seq<Json>, b: bytes)
    decreases items, 1
  {
    if items == [] then Spaces(b)
    else exists a: bytes, e: bytes :: ItemsComma(items[..|items| - 1], a) && Elem(items[|items| - 1], e) && b == a + e
  }

  /** A key, its colon and the white space around that. */
  ghost predicate KeyColon(key: bytes, c: bytes) {
    exists q: bytes, w: bytes, x: bytes :: StringText(key, q) && Spaces(w) && Spaces(x) && c == q + w + [':'] + x
  }

  ghost predicate Field(m: Member, f: bytes)
    decreases m, 7
  {
    exists q: bytes, w: bytes, x: bytes, e: bytes ::
      StringText(m.key, q) && Spaces(w) && Spaces(x) && Elem(m.value, e) && f == q + w + [':'] + x + e
  }

  ghost predicate MembersComma(members: seq<Member>, b: bytes)
    decreases members, 0
  {
    if members == [] then Spaces(b)
    else exists a: bytes, f: bytes, w: bytes ::
        MembersComma(members[..|members| - 1], a) && Field(members[|members| - 1], f) && Spaces(w) && b == a + f + [','] + w
  }

  ghost predicate MembersText(members: seq<Member>, b: bytes)
    decreases members, 1
  {
    if members == [] then Spaces(b)
    else exists a: bytes, f: bytes :: MembersComma(members[..|members| - 1], a) && Field(members[|members| - 1], f) && b == a + f
  }

  /** `text` is a JSON text of `v`. */
  ghost predicate TextOf(v: Json, text: bytes) {
    exists p: bytes, e: bytes :: Spaces(p) && Elem(v, e) && text == p + e
  }
}
