/** Compact JSON texts as the audit writer serializes them, and their round trip
    through the parser. */
module JsonText {
  import opened Bytes
  import opened Json
  import Utf8
  import opened JsonGrammar
  import opened JsonSound
  import opened JsonComplete

  // ---------------------------------------------------------------- printing

  function HexDigit(n: int): byte
    requires 0 <= n < 16
  {
    if n < 10 then Byte('0' as int + n) else Byte('a' as int + n - 10)
  }

  /** One byte of a string: quote, backslash and control bytes are escaped. */
  function EscapedByte(b: byte): bytes {
    if b == '"' then "\\\""
    else if b == '\\' then "\\\\"
    else if b as int == 8 then "\\b"
    else if b as int == 12 then "\\f"
    else if b == LF then "\\n"
    else if b == CR then "\\r"
    else if b == '\t' then "\\t"
    else if b < ' ' then "\\u00" + [HexDigit(b as int / 16), HexDigit(b as int % 16)]
    else [b]
  }

  function Escaped(s: bytes): bytes {
    if s == [] then [] else EscapedByte(s[0]) + Escaped(s[1..])
  }

  function Quoted(s: bytes): bytes {
    ['"'] + (Escaped(s) + ['"'])
  }

  function Decimal(n: nat): (r: bytes)
    ensures r != [] && AllDigits(r) && DecimalValue(r) == n
    ensures n > 0 ==> r[0] != '0'
    ensures n == 0 ==> r == "0"
  {
    if n < 10 then
      var r := [Byte('0' as int + n)];
      assert r[..0] == [];
      r
    else
      var r := Decimal(n / 10) + [Byte('0' as int + n % 10)];
      assert r[..|r| - 1] == Decimal(n / 10);
      r
  }

  function Print(v: Json): bytes
    decreases v, 1
  {
    match v
    case Null => "null"
    case Bool(b) => if b then "true" else "false"
    case Num(raw) => raw
    case Str(text) => Quoted(text)
    case Arr(items) => ['['] + (PrintItems(items) + [']'])
    case Obj(members) => ['{'] + (PrintMembers(members) + ['}'])
  }

  function PrintItems(items: seq<Json>): bytes
    decreases items, 0
  {
    if items == [] then []
    else if |items| == 1 then Print(items[0])
    else Print(items[0]) + ([','] + PrintItems(items[1..]))
  }

  function PrintMember(m: Member): bytes
    decreases m, 2
  {
    Quoted(m.key) + ([':'] + Print(m.value))
  }

  function PrintMembers(members: seq<Member>): bytes
    decreases members, 3
  {
    if members == [] then []
    else if |members| == 1 then PrintMember(members[0])
    else PrintMember(members[0]) + ([','] + PrintMembers(members[1..]))
  }

  /** Values whose numbers are the natural numbers the audit schema carries. */
  predicate Plainly(v: Json)
    decreases v
  {
    match v
    case Num(raw) => raw != [] && AllDigits(raw) && (|raw| > 1 ==> raw[0] != '0')
    case Arr(items) => forall i :: 0 <= i < |items| ==> Plainly(items[i])
    case Obj(members) => forall i :: 0 <= i < |members| ==> Plainly(members[i].value)
    case _ => true
  }

  // ---------------------------------------------------------------- round trip

  lemma {:induction false} HexDigitValue(n: int)
    requires 0 <= n < 16
    ensures HexValue(HexDigit(n)) == Some(n)
  {
  }

  lemma {:induction false} ControlEscape(b: byte)
    requires b < ' '
    ensures CharText([b], "\\u00" + [HexDigit(b as int / 16), HexDigit(b as int % 16)])
  {
    var n := b as int;
    var h, l := HexDigit(n / 16), HexDigit(n % 16);
    HexDigitValue(n / 16);
    HexDigitValue(n % 16);
    var d := ['0', '0', h, l];
    HexGrows([], '0');
    HexGrows(['0'], '0');
    HexGrows(['0', '0'], h);
    HexGrows(['0', '0', h], l);
    assert [] + ['0'] == ['0'] && ['0'] + ['0'] == ['0', '0'] && ['0', '0'] + [h] == ['0', '0', h] && ['0', '0', h] + [l] == d;
    assert "\\u00" + [h, l] == ['\\', 'u'] + d;
    assert UnitEscape([b], "\\u00" + [h, l], d);
  }

  /** The escape of a byte is one character of the grammar. */
  lemma {:induction false} EscapedByteIsChar(b: byte)
    ensures CharText([b], EscapedByte(b))
  {
    if |EscapedByte(b)| == 6 {
      ControlEscape(b);
    } else if |EscapedByte(b)| == 2 {
      assert ShortEscape([b], EscapedByte(b));
    } else {
      assert PlainChar([b], EscapedByte(b));
    }
  }

  lemma {:induction false} EscapedSnoc(s: bytes, b: byte)
    ensures Escaped(s + [b]) == Escaped(s) + EscapedByte(b)
  {
    if s == [] {
      assert s + [b] == [b];
    } else {
      assert (s + [b])[1..] == s[1..] + [b];
      EscapedSnoc(s[1..], b);
      Regroup(EscapedByte(s[0]), Escaped(s[1..]), EscapedByte(b));
    }
  }

  lemma {:induction false} EscapedLast(s: bytes)
    requires s != []
    ensures s == s[..|s| - 1] + [s[|s| - 1]] && Escaped(s) == Escaped(s[..|s| - 1]) + EscapedByte(s[|s| - 1])
  {
    assert s == s[..|s| - 1] + [s[|s| - 1]];
    EscapedSnoc(s[..|s| - 1], s[|s| - 1]);
  }

  lemma {:induction false} EscapedIsChars(s: bytes)
    ensures CharsText(|s|, s, Escaped(s))
  {
    if s != [] {
      var n := |s| - 1;
      EscapedIsChars(s[..n]);
      EscapedByteIsChar(s[n]);
      EscapedLast(s);
      CharsSnoc(n, s[..n], Escaped(s[..n]), [s[n]], EscapedByte(s[n]), s, Escaped(s));
    }
  }

  lemma {:induction false} QuotedIsString(s: bytes)
    ensures StringText(s, Quoted(s))
  {
    EscapedIsChars(s);
    assert Quoted(s) == ['"'] + Escaped(s) + ['"'];
  }

  lemma {:induction false} ColonOf(key: bytes)
    ensures KeyColon(key, Quoted(key) + [':'])
  {
    QuotedIsString(key);
    var none: bytes := [];
    assert Spaces(none) && Quoted(key) + [':'] == Quoted(key) + none + [':'] + none;
  }

  /** What is printed of a plain value is a text of it. */
  lemma {:induction false} PrintDerives(v: Json)
    requires Plainly(v)
    ensures Derives(v, Print(v))
    decreases v, 1
  {
    match v {
      case Null =>
      case Bool(_) =>
      case Num(raw) => assert IsInteger(raw) && IsMantissa(raw);
      case Str(text) => QuotedIsString(text);
      case Arr(items) => ArrayPrints(items);
      case Obj(members) => ObjectPrints(members);
    }
  }

  lemma {:induction false} ArrayPrints(items: seq<Json>)
    requires forall i :: 0 <= i < |items| ==> Plainly(items[i])
    ensures Derives(Arr(items), Print(Arr(items)))
    decreases items, 1
  {
    if items != [] {
      ItemsDerive([], [], items, items, PrintItems(items));
    }
    ArrayDerives(items, PrintItems(items), Print(Arr(items)));
  }

  lemma {:induction false} ObjectPrints(members: seq<Member>)
    requires forall i :: 0 <= i < |members| ==> Plainly(members[i].value)
    ensures Derives(Obj(members), Print(Obj(members)))
    decreases members, 1
  {
    if members != [] {
      MembersDerive([], [], members, members, PrintMembers(members));
    }
    ObjectDerives(members, PrintMembers(members), Print(Obj(members)));
  }

  lemma {:induction false} ItemsDerive(done: seq<Json>, a: bytes, items: seq<Json>, all: seq<Json>, b: bytes)
    requires ItemsComma(done, a) && items != [] && all == done + items && b == a + PrintItems(items)
    requires forall i :: 0 <= i < |items| ==> Plainly(items[i])
    ensures ItemsText(all, b)
    decreases items, 0
  {
    PrintDerives(items[0]);
    if |items| == 1 {
      assert all == done + [items[0]];
      ItemAdded(done, items[0], a, Print(items[0]));
    } else {
      var next := a + Print(items[0]) + [','];
      ItemDone(done, items[0], a, next);
      ItemsTail(a, items, b);
      Shifted(done, items, all);
      ItemsDerive(done + [items[0]], next, items[1..], all, b);
    }
  }

  lemma {:induction false} Shifted<T>(done: seq<T>, xs: seq<T>, all: seq<T>)
    requires xs != [] && all == done + xs
    ensures all == done + [xs[0]] + xs[1..]
  {
  }

  lemma {:induction false} ItemsTail(a: bytes, items: seq<Json>, b: bytes)
    requires |items| > 1 && b == a + PrintItems(items)
    ensures b == a + Print(items[0]) + [','] + PrintItems(items[1..])
  {
  }

  lemma {:induction false} MembersTail(a: bytes, members: seq<Member>, b: bytes)
    requires |members| > 1 && b == a + PrintMembers(members)
    ensures b == a + PrintMember(members[0]) + [','] + PrintMembers(members[1..])
  {
  }

  lemma {:induction false} ItemDone(done: seq<Json>, v: Json, a: bytes, next: bytes)
    requires ItemsComma(done, a) && Derives(v, Print(v)) && next == a + Print(v) + [',']
    ensures ItemsComma(done + [v], next)
  {
    ElemOf(v, Print(v));
    assert (done + [v])[..|done|] == done;
    ItemsCommaAs(done + [v], a, Print(v), [], next);
  }

  lemma {:induction false} MembersDerive(done: seq<Member>, a: bytes, members: seq<Member>, all: seq<Member>, b: bytes)
    requires MembersComma(done, a) && members != [] && all == done + members && b == a + PrintMembers(members)
    requires forall i :: 0 <= i < |members| ==> Plainly(members[i].value)
    ensures MembersText(all, b)
    decreases members, 0
  {
    var m := members[0];
    PrintDerives(m.value);
    if |members| == 1 {
      assert all == done + [m];
      LastMember(done, m, a, b);
    } else {
      MemberDone(done, m, a, a + PrintMember(m) + [',']);
      MembersTail(a, members, b);
      Shifted(done, members, all);
      MembersDerive(done + [m], a + PrintMember(m) + [','], members[1..], all, b);
    }
  }

  lemma {:induction false} LastMember(done: seq<Member>, m: Member, a: bytes, b: bytes)
    requires MembersComma(done, a) && Derives(m.value, Print(m.value)) && b == a + PrintMember(m)
    ensures MembersText(done + [m], b)
  {
    ColonOf(m.key);
    PrintedMemberIs(m);
    MemberAdded(done, m, a, Quoted(m.key) + [':'], Print(m.value));
  }

  lemma {:induction false} PrintedMemberIs(m: Member)
    ensures PrintMember(m) == Quoted(m.key) + [':'] + Print(m.value)
  {
  }

  lemma {:induction false} MemberDone(done: seq<Member>, m: Member, a: bytes, next: bytes)
    requires MembersComma(done, a) && Derives(m.value, Print(m.value)) && next == a + PrintMember(m) + [',']
    ensures MembersComma(done + [m], next)
  {
    ColonOf(m.key);
    PrintedMemberIs(m);
    FieldAs(m, Quoted(m.key) + [':'], Print(m.value), PrintMember(m));
    assert (done + [m])[..|done|] == done;
    MembersCommaAs(done + [m], a, PrintMember(m), [], next);
  }

  /** Serializing and parsing an object gives the object back. */
  lemma {:induction false} RoundTrip(members: seq<Member>)
    requires Plainly(Obj(members))
    ensures Run(Init, Print(Obj(members))) == At(Bottom, Done(Obj(members)))
    ensures Parse(Print(Obj(members))) == Some(Obj(members))
  {
    PrintDerives(Obj(members));
    DerivesRuns(Bottom, Value, Obj(members), Print(Obj(members)));
  }
}
