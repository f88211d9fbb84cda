/** UTF-8 well-formedness as a byte automaton (table 3-7 of the Unicode standard),
    and the longest well-formed prefix, which is where a strict decoder stops. */
module Utf8 {
  import opened Bytes

  /** The codes of continuation bytes. */
  type tail = n: int | 0x80 <= n <= 0xBF witness 0x80

  datatype State =
    | Boundary                                // between two characters
    | Need(more: nat, lo: tail, hi: tail)     // inside one: the next byte lies in lo..hi, then `more` follow
    | Bad

  function Step(s: State, b: byte): State {
    var n := b as int;
    match s
    case Bad => Bad
    case Need(more, lo, hi) =>
      if !(lo <= n <= hi) then Bad
      else if more == 0 then Boundary
      else Need(more - 1, 0x80, 0xBF)
    case Boundary =>
      if n < 0x80 then Boundary
      else if 0xC2 <= n <= 0xDF then Need(0, 0x80, 0xBF)
      else if n == 0xE0 then Need(1, 0xA0, 0xBF)
      else if n == 0xED then Need(1, 0x80, 0x9F)
      else if 0xE1 <= n <= 0xEF then Need(1, 0x80, 0xBF)
      else if n == 0xF0 then Need(2, 0x90, 0xBF)
      else if 0xF1 <= n <= 0xF3 then Need(2, 0x80, 0xBF)
      else if n == 0xF4 then Need(2, 0x80, 0x8F)
      else Bad
  }

  function Run(s: State, text: bytes): State
    decreases text
  {
    if text == [] then s else Run(Step(s, text[0]), text[1..])
  }

  predicate Valid(text: bytes) {
    Run(Boundary, text) == Boundary
  }

  lemma {:induction false} RunAppend(s: State, a: bytes, b: bytes)
    ensures Run(s, a + b) == Run(Run(s, a), b)
    decreases a
  {
    if a == [] {
      assert a + b == b;
    } else {
      assert (a + b)[1..] == a[1..] + b;
      RunAppend(Step(s, a[0]), a[1..], b);
    }
  }

  lemma {:induction false} BadStays(text: bytes)
    ensures Run(Bad, text) == Bad
  {
    if text != [] {
      BadStays(text[1..]);
    }
  }

  lemma ValidAppend(a: bytes, b: bytes)
    requires Valid(a) && Valid(b)
    ensures Valid(a + b)
  {
    RunAppend(Boundary, a, b);
  }

  lemma {:induction false} AsciiValid(text: bytes)
    requires forall i :: 0 <= i < |text| ==> text[i] as int < 0x80
    ensures Valid(text)
  {
    if text != [] {
      AsciiValid(text[1..]);
    }
  }

  /** The longest prefix that is well-formed UTF-8. */
  function ValidPrefix(text: bytes): (p: bytes)
    ensures p <= text && Valid(p)
  {
    if Valid(text) then text
    else
      assert text != [];
      ValidPrefix(text[..|text| - 1])
  }

  lemma {:induction false} ValidPrefixLongest(text: bytes, q: bytes)
    requires q <= text && Valid(q)
    ensures q <= ValidPrefix(text)
  {
    if !Valid(text) {
      assert q != text;
      assert q <= text[..|text| - 1];
      ValidPrefixLongest(text[..|text| - 1], q);
    }
  }

  /** A strict decoder never takes back what it accepted of a shorter input. */
  lemma ValidPrefixMonotone(a: bytes, b: bytes)
    ensures ValidPrefix(a) <= ValidPrefix(a + b)
  {
    ValidPrefixLongest(a + b, ValidPrefix(a));
  }

  /** Around any byte outside ASCII, one of the two cuts falls inside a character. */
  lemma CutInside(text: bytes, i: nat)
    requires i < |text| && text[i] as int >= 0x80
    ensures !Valid(text[..i]) || !Valid(text[..i + 1])
  {
    assert text[..i + 1] == text[..i] + [text[i]];
    RunAppend(Boundary, text[..i], [text[i]]);
    assert Run(Boundary, [text[i]]) == Step(Boundary, text[i]);
  }

  predicate IsScalar(cp: int) {
    0 <= cp < 0xD800 || 0xE000 <= cp <= 0x10FFFF
  }

  lemma RunCons(s: State, b: byte, rest: bytes)
    ensures Run(s, [b] + rest) == Run(Step(s, b), rest)
  {
    assert ([b] + rest)[1..] == rest;
  }

  predicate IsTail(b: byte) {
    0x80 <= b as int <= 0xBF
  }

  lemma TwoBytes(a: byte, b: byte)
    requires 0xC2 <= a as int <= 0xDF && IsTail(b)
    ensures Valid([a] + [b])
  {
    RunCons(Boundary, a, [b]);
  }

  lemma ThreeBytes(a: byte, b: byte, c: byte)
    requires 0xE0 <= a as int <= 0xEF && IsTail(b) && IsTail(c)
    requires a as int == 0xE0 ==> b as int >= 0xA0
    requires a as int == 0xED ==> b as int <= 0x9F
    ensures Valid([a] + ([b] + [c]))
  {
    RunCons(Boundary, a, [b] + [c]);
    RunCons(Step(Boundary, a), b, [c]);
  }

  lemma FourBytes(a: byte, b: byte, c: byte, d: byte)
    requires 0xF0 <= a as int <= 0xF4 && IsTail(b) && IsTail(c) && IsTail(d)
    requires a as int == 0xF0 ==> b as int >= 0x90
    requires a as int == 0xF4 ==> b as int <= 0x8F
    ensures Valid([a] + ([b] + ([c] + [d])))
  {
    RunCons(Boundary, a, [b] + ([c] + [d]));
    RunCons(Step(Boundary, a), b, [c] + [d]);
    RunCons(Step(Step(Boundary, a), b), c, [d]);
  }

  /** The UTF-8 encoding of one Unicode scalar value. */
  function Encode(cp: int): (r: bytes)
    requires IsScalar(cp)
    ensures 1 <= |r| <= 4
    ensures Valid(r)
  {
    var d := Byte(0x80 + cp % 64);
    if cp < 0x80 then [Byte(cp)]
    else if cp < 0x800 then
      TwoBytes(Byte(0xC0 + cp / 64), d);
      [Byte(0xC0 + cp / 64)] + [d]
    else
      var q := cp / 64;
      var c := Byte(0x80 + q % 64);
      if cp < 0x10000 then
        ThreeBytes(Byte(0xE0 + q / 64), c, d);
        [Byte(0xE0 + q / 64)] + ([c] + [d])
      else
        var p := q / 64;
        var b := Byte(0x80 + p % 64);
        FourBytes(Byte(0xF0 + p / 64), b, c, d);
        [Byte(0xF0 + p / 64)] + ([b] + ([c] + [d]))
  }

  // ---------------------------------------------------------------- what is well formed

  /** The encoding of a text given as Unicode scalar values. */
  function Encodings(cps: seq<int>): bytes
    requires forall i :: 0 <= i < |cps| ==> IsScalar(cps[i])
  {
    if cps == [] then [] else Encode(cps[0]) + Encodings(cps[1..])
  }

  lemma {:induction false} EncodedIsValid(cps: seq<int>)
    requires forall i :: 0 <= i < |cps| ==> IsScalar(cps[i])
    ensures Valid(Encodings(cps))
  {
    if cps != [] {
      EncodedIsValid(cps[1..]);
      ValidAppend(Encode(cps[0]), Encodings(cps[1..]));
    }
  }

  lemma Digit64(a: nat, b: nat)
    requires b < 64
    ensures (a * 64 + b) / 64 == a && (a * 64 + b) % 64 == b
  {
  }

  /** Inside a character the next byte must be a continuation in range. */
  lemma NeedsTail(more: nat, lo: tail, hi: tail, t: bytes)
    requires Run(Need(more, lo, hi), t) == Boundary
    ensures t != [] && lo <= t[0] as int <= hi
    ensures Run(if more == 0 then Boundary else Need(more - 1, 0x80, 0xBF), t[1..]) == Boundary
  {
    if t != [] && !(lo <= t[0] as int <= hi) {
      BadStays(t[1..]);
    }
  }

  /** The bits of a continuation byte. */
  function Low(b: byte): int {
    b as int - 0x80
  }

  lemma TwoByteCharacter(t: bytes) returns (cp: int)
    requires t != [] && 0xC2 <= t[0] as int <= 0xDF && Valid(t)
    ensures |t| >= 2 && IsScalar(cp) && Encode(cp) == t[..2] && Valid(t[2..])
  {
    NeedsTail(0, 0x80, 0xBF, t[1..]);
    cp := (t[0] as int - 0xC0) * 64 + Low(t[1]);
    Digit64(t[0] as int - 0xC0, Low(t[1]));
    assert t[1..][1..] == t[2..] && t[..2] == [t[0]] + [t[1]];
  }

  /** The range of the second byte after the lead byte `n`. */
  function SecondLow(n: int): tail {
    if n == 0xE0 then 0xA0 else if n == 0xF0 then 0x90 else 0x80
  }

  function SecondHigh(n: int): tail {
    if n == 0xED then 0x9F else if n == 0xF4 then 0x8F else 0xBF
  }

  lemma ThreeByteCharacter(t: bytes) returns (cp: int)
    requires t != [] && 0xE0 <= t[0] as int <= 0xEF && Valid(t)
    ensures |t| >= 3 && IsScalar(cp) && Encode(cp) == t[..3] && Valid(t[3..])
  {
    var n := t[0] as int;
    NeedsTail(1, SecondLow(n), SecondHigh(n), t[1..]);
    assert t[1..][1..] == t[2..] && t[2..][1..] == t[3..];
    NeedsTail(0, 0x80, 0xBF, t[2..]);
    var q := (n - 0xE0) * 64 + Low(t[1]);
    cp := q * 64 + Low(t[2]);
    Digit64(q, Low(t[2]));
    Digit64(n - 0xE0, Low(t[1]));
    assert t[..3] == [t[0]] + ([t[1]] + [t[2]]);
  }

  lemma FourByteCharacter(t: bytes) returns (cp: int)
    requires t != [] && 0xF0 <= t[0] as int <= 0xF4 && Valid(t)
    ensures |t| >= 4 && IsScalar(cp) && Encode(cp) == t[..4] && Valid(t[4..])
  {
    var n := t[0] as int;
    NeedsTail(2, SecondLow(n), SecondHigh(n), t[1..]);
    assert t[1..][1..] == t[2..] && t[2..][1..] == t[3..] && t[3..][1..] == t[4..];
    NeedsTail(1, 0x80, 0xBF, t[2..]);
    NeedsTail(0, 0x80, 0xBF, t[3..]);
    var p := (n - 0xF0) * 64 + Low(t[1]);
    var q := p * 64 + Low(t[2]);
    cp := q * 64 + Low(t[3]);
    Digit64(q, Low(t[3]));
    Digit64(p, Low(t[2]));
    Digit64(n - 0xF0, Low(t[1]));
    assert t[..4] == [t[0]] + ([t[1]] + ([t[2]] + [t[3]]));
  }

  lemma FirstCharacter(t: bytes) returns (cp: int)
    requires t != [] && Valid(t)
    ensures IsScalar(cp) && Encode(cp) <= t && Valid(t[|Encode(cp)|..])
  {
    var n := t[0] as int;
    if n < 0x80 {
      cp := n;
    } else if 0xC2 <= n <= 0xDF {
      cp := TwoByteCharacter(t);
    } else if 0xE0 <= n <= 0xEF {
      cp := ThreeByteCharacter(t);
    } else if 0xF0 <= n <= 0xF4 {
      cp := FourByteCharacter(t);
    } else {
      BadStays(t[1..]);
      assert false;
    }
  }

  /** A byte string is well formed only if it encodes some scalar values: no
      surrogate, no overlong form and nothing beyond the last code point. */
  lemma {:induction false} ValidIsEncoded(t: bytes) returns (cps: seq<int>)
    requires Valid(t)
    ensures (forall i :: 0 <= i < |cps| ==> IsScalar(cps[i])) && Encodings(cps) == t
    decreases |t|
  {
    cps := [];
    if t != [] {
      var cp := FirstCharacter(t);
      var rest := ValidIsEncoded(t[|Encode(cp)|..]);
      cps := [cp] + rest;
      assert cps[1..] == rest;
    }
  }
}
