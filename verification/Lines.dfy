/** A JSONL file as the pieces of record lines that reached it, and what a line
    reader makes of it. */
module Lines {
  import opened Bytes
  import opened Json
  import opened JsonStrings
  import opened JsonFragments
  import opened Sums

  // ---------------------------------------------------------------- splitting

  datatype RawLine = RawLine(content: bytes, terminated: bool)

  /** The lines of `file` when `carry` has been read of the first one. */
  function Split(carry: bytes, file: bytes): seq<RawLine>
    decreases file
  {
    if file == [] then (if carry == [] then [] else [RawLine(carry, false)])
    else if file[0] == LF then [RawLine(carry, true)] + Split([], file[1..])
    else Split(carry + [file[0]], file[1..])
  }

  lemma {:induction false} SplitText(carry: bytes, t: bytes, rest: bytes)
    requires forall i :: 0 <= i < |t| ==> t[i] != LF
    ensures Split(carry, t + rest) == Split(carry + t, rest)
    decreases t
  {
    if t == [] {
      assert t + rest == rest && carry + t == carry;
    } else {
      assert (t + rest)[1..] == t[1..] + rest;
      SplitText(carry + [t[0]], t[1..], rest);
      assert carry + [t[0]] + t[1..] == carry + t;
    }
  }

  // ---------------------------------------------------------------- pieces

  /** One attempt to append `text` and a newline, of which `n` bytes landed; `id` is
      the number under which its record was offered. */
  datatype Piece<R> = Piece(id: nat, text: bytes, rec: R, n: nat)

  predicate IsWhole<R>(p: Piece<R>) {
    p.n == |p.text| + 1
  }

  /** The first `n` bytes of a line. */
  function Start(text: bytes, n: nat): bytes {
    if n <= |text| then text[..n] else text + [LF]
  }

  function Landed<R>(p: Piece<R>): bytes {
    Start(p.text, p.n)
  }

  /** The numbers of the pieces, in file order. */
  function Ids<R>(ps: seq<Piece<R>>): (ids: seq<nat>)
    ensures |ids| == |ps|
  {
    seq(|ps|, i requires 0 <= i < |ps| => ps[i].id)
  }

  function FileOf<R>(ps: seq<Piece<R>>): bytes {
    if ps == [] then [] else Landed(ps[0]) + FileOf(ps[1..])
  }

  lemma {:induction false} FileOfAppend<R>(a: seq<Piece<R>>, b: seq<Piece<R>>)
    ensures FileOf(a + b) == FileOf(a) + FileOf(b)
  {
    if a == [] {
      assert a + b == b;
    } else {
      assert (a + b)[0] == a[0] && (a + b)[1..] == a[1..] + b;
      FileOfAppend(a[1..], b);
      Regroup(Landed(a[0]), FileOf(a[1..]), FileOf(b));
    }
  }

  /** The pieces left when only the first `keep` bytes of the file survive. */
  function Cut<R>(ps: seq<Piece<R>>, keep: nat): seq<Piece<R>> {
    if ps == [] then []
    else if |Landed(ps[0])| <= keep then [ps[0]] + Cut(ps[1..], keep - |Landed(ps[0])|)
    else [ps[0].(n := keep)]
  }

  lemma {:induction false} CutIsTruncation<R>(ps: seq<Piece<R>>, keep: nat)
    requires keep <= |FileOf(ps)|
    ensures FileOf(Cut(ps, keep)) == FileOf(ps)[..keep]
    decreases ps
  {
    if ps != [] {
      var l := Landed(ps[0]);
      if |l| <= keep {
        CutIsTruncation(ps[1..], keep - |l|);
        assert ([ps[0]] + Cut(ps[1..], keep - |l|))[1..] == Cut(ps[1..], keep - |l|);
        assert FileOf(ps)[..keep] == l + FileOf(ps[1..])[..keep - |l|];
      } else {
        assert FileOf(ps)[..keep] == l[..keep];
        assert FileOf([ps[0].(n := keep)]) == Landed(ps[0].(n := keep)) + [];
      }
    }
  }

  lemma {:induction false} CutIds<R>(ps: seq<Piece<R>>, keep: nat)
    ensures Ids(Cut(ps, keep)) <= Ids(ps)
    decreases ps
  {
    if ps != [] && |Landed(ps[0])| <= keep {
      var rest := Cut(ps[1..], keep - |Landed(ps[0])|);
      CutIds(ps[1..], keep - |Landed(ps[0])|);
      assert Ids([ps[0]] + rest) == [ps[0].id] + Ids(rest);
      assert Ids(ps) == [ps[0].id] + Ids(ps[1..]);
    }
  }

  // ---------------------------------------------------------------- readers

  /** What a reader makes of one line. */
  datatype Reading<R> = Counted(rec: R) | Ignored | Unreadable

  datatype Tally<R> = Tally(counted: seq<R>, unparseable: nat, partialTail: bool)

  const BLANKS: bytes := [' ', '\t', LF, Byte(12), CR]

  predicate AllBlank(t: bytes) {
    forall i :: 0 <= i < |t| ==> t[i] in BLANKS
  }

  /** A line added in front of a tally of the lines behind it. */
  function Add<R>(read: bytes -> Reading<R>, line: RawLine, t: Tally<R>): Tally<R> {
    match read(line.content)
    case Counted(r) => t.(counted := [r] + t.counted)
    case Ignored => t
    case Unreadable =>
      if line.terminated then t.(unparseable := t.unparseable + 1)
      else t.(partialTail := t.partialTail || !AllBlank(line.content))
  }

  function Scan<R>(read: bytes -> Reading<R>, lines: seq<RawLine>): Tally<R> {
    if lines == [] then Tally([], 0, false) else Add(read, lines[0], Scan(read, lines[1..]))
  }

  // ---------------------------------------------------------------- order of lines

  /** Tallies of the same lines, up to the order in which they were counted. */
  predicate SameTally<R(==)>(t: Tally<R>, u: Tally<R>) {
    multiset(t.counted) == multiset(u.counted) && t.unparseable == u.unparseable && t.partialTail == u.partialTail
  }

  lemma AddSame<R>(read: bytes -> Reading<R>, line: RawLine, t: Tally<R>, u: Tally<R>)
    requires SameTally(t, u)
    ensures SameTally(Add(read, line, t), Add(read, line, u))
  {
  }

  lemma AddCommutes<R>(read: bytes -> Reading<R>, x: RawLine, y: RawLine, t: Tally<R>)
    ensures SameTally(Add(read, x, Add(read, y, t)), Add(read, y, Add(read, x, t)))
  {
    if read(x.content).Counted? && read(y.content).Counted? {
      Swapped(read(x.content).rec, read(y.content).rec, t.counted);
    } else {
      assert Add(read, x, Add(read, y, t)) == Add(read, y, Add(read, x, t));
    }
  }

  lemma Swapped<T>(a: T, b: T, rest: seq<T>)
    ensures multiset([a] + ([b] + rest)) == multiset([b] + ([a] + rest))
  {
    assert multiset([a] + ([b] + rest)) == multiset{a} + (multiset{b} + multiset(rest));
    assert multiset([b] + ([a] + rest)) == multiset{b} + (multiset{a} + multiset(rest));
  }

  /** Any one line may be read first. */
  lemma {:induction false} ScanFirst<R>(read: bytes -> Reading<R>, lines: seq<RawLine>, i: nat)
    requires i < |lines|
    ensures SameTally(Scan(read, lines), Add(read, lines[i], Scan(read, lines[..i] + lines[i + 1..])))
    decreases i
  {
    if i == 0 {
      assert lines[..0] + lines[1..] == lines[1..];
    } else {
      var rest := lines[1..];
      var others := rest[..i - 1] + rest[i..];
      ScanFirst(read, rest, i - 1);
      Around(lines, i);
      ScanMoved(read, lines[0], lines[i], Scan(read, rest), others);
    }
  }

  lemma Around<T>(xs: seq<T>, i: nat)
    requires 0 < i < |xs|
    ensures xs[1..][i - 1] == xs[i]
    ensures xs[..i] + xs[i + 1..] == [xs[0]] + (xs[1..][..i - 1] + xs[1..][i..])
  {
  }

  lemma ScanMoved<R>(read: bytes -> Reading<R>, x: RawLine, y: RawLine, t: Tally<R>, others: seq<RawLine>)
    requires SameTally(t, Add(read, y, Scan(read, others)))
    ensures SameTally(Add(read, x, t), Add(read, y, Scan(read, [x] + others)))
  {
    AddSame(read, x, t, Add(read, y, Scan(read, others)));
    AddCommutes(read, x, y, Scan(read, others));
    ScanCons(read, x, others, [x] + others);
  }

  lemma ScanCons<R>(read: bytes -> Reading<R>, line: RawLine, rest: seq<RawLine>, lines: seq<RawLine>)
    requires lines == [line] + rest
    ensures Scan(read, lines) == Add(read, line, Scan(read, rest))
  {
    assert lines[1..] == rest;
  }

  /** The tally of a file does not depend on the order of its lines. */
  lemma {:induction false} ScanIgnoresOrder<R>(read: bytes -> Reading<R>, a: seq<RawLine>, b: seq<RawLine>)
    requires multiset(a) == multiset(b)
    ensures SameTally(Scan(read, a), Scan(read, b))
    decreases |a|
  {
    if a == [] {
      assert |multiset(b)| == |b|;
    } else {
      var i := FirstElsewhere(a, b);
      var rest := b[..i] + b[i + 1..];
      ScanIgnoresOrder(read, a[1..], rest);
      AddSame(read, a[0], Scan(read, a[1..]), Scan(read, rest));
      ScanFirst(read, b, i);
    }
  }

  /** The file of the given lines. */
  function Unsplit(lines: seq<RawLine>): bytes {
    if lines == [] then [] else lines[0].content + [LF] + Unsplit(lines[1..])
  }

  predicate IsLine(line: RawLine) {
    line.terminated && forall i :: 0 <= i < |line.content| ==> line.content[i] != LF
  }

  lemma {:induction false} SplitUnsplit(lines: seq<RawLine>)
    requires forall i :: 0 <= i < |lines| ==> IsLine(lines[i])
    ensures Split([], Unsplit(lines)) == lines
  {
    if lines != [] {
      var c, rest := lines[0].content, Unsplit(lines[1..]);
      SplitUnsplit(lines[1..]);
      assert c + [LF] + rest == c + ([LF] + rest);
      SplitText([], c, [LF] + rest);
      assert [] + c == c && ([LF] + rest)[1..] == rest;
    }
  }

  // ---------------------------------------------------------------- expectation

  /** What precedes the next piece on its line: nothing, one complete text
      without its newline, or something no reader can use. */
  datatype Carry<R> = Clean | Complete(rec: R) | Torn

  function Next<R>(c: Carry<R>, p: Piece<R>): Carry<R> {
    if p.n == 0 then c
    else if IsWhole(p) then Clean
    else if c.Clean? && p.n == |p.text| then Complete(p.rec)
    else Torn
  }

  /** The tally a file of these pieces must get, told from the pieces alone: a
      whole piece on a clean line counts, one behind a fragment is unparseable,
      and a tail counts only if it is exactly one complete text. */
  function Expected<R>(c: Carry<R>, ps: seq<Piece<R>>): Tally<R>
    decreases ps
  {
    if ps == [] then
      match c
      case Clean => Tally([], 0, false)
      case Complete(r) => Tally([r], 0, false)
      case Torn => Tally([], 0, true)
    else
      var t := Expected(Next(c, ps[0]), ps[1..]);
      if !IsWhole(ps[0]) then t
      else if c.Clean? then t.(counted := [ps[0].rec] + t.counted)
      else t.(unparseable := t.unparseable + 1)
  }

  // ---------------------------------------------------------------- torn lines

  /** A piece a gateway can have written: the text of one object on one line. */
  predicate Shaped<R>(p: Piece<R>) {
    IsObjectText(p.text) && OpensLikeRecord(p.text) && NoControl(p.text) && p.n <= |p.text| + 1
  }

  predicate Wrecked(s: State) {
    s.Fail? || Inside(s) || IsDone(s)
  }

  /** `content` ends in the first `n` bytes of a record text `t`, and what comes
      before is the start of a line already begun; or it is a cut text alone. */
  ghost predicate TornBy(content: bytes, a: bytes, t: bytes, n: nat) {
    && IsObjectText(t) && OpensLikeRecord(t) && NoControl(t) && 0 < n <= |t|
    && content == a + t[..n]
    && (a == [] ==> n < |t|)
    && (a != [] ==> a[0] == '{' && Wrecked(Run(Init, a)))
  }

  ghost predicate IsTorn(content: bytes) {
    exists a, t, n :: TornBy(content, a, t, n)
  }

  /** Reading a torn line always fails, or ends with a container still open. */
  lemma TornNeverParses(content: bytes)
    requires IsTorn(content)
    ensures Run(Init, content).Fail? || Inside(Run(Init, content))
    ensures FromSlice(content) == None
    ensures content != [] && content[0] == '{' && content[|content| - 1] >= ' '
  {
    var a, t, n :| TornBy(content, a, t, n);
    if a == [] {
      assert content == t[..n];
      ProperPrefixInside(t, n);
    } else {
      RunAppend(Init, a, t[..n]);
      var s := Run(Init, a);
      if s.Fail? {
        FailStays(t[..n]);
      } else if Inside(s) {
        GluedInside(s, t, n);
      } else {
        GluedAfterDone(s, t, n);
      }
    }
  }

  // ---------------------------------------------------------------- exactness

  /** The bytes before the next piece on its line, as the carry describes them. */
  ghost predicate Describes<R>(read: bytes -> Reading<R>, c: Carry<R>, carry: bytes) {
    match c
    case Clean => carry == []
    case Complete(r) => read(carry) == Counted(r) && IsObjectText(carry)
    case Torn => IsTorn(carry)
  }

  /** A reader that counts every record text and finds torn lines `bad`. */
  ghost predicate ReadsRecords<R>(read: bytes -> Reading<R>, ps: seq<Piece<R>>, bad: Reading<R>) {
    && !bad.Counted?
    && (forall i :: 0 <= i < |ps| ==> Shaped(ps[i]) && read(ps[i].text) == Counted(ps[i].rec))
    && (forall content :: IsTorn(content) ==> read(content) == bad)
  }

  lemma CarryOn<R(!new)>(read: bytes -> Reading<R>, c: Carry<R>, carry: bytes, p: Piece<R>, bad: Reading<R>)
    requires ReadsRecords(read, [p], bad) && Describes(read, c, carry) && !IsWhole(p)
    ensures Describes(read, Next(c, p), carry + Landed(p))
  {
    assert p == [p][0];
    if p.n == 0 {
      assert carry + Landed(p) == carry;
    } else if c.Clean? {
      assert carry + Landed(p) == p.text[..p.n];
      if p.n < |p.text| {
        assert TornBy(p.text[..p.n], [], p.text, p.n);
      } else {
        assert p.text[..p.n] == p.text;
      }
    } else {
      Gluing(read, c, carry, p, bad);
    }
  }

  /** Anything appended to a line already begun tears it. */
  lemma Gluing<R(!new)>(read: bytes -> Reading<R>, c: Carry<R>, carry: bytes, p: Piece<R>, bad: Reading<R>)
    requires ReadsRecords(read, [p], bad) && Describes(read, c, carry) && !c.Clean? && p.n > 0
    ensures IsTorn(carry + p.text[..if p.n <= |p.text| then p.n else |p.text|])
  {
    assert p == [p][0];
    if c.Torn? {
      TornNeverParses(carry);
    }
    var n := if p.n <= |p.text| then p.n else |p.text|;
    assert TornBy(carry + p.text[..n], carry, p.text, n);
  }

  /** Every reader of this kind gets exactly the expected tally, whatever mix of
      whole, partial and empty pieces the file was made of. */
  lemma {:induction false} ReaderIsExact<R(!new)>(read: bytes -> Reading<R>, c: Carry<R>, carry: bytes, ps: seq<Piece<R>>, bad: Reading<R>)
    requires ReadsRecords(read, ps, bad) && Describes(read, c, carry)
    ensures Scan(read, Split(carry, FileOf(ps))).counted == Expected(c, ps).counted
    ensures bad.Unreadable? ==> Scan(read, Split(carry, FileOf(ps))) == Expected(c, ps)
    decreases ps
  {
    if ps == [] {
      TailIsExact(read, c, carry, bad);
    } else {
      var p, rest := ps[0], ps[1..];
      assert ReadsRecords(read, [p], bad);
      if !IsWhole(p) {
        CarryOn(read, c, carry, p, bad);
        SplitText(carry, Landed(p), FileOf(rest));
        ReaderIsExact(read, Next(c, p), carry + Landed(p), rest, bad);
      } else {
        ReaderIsExact(read, Clean, [], rest, bad);
        WholePiece(read, c, carry, p, FileOf(rest), bad);
        AddWhole(read, RawLine(carry + p.text, true), Split([], FileOf(rest)));
      }
    }
  }

  lemma AddWhole<R(!new)>(read: bytes -> Reading<R>, line: RawLine, rest: seq<RawLine>)
    ensures Scan(read, [line] + rest) == Add(read, line, Scan(read, rest))
  {
    assert ([line] + rest)[1..] == rest;
  }

  /** What is left after the last newline. */
  lemma TailIsExact<R(!new)>(read: bytes -> Reading<R>, c: Carry<R>, carry: bytes, bad: Reading<R>)
    requires ReadsRecords(read, [], bad) && Describes(read, c, carry)
    ensures Scan(read, Split(carry, [])).counted == Expected(c, []).counted
    ensures bad.Unreadable? ==> Scan(read, Split(carry, [])) == Expected(c, [])
  {
    if c.Torn? {
      TornNeverParses(carry);
      assert carry[0] !in BLANKS;
    }
    assert carry != [] ==> Split(carry, [])[1..] == [];
  }

  lemma WholePiece<R(!new)>(read: bytes -> Reading<R>, c: Carry<R>, carry: bytes, p: Piece<R>, rest: bytes, bad: Reading<R>)
    requires ReadsRecords(read, [p], bad) && Describes(read, c, carry) && IsWhole(p)
    ensures Split(carry, Landed(p) + rest) == [RawLine(carry + p.text, true)] + Split([], rest)
    ensures read(carry + p.text) == if c.Clean? then Counted(p.rec) else bad
  {
    assert p == [p][0];
    assert Landed(p) + rest == p.text + ([LF] + rest);
    SplitText(carry, p.text, [LF] + rest);
    assert ([LF] + rest)[1..] == rest;
    if c.Clean? {
      assert carry + p.text == p.text;
    } else {
      Gluing(read, c, carry, p, bad);
      assert p.text[..|p.text|] == p.text;
    }
  }

  // ---------------------------------------------------------------- counting

  function CarryAfter<R>(c: Carry<R>, ps: seq<Piece<R>>): Carry<R>
    decreases ps
  {
    if ps == [] then c else CarryAfter(Next(c, ps[0]), ps[1..])
  }

  /** Pieces written to the last byte. */
  function Wholes<R>(ps: seq<Piece<R>>): nat {
    if ps == [] then 0 else (if IsWhole(ps[0]) then 1 else 0) + Wholes(ps[1..])
  }

  /** Pieces that left some bytes but not the newline. */
  function Fragments<R>(ps: seq<Piece<R>>): nat {
    if ps == [] then 0 else (if 0 < ps[0].n && !IsWhole(ps[0]) then 1 else 0) + Fragments(ps[1..])
  }

  predicate AtLineStart(file: bytes) {
    file == [] || file[|file| - 1] == LF
  }

  lemma LineStartAfter<R>(c: Carry<R>, before: bytes, p: Piece<R>)
    requires Shaped(p) && (c.Clean? <==> AtLineStart(before))
    ensures Next(c, p).Clean? <==> AtLineStart(before + Landed(p))
  {
    var l := Landed(p);
    if l == [] {
      assert before + l == before;
    } else {
      assert (before + l)[|before + l| - 1] == l[|l| - 1];
    }
  }

  /** The carry is clean exactly when the file so far is empty or ends in a newline. */
  lemma {:induction false} CleanIsLineStart<R>(c: Carry<R>, before: bytes, ps: seq<Piece<R>>)
    requires forall i :: 0 <= i < |ps| ==> Shaped(ps[i])
    requires c.Clean? <==> AtLineStart(before)
    ensures CarryAfter(c, ps).Clean? <==> AtLineStart(before + FileOf(ps))
    decreases ps
  {
    if ps == [] {
      assert before + FileOf(ps) == before;
    } else {
      var l := Landed(ps[0]);
      Regroup(before, l, FileOf(ps[1..]));
      LineStartAfter(c, before, ps[0]);
      CleanIsLineStart(Next(c, ps[0]), before + l, ps[1..]);
    }
  }

  /** Every whole line is counted or unparseable, each unparseable one has its own
      fragment before it, and the tail is counted or reported, never both. */
  lemma {:induction false} ExpectedCounts<R>(c: Carry<R>, ps: seq<Piece<R>>)
    requires forall i :: 0 <= i < |ps| ==> Shaped(ps[i])
    ensures var t := Expected(c, ps); var last := CarryAfter(c, ps);
      && |t.counted| + t.unparseable == Wholes(ps) + (if last.Complete? then 1 else 0)
      && t.unparseable + (if last.Clean? then 0 else 1) <= Fragments(ps) + (if c.Clean? then 0 else 1)
      && t.partialTail == last.Torn?
    decreases ps
  {
    if ps != [] {
      ExpectedCounts(Next(c, ps[0]), ps[1..]);
    }
  }

  /** Counted lines fall short of the whole ones by at most the fragments. */
  lemma CountedAtLeast<R>(ps: seq<Piece<R>>)
    requires forall i :: 0 <= i < |ps| ==> Shaped(ps[i])
    ensures |Expected(Clean, ps).counted| >= Wholes(ps) - Fragments(ps)
  {
    ExpectedCounts(Clean, ps);
  }

  /** Without fragments the counted records are the written ones, in order. */
  lemma {:induction false} WholeFile<R>(ps: seq<Piece<R>>)
    requires forall i :: 0 <= i < |ps| ==> IsWhole(ps[i])
    ensures Expected(Clean, ps) == Tally(seq(|ps|, i requires 0 <= i < |ps| => ps[i].rec), 0, false)
  {
    if ps != [] {
      WholeFile(ps[1..]);
      var a := seq(|ps|, i requires 0 <= i < |ps| => ps[i].rec);
      var b := seq(|ps| - 1, i requires 0 <= i < |ps| - 1 => ps[1..][i].rec);
      assert a == [ps[0].rec] + b;
    }
  }
}
