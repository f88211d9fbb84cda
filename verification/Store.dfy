/** The audit store (src/usage.rs): producers offering records to a bounded queue,
    one writer appending lines that may land only in part, crashes that truncate
    the file, and restarts that append to it. `R` is the record type and `enc` its
    serialization, without the newline. */
module Store {
  import opened Bytes
  import opened Lines

  const QUEUE_CAPACITY: nat := 2048

  /** Records are named by their offer number, so that order can be told. */
  datatype Store<R> = Store(
    offered: seq<R>,
    queue: seq<nat>,
    flight: Option<nat>,          // taken by the writer, not yet written
    attempts: seq<nat>,           // writes that returned, whole or failed
    failures: nat,                // how many of them failed
    dropped: seq<nat>,
    lost: seq<nat>,               // queued or in flight when a writer died
    open: bool,                   // the sender has not been dropped
    writer: bool,                 // the writer thread is alive
    file: bytes,
    pieces: seq<Piece<R>>,        // what the file is made of
    dropWarned: bool,
    dropMessages: nat,
    writeWarned: bool,
    writeMessages: nat)

  datatype Step<R> =
    | Offer(r: R)
    | Take                        // the writer receives the next record
    | Write(n: nat)               // its line lands in part or whole
    | CloseSender
    | Exit                        // the writer ends once closed and drained
    | WriterDies(n: nat)          // with the line in flight partly written
    | Crash(n: nat, keep: nat)    // the same, and the file keeps `keep` bytes
    | Restart

  function Fresh<R>(): Store<R> {
    Store([], [], None, [], 0, [], [], true, true, [], [], false, 0, false, 0)
  }

  /** One-shot warning: the flag after, and whether a message is printed. */
  function WarnOnce(flag: bool): (bool, nat) {
    (true, if flag then 0 else 1)
  }

  predicate Accepts<R>(s: Store<R>) {
    s.open && s.writer && |s.queue| < QUEUE_CAPACITY
  }

  function PieceOf<R>(enc: R -> bytes, offered: seq<R>, id: nat, n: nat): Piece<R>
    requires id < |offered|
  {
    Piece(id, enc(offered[id]), offered[id], n)
  }

  function Append<R>(s: Store<R>, p: Piece<R>): Store<R> {
    s.(file := s.file + Landed(p), pieces := s.pieces + [p])
  }

  function FlightIds<R>(s: Store<R>): seq<nat> {
    if s.flight.Some? then [s.flight.value] else []
  }

  predicate CanLand<R>(enc: R -> bytes, s: Store<R>, n: nat) {
    s.flight.Some? ==> s.flight.value < |s.offered| && n <= |enc(s.offered[s.flight.value])| + 1
  }

  /** The line in flight leaves `n` bytes and everything unwritten is lost. */
  function Die<R>(enc: R -> bytes, s: Store<R>, n: nat): Store<R>
    requires CanLand(enc, s, n)
  {
    var t := if s.flight.Some? then Append(s, PieceOf(enc, s.offered, s.flight.value, n)) else s;
    t.(lost := s.lost + FlightIds(s) + s.queue, flight := None, queue := [], writer := false)
  }

  predicate Enabled<R>(enc: R -> bytes, s: Store<R>, step: Step<R>) {
    match step
    case Offer(_) => true
    case Take => s.writer && s.flight.None? && s.queue != []
    case Write(n) => s.writer && s.flight.Some? && CanLand(enc, s, n)
    case CloseSender => s.open
    case Exit => s.writer && !s.open && s.flight.None? && s.queue == []
    case WriterDies(n) => s.writer && CanLand(enc, s, n)
    case Crash(n, keep) => CanLand(enc, s, n) && keep <= |Die(enc, s, n).file|
    case Restart => !s.open && !s.writer
  }

  function Do<R>(enc: R -> bytes, s: Store<R>, step: Step<R>): Store<R>
    requires Enabled(enc, s, step)
  {
    match step
    case Offer(r) =>
      var t := s.(offered := s.offered + [r]);
      if Accepts(s) then t.(queue := s.queue + [|s.offered|])
      else t.(dropped := s.dropped + [|s.offered|], dropWarned := true, dropMessages := s.dropMessages + WarnOnce(s.dropWarned).1)
    case Take => s.(flight := Some(s.queue[0]), queue := s.queue[1..])
    case Write(n) =>
      var p := PieceOf(enc, s.offered, s.flight.value, n);
      var t := Append(s, p).(attempts := s.attempts + [s.flight.value], flight := None);
      if IsWhole(p) then t
      else t.(failures := s.failures + 1, writeWarned := true, writeMessages := s.writeMessages + WarnOnce(s.writeWarned).1)
    case CloseSender => s.(open := false)
    case Exit => s.(writer := false)
    case WriterDies(n) => Die(enc, s, n)
    case Crash(n, keep) =>
      var d := Die(enc, s, n);
      d.(open := false, file := d.file[..keep], pieces := Cut(d.pieces, keep))
    case Restart => s.(open := true, writer := true, dropWarned := false, dropMessages := 0, writeWarned := false, writeMessages := 0)
  }

  predicate ValidRun<R>(enc: R -> bytes, s: Store<R>, steps: seq<Step<R>>)
    decreases steps
  {
    steps == [] || (Enabled(enc, s, steps[0]) && ValidRun(enc, Do(enc, s, steps[0]), steps[1..]))
  }

  function Run<R>(enc: R -> bytes, s: Store<R>, steps: seq<Step<R>>): Store<R>
    requires ValidRun(enc, s, steps)
    decreases steps
  {
    if steps == [] then s else Run(enc, Do(enc, s, steps[0]), steps[1..])
  }

  // ---------------------------------------------------------------- invariant

  predicate Increasing(ids: seq<nat>) {
    forall i, j :: 0 <= i < j < |ids| ==> ids[i] < ids[j]
  }

  /** Offers still on their way to the file, or through with it, oldest first. */
  function Admitted<R>(s: Store<R>): seq<nat> {
    s.attempts + FlightIds(s) + s.queue
  }

  /** Where every offer is: attempted, in flight, queued, dropped or lost. */
  function Everywhere<R>(s: Store<R>): seq<nat> {
    Admitted(s) + s.dropped + s.lost
  }

  /** Offered = attempted + in flight + queued + dropped + lost: there are as many
      places as offers, and every offer has one. */
  predicate Conserved<R>(s: Store<R>) {
    && |s.offered| == |s.attempts| + |FlightIds(s)| + |s.queue| + |s.dropped| + |s.lost|
    && (forall id :: 0 <= id < |s.offered| ==> id in Everywhere(s))
  }

  predicate Below(ids: seq<nat>, n: nat) {
    forall i :: 0 <= i < |ids| ==> ids[i] < n
  }

  predicate InOrder<R>(s: Store<R>) {
    Increasing(Admitted(s)) && Below(Admitted(s), |s.offered|)
  }

  /** The file is made of its pieces, and each is the line of an offered record. */
  predicate Faithful<R(==)>(enc: R -> bytes, s: Store<R>) {
    && s.file == FileOf(s.pieces)
    && Genuine(enc, s.pieces, s.offered)
  }

  predicate Genuine<R(==)>(enc: R -> bytes, ps: seq<Piece<R>>, offered: seq<R>) {
    forall i :: 0 <= i < |ps| ==>
      && ps[i].id < |offered| && ps[i].rec == offered[ps[i].id]
      && ps[i].text == enc(ps[i].rec) && ps[i].n <= |ps[i].text| + 1
  }

  predicate Bounded<R>(s: Store<R>) {
    && |s.queue| <= QUEUE_CAPACITY
    && s.failures <= |s.attempts|
    && s.dropMessages == (if s.dropWarned then 1 else 0)
    && s.writeMessages == (if s.writeWarned then 1 else 0)
    && (!s.writer ==> s.flight.None? && s.queue == [])
    && Below(s.dropped, |s.offered|)
  }

  /** What is in the file, in flight or queued, by number. */
  function Onward<R>(s: Store<R>): seq<nat> {
    Ids(s.pieces) + FlightIds(s) + s.queue
  }

  /** Lines reach the file in the order of their offers, each at most once. */
  predicate Filed<R>(s: Store<R>) {
    Increasing(Onward(s)) && Below(Onward(s), |s.offered|)
  }

  predicate Inv<R(==)>(enc: R -> bytes, s: Store<R>) {
    Conserved(s) && InOrder(s) && Faithful(enc, s) && Filed(s) && Bounded(s)
  }

  lemma FreshInv<R>(enc: R -> bytes)
    ensures Inv(enc, Fresh<R>())
  {
  }

  predicate Dies<R>(step: Step<R>) {
    step.WriterDies? || step.Crash?
  }

  /** How one step moves offers between their places. */
  predicate Moves<R>(s: Store<R>, t: Store<R>, step: Step<R>) {
    && |t.offered| == |s.offered| + (if step.Offer? then 1 else 0)
    && t.attempts == (if step.Write? then s.attempts + FlightIds(s) else s.attempts)
    && (step.Take? ==> FlightIds(s) == [] && s.queue != [])
    && FlightIds(t) == (if step.Take? then s.queue[..1] else if step.Write? || Dies(step) then [] else FlightIds(s))
    && t.queue == (if Dies(step) then [] else if step.Take? then s.queue[1..]
                   else if step.Offer? && Accepts(s) then s.queue + [|s.offered|] else s.queue)
    && t.dropped == (if step.Offer? && !Accepts(s) then s.dropped + [|s.offered|] else s.dropped)
    && t.lost == (if Dies(step) then s.lost + FlightIds(s) + s.queue else s.lost)
  }

  lemma StepMoves<R>(enc: R -> bytes, s: Store<R>, step: Step<R>)
    requires Enabled(enc, s, step)
    ensures Moves(s, Do(enc, s, step), step)
  {
  }

  /** Nothing but an accepted offer changes the order of the admitted records. */
  lemma AdmittedMoves<R>(s: Store<R>, t: Store<R>, step: Step<R>)
    requires Moves(s, t, step)
    ensures
      if step.Offer? && Accepts(s) then Admitted(t) == Admitted(s) + [|s.offered|]
      else if Dies(step) then Admitted(t) == s.attempts
      else Admitted(t) == Admitted(s)
  {
    if step.Take? {
      assert s.queue == s.queue[..1] + s.queue[1..];
    }
  }

  lemma KeptPlace<R>(s: Store<R>, t: Store<R>, step: Step<R>, id: nat)
    requires Moves(s, t, step) && id in Everywhere(s)
    ensures id in Everywhere(t)
  {
    AdmittedMoves(s, t, step);
    assert id in Admitted(s) || id in s.dropped || id in s.lost;
    if Dies(step) && id in Admitted(s) {
      assert id in s.attempts || id in t.lost;
    }
  }

  lemma StepConserves<R>(enc: R -> bytes, s: Store<R>, step: Step<R>)
    requires Conserved(s) && Enabled(enc, s, step)
    ensures Conserved(Do(enc, s, step))
  {
    StepMoves(enc, s, step);
    MovesConserve(s, Do(enc, s, step), step);
  }

  lemma MovesConserve<R>(s: Store<R>, t: Store<R>, step: Step<R>)
    requires Conserved(s) && Moves(s, t, step)
    ensures Conserved(t)
  {
    forall id | 0 <= id < |t.offered| ensures id in Everywhere(t) {
      if id < |s.offered| {
        assert id in Everywhere(s);
        KeptPlace(s, t, step, id);
      }
    }
  }

  lemma StepOrders<R>(enc: R -> bytes, s: Store<R>, step: Step<R>)
    requires InOrder(s) && Enabled(enc, s, step)
    ensures InOrder(Do(enc, s, step))
  {
    StepMoves(enc, s, step);
    MovesKeepOrder(s, Do(enc, s, step), step);
  }

  lemma MovesKeepOrder<R>(s: Store<R>, t: Store<R>, step: Step<R>)
    requires InOrder(s) && Moves(s, t, step)
    ensures InOrder(t)
  {
    AdmittedMoves(s, t, step);
    var n, m := |s.offered|, |t.offered|;
    var before, after := Admitted(s), Admitted(t);
    assert n <= m;
    OrderedAppend(before, n);
    if Dies(step) {
      assert before == s.attempts + (FlightIds(s) + s.queue);
      OrderedPrefix(s.attempts, FlightIds(s) + s.queue, n);
    } else if !(step.Offer? && Accepts(s)) {
      BelowMore(after, n, m);
    }
  }

  lemma OrderedAppend(ids: seq<nat>, n: nat)
    requires Increasing(ids) && Below(ids, n)
    ensures Increasing(ids + [n]) && Below(ids + [n], n + 1)
  {
  }

  lemma OrderedPrefix(a: seq<nat>, b: seq<nat>, n: nat)
    requires Increasing(a + b) && Below(a + b, n)
    ensures Increasing(a) && Below(a, n)
  {
    assert forall i :: 0 <= i < |a| ==> a[i] == (a + b)[i];
  }

  /** How one step changes the pieces of the file. */
  predicate Files<R>(s: Store<R>, t: Store<R>, step: Step<R>) {
    if Dies(step) then Ids(t.pieces) <= Ids(s.pieces) + FlightIds(s)
    else Ids(t.pieces) == (if step.Write? then Ids(s.pieces) + FlightIds(s) else Ids(s.pieces))
  }

  lemma StepFiles<R>(enc: R -> bytes, s: Store<R>, step: Step<R>)
    requires Enabled(enc, s, step)
    ensures Files(s, Do(enc, s, step), step)
  {
    if Dies(step) {
      assert Ids(Die(enc, s, step.n).pieces) == Ids(s.pieces) + FlightIds(s);
      if step.Crash? {
        CutIds(Die(enc, s, step.n).pieces, step.keep);
      }
    }
  }

  /** Only an accepted offer adds to what is under way, and a death cuts it short. */
  lemma OnwardMoves<R>(s: Store<R>, t: Store<R>, step: Step<R>)
    requires Moves(s, t, step) && Files(s, t, step)
    ensures
      if step.Offer? && Accepts(s) then Onward(t) == Onward(s) + [|s.offered|]
      else if Dies(step) then Onward(t) <= Onward(s)
      else Onward(t) == Onward(s)
  {
    if step.Take? {
      assert s.queue == s.queue[..1] + s.queue[1..];
    } else if Dies(step) {
      assert Onward(t) == Ids(t.pieces);
    }
  }

  lemma FilesKeepFiled<R>(s: Store<R>, t: Store<R>, step: Step<R>)
    requires Filed(s) && Moves(s, t, step) && Files(s, t, step)
    ensures Filed(t)
  {
    OnwardMoves(s, t, step);
    var n, m := |s.offered|, |t.offered|;
    var before, after := Onward(s), Onward(t);
    assert n <= m;
    OrderedAppend(before, n);
    if Dies(step) {
      assert before == after + before[|after|..];
      OrderedPrefix(after, before[|after|..], n);
    } else if !(step.Offer? && Accepts(s)) {
      BelowMore(after, n, m);
    }
  }

  lemma BelowMore(ids: seq<nat>, n: nat, m: nat)
    requires Below(ids, n) && n <= m
    ensures Below(ids, m)
  {
  }

  lemma StepFiled<R>(enc: R -> bytes, s: Store<R>, step: Step<R>)
    requires Filed(s) && Enabled(enc, s, step)
    ensures Filed(Do(enc, s, step))
  {
    StepMoves(enc, s, step);
    StepFiles(enc, s, step);
    FilesKeepFiled(s, Do(enc, s, step), step);
  }

  lemma AppendFaithful<R>(enc: R -> bytes, s: Store<R>, id: nat, n: nat)
    requires Faithful(enc, s) && id < |s.offered| && n <= |enc(s.offered[id])| + 1
    ensures Faithful(enc, Append(s, PieceOf(enc, s.offered, id, n)))
  {
    var p := PieceOf(enc, s.offered, id, n);
    FileOfAppend(s.pieces, [p]);
    assert FileOf([p]) == Landed(p) + FileOf([p][1..]);
  }

  lemma {:induction false} CutGenuine<R>(enc: R -> bytes, ps: seq<Piece<R>>, keep: nat, offered: seq<R>)
    requires Genuine(enc, ps, offered)
    ensures Genuine(enc, Cut(ps, keep), offered)
    decreases ps
  {
    if ps != [] {
      if |Landed(ps[0])| <= keep {
        var rest := Cut(ps[1..], keep - |Landed(ps[0])|);
        CutGenuine(enc, ps[1..], keep - |Landed(ps[0])|, offered);
        assert Cut(ps, keep) == [ps[0]] + rest;
      } else {
        assert Cut(ps, keep) == [ps[0].(n := keep)];
      }
    }
  }

  lemma DieFaithful<R>(enc: R -> bytes, s: Store<R>, n: nat)
    requires Faithful(enc, s) && CanLand(enc, s, n)
    ensures Faithful(enc, Die(enc, s, n))
  {
    if s.flight.Some? {
      AppendFaithful(enc, s, s.flight.value, n);
    }
  }

  lemma StepFaithful<R>(enc: R -> bytes, s: Store<R>, step: Step<R>)
    requires Faithful(enc, s) && Enabled(enc, s, step)
    ensures Faithful(enc, Do(enc, s, step))
  {
    match step {
      case Write(n) => AppendFaithful(enc, s, s.flight.value, n);
      case WriterDies(n) => DieFaithful(enc, s, n);
      case Crash(n, keep) =>
        DieFaithful(enc, s, n);
        CutIsTruncation(Die(enc, s, n).pieces, keep);
        CutGenuine(enc, Die(enc, s, n).pieces, keep, s.offered);
      case _ =>
    }
  }

  lemma StepBounded<R>(enc: R -> bytes, s: Store<R>, step: Step<R>)
    requires Bounded(s) && Enabled(enc, s, step)
    ensures Bounded(Do(enc, s, step))
  {
    StepMoves(enc, s, step);
    if step.Offer? {
      assert Do(enc, s, step).failures == s.failures;
    } else if step.Write? {
      assert |Do(enc, s, step).attempts| == |s.attempts| + 1;
    }
  }

  lemma StepInv<R>(enc: R -> bytes, s: Store<R>, step: Step<R>)
    requires Inv(enc, s) && Enabled(enc, s, step)
    ensures Inv(enc, Do(enc, s, step))
  {
    StepConserves(enc, s, step);
    StepOrders(enc, s, step);
    StepFaithful(enc, s, step);
    StepFiled(enc, s, step);
    StepBounded(enc, s, step);
  }

  /** The invariant holds after every run of offers, writes, faults and restarts. */
  lemma {:induction false} RunInv<R>(enc: R -> bytes, s: Store<R>, steps: seq<Step<R>>)
    requires Inv(enc, s) && ValidRun(enc, s, steps)
    ensures Inv(enc, Run(enc, s, steps))
    decreases steps
  {
    if steps != [] {
      StepInv(enc, s, steps[0]);
      RunInv(enc, Do(enc, s, steps[0]), steps[1..]);
    }
  }

  // ---------------------------------------------------------------- consequences

  function Elements(ids: seq<nat>): set<nat> {
    set i | 0 <= i < |ids| :: ids[i]
  }

  lemma {:induction false} ElementsAtMost(ids: seq<nat>)
    ensures |Elements(ids)| <= |ids|
  {
    if ids != [] {
      var n := |ids| - 1;
      ElementsAtMost(ids[..n]);
      assert Elements(ids) == Elements(ids[..n]) + {ids[n]};
    }
  }

  lemma {:induction false} CoverSize(n: nat, cover: set<nat>)
    requires forall id :: 0 <= id < n ==> id in cover
    ensures |cover| >= n
  {
    if n > 0 {
      CoverSize(n - 1, cover - {n - 1});
    }
  }

  /** No offer is in two places at once. */
  lemma NowhereTwice<R>(s: Store<R>, i: nat, j: nat)
    requires Conserved(s) && i < j < |Everywhere(s)|
    ensures Everywhere(s)[i] != Everywhere(s)[j]
  {
    var all := Everywhere(s);
    if all[i] == all[j] {
      var without := all[..j] + all[j + 1..];
      forall id | 0 <= id < |s.offered| ensures id in Elements(without) {
        assert id in all;
        var k :| 0 <= k < |all| && all[k] == id;
        var k' := if k == j then i else k;
        assert without[if k' < j then k' else k' - 1] == id;
      }
      CoverSize(|s.offered|, Elements(without));
      ElementsAtMost(without);
      assert false;
    }
  }

  /** `xs` is `all` at the places `js`, in order. */
  predicate Picks<R(==)>(xs: seq<R>, js: seq<nat>, all: seq<R>) {
    && |js| == |xs| && Increasing(js)
    && (forall k :: 0 <= k < |js| ==> js[k] < |all| && all[js[k]] == xs[k])
  }

  predicate AtLeast(js: seq<nat>, lo: nat) {
    forall k :: 0 <= k < |js| ==> js[k] >= lo
  }

  lemma PicksCons<R>(x: R, xs: seq<R>, j: nat, js: seq<nat>, all: seq<R>)
    requires Picks(xs, js, all) && AtLeast(js, j + 1) && j < |all| && all[j] == x
    ensures Picks([x] + xs, [j] + js, all) && AtLeast([j] + js, j)
  {
  }

  /** The number under which the complete text before a piece was offered. */
  function NextId<R>(c: Carry<R>, id: nat, p: Piece<R>): nat {
    if p.n == 0 then id else p.id
  }

  ghost predicate CarryFrom<R>(c: Carry<R>, id: nat, lo: nat, ps: seq<Piece<R>>, offered: seq<R>) {
    && (c.Complete? ==> lo <= id < |offered| && offered[id] == c.rec)
    && AtLeast(Ids(ps), if c.Complete? then id + 1 else lo)
  }

  lemma NextFrom<R>(enc: R -> bytes, c: Carry<R>, id: nat, lo: nat, ps: seq<Piece<R>>, offered: seq<R>)
    requires ps != [] && Genuine(enc, ps, offered) && Increasing(Ids(ps)) && CarryFrom(c, id, lo, ps, offered)
    ensures Genuine(enc, ps[1..], offered) && Increasing(Ids(ps[1..]))
    ensures CarryFrom(Next(c, ps[0]), NextId(c, id, ps[0]), lo, ps[1..], offered)
    ensures lo <= ps[0].id && AtLeast(Ids(ps[1..]), ps[0].id + 1)
  {
    var ids, rest := Ids(ps), Ids(ps[1..]);
    assert forall i :: 0 <= i < |rest| ==> rest[i] == ids[i + 1];
    assert ids[0] == ps[0].id;
  }

  /** What a file of genuine pieces in order counts is a subsequence of the offers. */
  lemma {:induction false} CountedInOrder<R>(enc: R -> bytes, c: Carry<R>, id: nat, lo: nat, ps: seq<Piece<R>>, offered: seq<R>) returns (js: seq<nat>)
    requires Genuine(enc, ps, offered) && Increasing(Ids(ps)) && CarryFrom(c, id, lo, ps, offered)
    ensures Picks(Expected(c, ps).counted, js, offered) && AtLeast(js, lo)
    decreases ps
  {
    if ps == [] {
      js := if c.Complete? then [id] else [];
    } else {
      var p := ps[0];
      NextFrom(enc, c, id, lo, ps, offered);
      if IsWhole(p) && c.Clean? {
        js := CountedInOrder(enc, Clean, 0, p.id + 1, ps[1..], offered);
        PicksCons(p.rec, Expected(Clean, ps[1..]).counted, p.id, js, offered);
        js := [p.id] + js;
      } else {
        js := CountedInOrder(enc, Next(c, p), NextId(c, id, p), lo, ps[1..], offered);
      }
    }
  }

  /** After every run the counted records are a subsequence of the offered ones, in
      order: no offer is counted twice. */
  lemma CountedOnce<R>(enc: R -> bytes, s: Store<R>)
    requires Faithful(enc, s) && Filed(s)
    ensures exists js :: Picks(Expected(Clean, s.pieces).counted, js, s.offered)
  {
    assert Onward(s) == Ids(s.pieces) + (FlightIds(s) + s.queue);
    OrderedPrefix(Ids(s.pieces), FlightIds(s) + s.queue, |s.offered|);
    var js := CountedInOrder(enc, Clean, 0, 0, s.pieces, s.offered);
  }

  /** Whether an offer was dropped is settled once it has been made. */
  lemma {:induction false} DroppedStays<R>(enc: R -> bytes, s: Store<R>, steps: seq<Step<R>>, id: nat)
    requires ValidRun(enc, s, steps) && id < |s.offered|
    ensures var t := Run(enc, s, steps);
      && |s.offered| <= |t.offered| && t.offered[id] == s.offered[id]
      && (id in t.dropped <==> id in s.dropped)
    decreases steps
  {
    if steps != [] {
      StepMoves(enc, s, steps[0]);
      OfferedStep(enc, s, steps[0]);
      DroppedStays(enc, Do(enc, s, steps[0]), steps[1..], id);
    }
  }

  lemma OfferedStep<R>(enc: R -> bytes, s: Store<R>, step: Step<R>)
    requires Enabled(enc, s, step)
    ensures Do(enc, s, step).offered == if step.Offer? then s.offered + [step.r] else s.offered
  {
  }

  /** The record `r` offered in the state `at` has the next number in `end`, where it
      is dropped iff the queue was full or the sender or writer gone. */
  predicate Settled<R(==)>(at: Store<R>, r: R, end: Store<R>) {
    var id := |at.offered|;
    && id < |end.offered| && end.offered[id] == r
    && (id in end.dropped <==> |at.queue| == 2048 || !at.open || !at.writer)
  }

  lemma OfferSettles<R>(enc: R -> bytes, s: Store<R>, r: R)
    requires Bounded(s)
    ensures Settled(s, r, Do(enc, s, Offer(r)))
  {
    assert |s.offered| !in s.dropped;
  }

  lemma FirstOfferSettles<R>(enc: R -> bytes, s: Store<R>, steps: seq<Step<R>>)
    requires Bounded(s) && steps != [] && steps[0].Offer? && ValidRun(enc, s, steps)
    ensures Settled(s, steps[0].r, Run(enc, s, steps))
  {
    OfferSettles(enc, s, steps[0].r);
    DroppedStays(enc, Do(enc, s, steps[0]), steps[1..], |s.offered|);
  }

  /** On every run, whether an offer ends up dropped was decided by the state it was
      made in, and by nothing later. */
  lemma {:induction false} DropReason<R>(enc: R -> bytes, s: Store<R>, steps: seq<Step<R>>, k: nat)
    requires Bounded(s) && ValidRun(enc, s, steps) && k < |steps| && steps[k].Offer?
    ensures ValidRun(enc, s, steps[..k])
    ensures Settled(Run(enc, s, steps[..k]), steps[k].r, Run(enc, s, steps))
    decreases k
  {
    if k == 0 {
      assert steps[..0] == [];
      FirstOfferSettles(enc, s, steps);
    } else {
      StepBounded(enc, s, steps[0]);
      DropReason(enc, Do(enc, s, steps[0]), steps[1..], k - 1);
      assert steps[..k][1..] == steps[1..][..k - 1];
      RunCons(enc, s, steps[..k], steps[1..][..k - 1]);
    }
  }

  lemma RunCons<R>(enc: R -> bytes, s: Store<R>, steps: seq<Step<R>>, rest: seq<Step<R>>)
    requires steps != [] && steps[1..] == rest && Enabled(enc, s, steps[0]) && ValidRun(enc, Do(enc, s, steps[0]), rest)
    ensures ValidRun(enc, s, steps) && Run(enc, s, steps) == Run(enc, Do(enc, s, steps[0]), rest)
  {
  }

  /** What may go wrong at any time: a line may land in any part, the writer may die
      with any part of its line written, the process may crash leaving any prefix of
      the file, and it can be started again. The model leaves no fault out. */
  lemma AnyFault<R>(enc: R -> bytes, s: Store<R>, r: R, n: nat, keep: nat)
    requires InOrder(s)
    ensures Enabled(enc, s, Offer(r))
    ensures s.writer && s.flight.Some? && n <= LineInFlight(enc, s) ==> Enabled(enc, s, Write(n))
    ensures s.writer && n <= LineInFlight(enc, s) ==> Enabled(enc, s, WriterDies(n))
    ensures n <= LineInFlight(enc, s) && keep <= |s.file| + (if s.flight.Some? then n else 0) ==>
      Enabled(enc, s, Crash(n, keep)) && Enabled(enc, Do(enc, s, Crash(n, keep)), Restart)
      && Do(enc, s, Crash(n, keep)).file == (s.file + FlightPart(enc, s, n))[..keep]
  {
    if s.flight.Some? {
      assert Admitted(s)[|s.attempts|] == s.flight.value;
    }
  }

  /** The length of the line in flight, newline included. */
  function LineInFlight<R>(enc: R -> bytes, s: Store<R>): nat {
    if s.flight.Some? && s.flight.value < |s.offered| then |enc(s.offered[s.flight.value])| + 1 else 0
  }

  /** Its first `n` bytes. */
  function FlightPart<R>(enc: R -> bytes, s: Store<R>, n: nat): bytes {
    if s.flight.Some? && s.flight.value < |s.offered| then Start(enc(s.offered[s.flight.value]), n) else []
  }

  /** What the writer still has to do. */
  function Backlog<R>(s: Store<R>): nat {
    2 * |s.queue| + |FlightIds(s)|
  }

  /** Once the sender is closed nothing adds to the backlog, the writer can always
      take a step that shrinks it, and with none left it can end. */
  lemma DrainProgress<R(!new)>(enc: R -> bytes, s: Store<R>)
    requires InOrder(s) && s.writer && !s.open
    ensures Backlog(s) == 0 ==> Enabled(enc, s, Exit)
    ensures Backlog(s) > 0 ==> exists step: Step<R> :: (step.Take? || step.Write?) && Enabled(enc, s, step)
    ensures forall step: Step<R> :: Enabled(enc, s, step) ==> Backlog(Do(enc, s, step)) <= Backlog(s)
    ensures forall step: Step<R> :: Enabled(enc, s, step) && (step.Take? || step.Write?) ==> Backlog(Do(enc, s, step)) < Backlog(s)
  {
    if s.flight.Some? {
      assert Admitted(s)[|s.attempts|] == s.flight.value;
      assert Enabled(enc, s, Write(0));
    } else if s.queue != [] {
      assert Enabled(enc, s, Step<R>.Take);
    }
  }
}
