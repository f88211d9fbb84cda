/** The writer handle and its background loop (src/usage.rs) as code that updates
    fields; the ghost store `st` takes the matching step of the transition system. */
module AuditWriter {
  import opened Bytes
  import opened Lines
  import opened Store

  /** The store once the oldest queued record has been taken and written. */
  function AfterLine<R>(enc: R -> bytes, s: Store<R>, n: nat): Store<R>
    requires s.queue != [] && s.queue[0] < |s.offered|
  {
    var p := PieceOf(enc, s.offered, s.queue[0], n);
    var short := !IsWhole(p);
    s.(queue := s.queue[1..], attempts := s.attempts + [s.queue[0]], file := s.file + Landed(p), pieces := s.pieces + [p],
       failures := s.failures + (if short then 1 else 0), writeWarned := s.writeWarned || short,
       writeMessages := s.writeMessages + if short && !s.writeWarned then 1 else 0)
  }

  /** Writing one line is receiving it and then having it land. */
  lemma LineIsTwoSteps<R>(enc: R -> bytes, s: Store<R>, n: nat)
    requires s.writer && s.flight.None? && s.queue != [] && s.queue[0] < |s.offered|
    requires n <= |enc(s.offered[s.queue[0]])| + 1
    ensures Enabled(enc, s, Take) && Enabled(enc, Do(enc, s, Take), Write(n))
    ensures Do(enc, Do(enc, s, Take), Write(n)) == AfterLine(enc, s, n)
  {
  }

  // ---------------------------------------------------------------- runs of one process

  /** What happens while a writer lives: no death, crash or restart. */
  predicate IsOrdinary<R>(step: Step<R>) {
    !Dies(step) && !step.Restart?
  }

  ghost predicate Leads<R(!new)>(enc: R -> bytes, s: Store<R>, steps: seq<Step<R>>, t: Store<R>) {
    && ValidRun(enc, s, steps) && Run(enc, s, steps) == t
    && (forall i :: 0 <= i < |steps| ==> IsOrdinary(steps[i]))
  }

  ghost predicate Reaches<R(!new)>(enc: R -> bytes, s: Store<R>, t: Store<R>) {
    exists steps :: Leads(enc, s, steps, t)
  }

  lemma ReachesSelf<R(!new)>(enc: R -> bytes, s: Store<R>)
    ensures Reaches(enc, s, s)
  {
    assert Leads(enc, s, [], s);
  }

  lemma {:induction false} RunSnoc<R>(enc: R -> bytes, s: Store<R>, steps: seq<Step<R>>, step: Step<R>)
    requires ValidRun(enc, s, steps) && Enabled(enc, Run(enc, s, steps), step)
    ensures ValidRun(enc, s, steps + [step]) && Run(enc, s, steps + [step]) == Do(enc, Run(enc, s, steps), step)
    decreases steps
  {
    if steps == [] {
      RunCons(enc, s, [step], []);
      assert steps + [step] == [step];
    } else {
      RunSnoc(enc, Do(enc, s, steps[0]), steps[1..], step);
      assert (steps + [step])[1..] == steps[1..] + [step];
      RunCons(enc, s, steps + [step], steps[1..] + [step]);
    }
  }

  lemma ReachesStep<R(!new)>(enc: R -> bytes, s: Store<R>, t: Store<R>, step: Step<R>)
    requires Reaches(enc, s, t) && Enabled(enc, t, step) && IsOrdinary(step)
    ensures Reaches(enc, s, Do(enc, t, step))
  {
    var steps :| Leads(enc, s, steps, t);
    RunSnoc(enc, s, steps, step);
    assert Leads(enc, s, steps + [step], Do(enc, t, step));
  }

  /** The numbers `ids` are those of the records `rs`. */
  predicate Names<R(==)>(ids: seq<nat>, offered: seq<R>, rs: seq<R>) {
    |ids| == |rs| && forall i :: 0 <= i < |ids| ==> ids[i] < |offered| && offered[ids[i]] == rs[i]
  }

  /** The records `written` are those of the attempts made since `s`, and nothing
      that was waiting has been overtaken or lost. */
  predicate Wrote<R(==)>(s: Store<R>, t: Store<R>, written: seq<R>) {
    && |s.attempts| <= |t.attempts| && Names(t.attempts[|s.attempts|..], t.offered, written)
    && s.attempts + s.queue <= t.attempts + t.queue
    && t.lost == s.lost
  }

  lemma WroteSelf<R>(s: Store<R>)
    ensures Wrote(s, s, [])
  {
  }

  lemma NamesMore<R>(ids: seq<nat>, offered: seq<R>, rs: seq<R>, r: R)
    requires Names(ids, offered, rs)
    ensures Names(ids, offered + [r], rs)
  {
  }

  lemma WroteOffer<R>(enc: R -> bytes, s: Store<R>, t: Store<R>, written: seq<R>, r: R)
    requires Wrote(s, t, written)
    ensures Wrote(s, Do(enc, t, Offer(r)), written)
  {
    var u := Do(enc, t, Offer(r));
    assert u.attempts == t.attempts && t.queue <= u.queue && u.offered == t.offered + [r];
    NamesMore(t.attempts[|s.attempts|..], t.offered, written, r);
    assert t.attempts + t.queue <= u.attempts + u.queue;
  }

  lemma NamesSnoc<R>(ids: seq<nat>, offered: seq<R>, rs: seq<R>, id: nat)
    requires Names(ids, offered, rs) && id < |offered|
    ensures Names(ids + [id], offered, rs + [offered[id]])
  {
  }

  lemma WroteLine<R>(enc: R -> bytes, s: Store<R>, t: Store<R>, written: seq<R>, n: nat)
    requires Wrote(s, t, written) && t.queue != [] && t.queue[0] < |t.offered|
    ensures Wrote(s, AfterLine(enc, t, n), written + [t.offered[t.queue[0]]])
  {
    var u, id, m := AfterLine(enc, t, n), t.queue[0], |s.attempts|;
    NamesSnoc(t.attempts[m..], t.offered, written, id);
    assert u.attempts[m..] == t.attempts[m..] + [id];
    Requeue(t.attempts, t.queue);
    assert u.attempts + u.queue == t.attempts + t.queue;
  }

  /** Once a process has ended in good order every offer was attempted, dropped or
      lost to an earlier death, and the whole invariant still holds. */
  lemma AllAccounted<R(!new)>(enc: R -> bytes, s: Store<R>, t: Store<R>)
    requires Inv(enc, s) && Reaches(enc, s, t) && t.queue == [] && t.flight.None?
    ensures Inv(enc, t)
    ensures |t.offered| == |t.attempts| + |t.dropped| + |t.lost|
  {
    var steps :| Leads(enc, s, steps, t);
    RunInv(enc, s, steps);
  }

  class AuditWriter<R(==,!new)> {
    const enc: R -> bytes
    var open: bool
    var alive: bool
    var queue: seq<R>
    var file: bytes
    var dropWarned: bool
    var writeWarned: bool
    var dropMessages: nat
    var writeMessages: nat
    ghost var st: Store<R>

    ghost predicate Valid()
      reads this
    {
      && st.open == open && st.writer == alive && st.file == file && st.flight.None?
      && st.dropWarned == dropWarned && st.writeWarned == writeWarned
      && st.dropMessages == dropMessages && st.writeMessages == writeMessages
      && |queue| == |st.queue|
      && (forall i :: 0 <= i < |queue| ==> st.queue[i] < |st.offered| && queue[i] == st.offered[st.queue[i]])
    }

    /** Opens an existing file for appending; the new process starts unwarned. */
    constructor (enc: R -> bytes, previous: bytes, ghost earlier: Store<R>)
      requires earlier.file == previous && !earlier.open && !earlier.writer && earlier.flight.None? && earlier.queue == []
      ensures Valid() && this.enc == enc && st == Do(enc, earlier, Restart)
      ensures open && alive && queue == [] && file == previous
    {
      this.enc := enc;
      open, alive, queue, file := true, true, [], previous;
      dropWarned, writeWarned, dropMessages, writeMessages := false, false, 0, 0;
      st := Do(enc, earlier, Restart);
    }

    /** Never blocks: a full or gone writer drops the record and warns once. */
    method TryRecord(r: R)
      requires Valid()
      modifies this
      ensures Valid() && st == Do(enc, old(st), Offer(r))
      ensures old(open && alive && |queue| < QUEUE_CAPACITY) ==> queue == old(queue) + [r] && dropMessages == old(dropMessages)
      ensures !old(open && alive && |queue| < QUEUE_CAPACITY) ==>
        queue == old(queue) && dropWarned && dropMessages == old(dropMessages) + if old(dropWarned) then 0 else 1
      ensures file == old(file) && open == old(open) && alive == old(alive)
    {
      if open && alive && |queue| < QUEUE_CAPACITY {
        queue := queue + [r];
      } else {
        if !dropWarned {
          dropWarned := true;
          dropMessages := dropMessages + 1;
        }
      }
      st := Do(enc, st, Offer(r));
    }

    /** Dropping the handle closes the queue and never waits for the writer. */
    method Drop()
      requires Valid()
      modifies this
      ensures Valid() && !open && queue == old(queue) && file == old(file) && alive == old(alive)
      ensures st == if old(open) then Do(enc, old(st), CloseSender) else old(st)
    {
      if open {
        st := Do(enc, st, CloseSender);
      }
      open := false;
    }

    /** One line: append as much as the file takes; a short write warns once. */
    method WriteLine(landed: nat)
      requires Valid() && alive && queue != [] && landed <= |enc(queue[0])| + 1
      modifies this
      ensures Valid() && alive && open == old(open)
      ensures queue == old(queue)[1..]
      ensures file == old(file) + Start(enc(old(queue)[0]), landed)
      ensures st == AfterLine(enc, old(st), landed)
      ensures writeWarned == (old(writeWarned) || landed <= |enc(old(queue)[0])|)
      ensures writeMessages == old(writeMessages) + if writeWarned && !old(writeWarned) then 1 else 0
    {
      var r := queue[0];
      st := AfterLine(enc, st, landed);
      queue := queue[1..];
      var line := enc(r) + [LF];
      file := file + line[..landed];
      assert line[..landed] == Start(enc(r), landed);
      if landed < |line| && !writeWarned {
        writeWarned := true;
        writeMessages := writeMessages + 1;
      }
    }

    /** A batch of offers from the producers. */
    method OfferAll(rs: seq<R>, ghost start: Store<R>, ghost written: seq<R>)
      requires Valid() && Reaches(enc, start, st) && Wrote(start, st, written)
      modifies this
      ensures Valid() && Reaches(enc, start, st) && Wrote(start, st, written)
      ensures st.offered == old(st).offered + rs
      ensures file == old(file) && open == old(open) && alive == old(alive)
    {
      var i := 0;
      while i < |rs|
        invariant 0 <= i <= |rs|
        invariant Valid() && Reaches(enc, start, st) && Wrote(start, st, written)
        invariant st.offered == old(st).offered + rs[..i]
        invariant file == old(file) && open == old(open) && alive == old(alive)
      {
        ReachesStep(enc, start, st, Offer(rs[i]));
        WroteOffer(enc, start, st, written, rs[i]);
        TryRecord(rs[i]);
        i := i + 1;
        assert rs[..i] == rs[..i - 1] + [rs[i - 1]];
      }
      assert rs[..i] == rs;
    }

    /** The oldest record queued, being the `k`th written; `landed` says how much of
        each line reaches the file. */
    method WriteNext(landed: nat -> nat, k: nat, ghost start: Store<R>, ghost written: seq<R>, ghost before: bytes) returns (ghost after: seq<R>)
      requires Valid() && alive && queue != [] && k == |written|
      requires Reaches(enc, start, st) && Wrote(start, st, written)
      requires file == before + Lined(enc, landed, written)
      modifies this
      ensures Valid() && alive && open == old(open) && queue == old(queue)[1..]
      ensures after == written + [old(queue)[0]] && Reaches(enc, start, st) && Wrote(start, st, after)
      ensures file == before + Lined(enc, landed, after)
      ensures st.offered == old(st).offered
    {
      ghost var r := queue[0];
      after := written + [r];
      var n := Clip(landed(k), |enc(queue[0])| + 1);
      LineIsTwoSteps(enc, st, n);
      ReachesStep(enc, start, st, Take);
      ReachesStep(enc, start, Do(enc, st, Take), Write(n));
      WroteLine(enc, start, st, written, n);
      LinedSnoc(enc, landed, written, r);
      Regroup(before, Lined(enc, landed, written), Start(enc(r), n));
      WriteLine(n);
    }

    /** Dropping the handle, seen from a run. */
    method Close(ghost start: Store<R>, ghost written: seq<R>)
      requires Valid() && Reaches(enc, start, st) && Wrote(start, st, written)
      modifies this
      ensures Valid() && Reaches(enc, start, st) && Wrote(start, st, written)
      ensures !open && queue == old(queue) && file == old(file) && alive == old(alive) && st.offered == old(st).offered
    {
      if open {
        ReachesStep(enc, start, st, CloseSender);
      }
      Drop();
    }

    /** The next batch of offers; the handle is dropped after the last one. */
    method Arrive(arrivals: seq<seq<R>>, a: nat, ghost start: Store<R>, ghost written: seq<R>)
      requires Valid() && Reaches(enc, start, st) && Wrote(start, st, written)
      requires a < |arrivals| && open && st.offered == start.offered + Joined(arrivals[..a])
      modifies this
      ensures Valid() && Reaches(enc, start, st) && Wrote(start, st, written)
      ensures file == old(file) && alive == old(alive) && (open <==> a + 1 < |arrivals|)
      ensures st.offered == start.offered + Joined(arrivals[..a + 1])
    {
      JoinedSnoc(arrivals, a);
      OfferAll(arrivals[a], start, written);
      if a + 1 == |arrivals| {
        Close(start, written);
      }
    }

    /** The receiver finds the queue empty and the sender gone. */
    method Finish(ghost start: Store<R>, ghost written: seq<R>)
      requires Valid() && Reaches(enc, start, st) && Wrote(start, st, written)
      requires alive && !open && queue == []
      modifies this
      ensures Valid() && Reaches(enc, start, st) && Wrote(start, st, written)
      ensures !alive && !open && queue == [] && file == old(file) && st.offered == old(st).offered
    {
      ReachesStep(enc, start, st, Exit);
      alive := false;
      st := Do(enc, st, Exit);
    }

    /** The writer thread beside its producers: before each receipt the next of the
        `arrivals` is offered, and after the last the handle is dropped. The loop
        ends with everything accepted attempted in order, whatever lands of it. */
    method WriteLoop(landed: nat -> nat, arrivals: seq<seq<R>>) returns (ghost written: seq<R>)
      requires Valid() && alive && (arrivals != [] ==> open)
      modifies this
      ensures Valid() && queue == [] && !alive && !open
      ensures Reaches(enc, old(st), st) && Wrote(old(st), st, written)
      ensures st.offered == old(st).offered + Joined(arrivals)
      ensures file == old(file) + Lined(enc, landed, written)
    {
      ghost var start, before := st, file;
      written := [];
      ReachesSelf(enc, st);
      WroteSelf(st);
      if arrivals == [] {
        Close(start, written);
      }
      var a, k := 0, 0;
      while a < |arrivals| || queue != []
        invariant Valid() && alive && a <= |arrivals| && (open <==> a < |arrivals|) && k == |written|
        invariant Reaches(enc, start, st) && Wrote(start, st, written)
        invariant st.offered == start.offered + Joined(arrivals[..a])
        invariant file == before + Lined(enc, landed, written)
        decreases |arrivals| - a, |queue|
      {
        if a < |arrivals| {
          Arrive(arrivals, a, start, written);
          a := a + 1;
        }
        if queue != [] {
          written := WriteNext(landed, k, start, written, before);
          k := k + 1;
        }
      }
      assert arrivals[..a] == arrivals;
      Finish(start, written);
    }
  }

  function Joined<R>(batches: seq<seq<R>>): seq<R> {
    if batches == [] then [] else Joined(batches[..|batches| - 1]) + batches[|batches| - 1]
  }

  lemma JoinedSnoc<R>(batches: seq<seq<R>>, i: nat)
    requires i < |batches|
    ensures Joined(batches[..i + 1]) == Joined(batches[..i]) + batches[i]
  {
    assert batches[..i + 1][..i] == batches[..i];
  }

  lemma Requeue<T>(done: seq<T>, todo: seq<T>)
    requires todo != []
    ensures done + [todo[0]] + todo[1..] == done + todo
    ensures todo[1..] == (done + todo)[|done| + 1..]
  {
  }

  function Clip(n: nat, most: nat): nat {
    if n <= most then n else most
  }

  /** What the lines of these records leave in the file. */
  function Lined<R>(enc: R -> bytes, landed: nat -> nat, rs: seq<R>): bytes {
    if rs == [] then []
    else
      var k := |rs| - 1;
      Lined(enc, landed, rs[..k]) + Start(enc(rs[k]), Clip(landed(k), |enc(rs[k])| + 1))
  }

  lemma LinedSnoc<R>(enc: R -> bytes, landed: nat -> nat, rs: seq<R>, r: R)
    ensures Lined(enc, landed, rs + [r]) == Lined(enc, landed, rs) + Start(enc(r), Clip(landed(|rs|), |enc(r)| + 1))
  {
    assert (rs + [r])[..|rs|] == rs;
  }
}
