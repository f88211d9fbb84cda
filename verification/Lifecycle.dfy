/** One request's lifecycle (src/lib.rs) as a transition system: the handler that
    waits for the upstream, the task that pumps the response into a bounded
    channel, the caller that drains or abandons it, the request stream that may
    still be running, and the record offered at the end. */
module Lifecycle {
  import opened Bytes
  import opened Observer
  import opened Record
  import Effort

  const CHANNEL_CAPACITY: nat := 16

  // ---------------------------------------------------------------- admission

  datatype Decision = Unauthorized | BadRequest | Forward(machine: bytes, operation: Option<Operation>)

  function OperationFor(path: bytes): Option<Operation> {
    if path == "/v1/responses" then Some(Response)
    else if path == "/v1/responses/compact" then Some(Compaction)
    else None
  }

  /** Exactly one readable meter key whose digest is known, then a target that
      stays under the fixed base. `keys` holds each header value, or nothing where
      it is not text. */
  function Admit(keys: seq<Option<bytes>>, digest: bytes -> bytes, machines: map<bytes, bytes>, path: bytes, targetKept: bool): Decision {
    if |keys| != 1 || keys[0].None? || digest(keys[0].value) !in machines then Unauthorized
    else if !targetKept then BadRequest
    else Forward(machines[digest(keys[0].value)], OperationFor(path))
  }

  // ---------------------------------------------------------------- state

  datatype Ending = EndsCleanly | Breaks | FallsSilent

  /** What the upstream will answer, if it answers. */
  datatype Upstream = Upstream(status: u16, headerModel: Option<bytes>, chunks: seq<bytes>, ending: Ending)

  datatype Request = Request(machine: bytes, operation: Option<Operation>, encoding: Option<bytes>, upstream: Upstream)

  datatype Handler = Waiting | Abandoned | Unreachable | Answered

  datatype Task =
    | Idle            // no response head yet
    | Pumping
    | Resolved        // the race between pump and notification is decided
    | SenderClosed
    | Finalized
    | Ended

  datatype Seen = StillOpen | Clean | Broken

  /** The response bytes on their way from upstream to caller. */
  datatype Pipe = Pipe(
    taken: nat,                     // upstream chunks taken and mirrored
    held: Option<bytes>,            // the last one, if not handed to the channel
    sent: seq<bytes>,
    channel: seq<bytes>,
    delivered: seq<bytes>,
    discarded: seq<bytes>,          // in the channel when the caller left
    mirror: bytes)

  datatype Life = Life(
    handler: Handler,
    task: Task,
    pipe: Pipe,
    seen: Seen,                     // how the pump saw the upstream end
    outcome: Outcome,
    receiver: bool,                 // the caller still holds the body
    notified: bool,                 // its leaving is yet to be noticed
    sender: bool,
    eof: bool,                      // the caller has seen the end of the body
    parsed: Option<ParsedBody>,
    forwarded: bytes,               // request bytes handed to the upstream
    watch: Effort.Watch,
    judged: bytes,                  // the request bytes the effort was read from
    offers: seq<AuditRecord>)

  /** The observers the lifecycle calls. */
  datatype Env = Env(
    parse: (bytes, Option<bytes>) -> ParsedBody,
    declared: (bytes, Option<bytes>) -> Option<bytes>)

  datatype Step =
    | RequestChunk(data: bytes)
    | HandlerAbandoned
    | SendFailed(id: bytes, time: bytes)
    | ResponseHead
    | TakeChunk
    | UpstreamBreaks
    | UpstreamEnds
    | SendOk
    | SendErr
    | SelectGone
    | CloseSender
    | Finalize
    | Record(id: bytes, time: bytes)
    | LeaveUnmetered
    | CallerReceives
    | CallerSeesEnd
    | CallerDrops

  predicate Metered(q: Request) {
    q.operation.Some?
  }

  function Begin(q: Request): Life {
    Life(Waiting, Idle, Pipe(0, None, [], [], [], [], []), StillOpen, Completed, true, false, true, false, None, [],
         Effort.New(q.encoding), [], [])
  }

  // ---------------------------------------------------------------- records

  predicate IsSuccess(status: int) {
    200 <= status < 300
  }

  function NewRecord(q: Request, id: bytes, time: bytes): AuditRecord
    requires Metered(q)
  {
    AuditRecord(SCHEMA_VERSION, KIND, id, time, q.machine, q.operation.value, None, Completed, None, Unavailable, None, None, None)
  }

  function FinalOutcome(success: bool, outcome: Outcome, parsed: Option<ParsedBody>): Outcome {
    if !success then UpstreamError
    else if outcome == Completed && parsed.Some? && parsed.value.incomplete then Incomplete
    else if outcome == Completed && !(parsed.Some? && parsed.value.terminalSeen) then UpstreamInterrupted
    else outcome
  }

  /** The record of a lifecycle that got a response head. */
  function ResponseRecord(q: Request, outcome: Outcome, parsed: Option<ParsedBody>, effort: Option<bytes>, id: bytes, time: bytes): AuditRecord
    requires Metered(q)
  {
    var success := IsSuccess(q.upstream.status);
    var result := if parsed.Some? then parsed.value.audit else DEFAULT_RESULT;
    var r := NewRecord(q, id, time).(upstreamStatus := Some(q.upstream.status), effort := effort,
                                     outcome := FinalOutcome(success, outcome, parsed));
    if success then r.(model := result.model, usage := result.usage, quality := result.quality, error := result.error)
    else r
  }

  function TransportRecord(q: Request, effort: Option<bytes>, id: bytes, time: bytes): AuditRecord
    requires Metered(q)
  {
    NewRecord(q, id, time).(outcome := TransportError, effort := effort)
  }

  // ---------------------------------------------------------------- steps

  function FinishWatch(env: Env, l: Life): Life {
    if l.watch.parsed then l
    else l.(watch := Effort.ReadOnce(env.declared, l.watch), judged := l.forwarded)
  }

  /** The next upstream chunk is taken and mirrored before it is sent. */
  function Mirrored(q: Request, p: Pipe): Pipe
    requires p.taken < |q.upstream.chunks|
  {
    var c := q.upstream.chunks[p.taken];
    p.(taken := p.taken + 1, held := Some(c), mirror := if Metered(q) then p.mirror + c else p.mirror)
  }

  function Handed(p: Pipe): Pipe
    requires p.held.Some?
  {
    p.(sent := p.sent + [p.held.value], channel := p.channel + [p.held.value], held := None)
  }

  function Received(p: Pipe): Pipe
    requires p.channel != []
  {
    p.(delivered := p.delivered + [p.channel[0]], channel := p.channel[1..])
  }

  predicate Enabled(q: Request, l: Life, step: Step) {
    match step
    case RequestChunk(_) => l.handler == Waiting || l.handler == Answered
    case HandlerAbandoned => l.handler == Waiting
    case SendFailed(_, _) => l.handler == Waiting
    case ResponseHead => l.handler == Waiting
    case TakeChunk => l.task == Pumping && l.pipe.held.None? && l.pipe.taken < |q.upstream.chunks|
    case UpstreamBreaks => l.task == Pumping && l.pipe.held.None? && l.pipe.taken == |q.upstream.chunks| && q.upstream.ending == Breaks
    case UpstreamEnds => l.task == Pumping && l.pipe.held.None? && l.pipe.taken == |q.upstream.chunks| && q.upstream.ending == EndsCleanly
    case SendOk => l.task == Pumping && l.pipe.held.Some? && l.receiver && |l.pipe.channel| < CHANNEL_CAPACITY
    case SendErr => l.task == Pumping && l.pipe.held.Some? && !l.receiver
    case SelectGone => l.task == Pumping && l.notified
    case CloseSender => l.task == Resolved
    case Finalize => l.task == SenderClosed && Metered(q)
    case Record(_, _) => l.task == Finalized && Metered(q)
    case LeaveUnmetered => l.task == SenderClosed && !Metered(q)
    case CallerReceives => l.handler == Answered && l.receiver && l.pipe.channel != []
    case CallerSeesEnd => l.handler == Answered && l.receiver && l.pipe.channel == [] && !l.sender && !l.eof
    case CallerDrops => l.handler == Answered && l.receiver
  }

  function Do(env: Env, q: Request, l: Life, step: Step): Life
    requires Enabled(q, l, step)
  {
    match step
    case RequestChunk(data) =>
      l.(forwarded := l.forwarded + data, watch := if Metered(q) then Effort.Mirror(l.watch, data) else l.watch)
    case HandlerAbandoned => l.(handler := Abandoned)
    case SendFailed(id, time) =>
      if Metered(q) then
        var f := FinishWatch(env, l);
        f.(handler := Unreachable, offers := l.offers + [TransportRecord(q, f.watch.effort, id, time)])
      else l.(handler := Unreachable)
    case ResponseHead => l.(handler := Answered, task := Pumping)
    case TakeChunk => l.(pipe := Mirrored(q, l.pipe))
    case SendOk => l.(pipe := Handed(l.pipe))
    case UpstreamEnds => l.(task := Resolved, seen := Clean)
    case UpstreamBreaks => l.(task := Resolved, seen := Broken, outcome := UpstreamInterrupted)
    case SendErr => l.(task := Resolved, outcome := ClientCancelled)
    case SelectGone => l.(task := Resolved, outcome := ClientCancelled, notified := false)
    case CloseSender => l.(task := SenderClosed, sender := false)
    case Finalize => l.(task := Finalized, parsed := Some(env.parse(l.pipe.mirror, q.upstream.headerModel)))
    case Record(id, time) =>
      var f := FinishWatch(env, l);
      f.(task := Ended, offers := l.offers + [ResponseRecord(q, l.outcome, l.parsed, f.watch.effort, id, time)])
    case LeaveUnmetered => l.(task := Ended)
    case CallerReceives => l.(pipe := Received(l.pipe))
    case CallerSeesEnd => l.(eof := true)
    case CallerDrops => l.(receiver := false, notified := true, pipe := l.pipe.(discarded := l.pipe.channel, channel := []))
  }

  predicate ValidRun(env: Env, q: Request, l: Life, steps: seq<Step>)
    decreases steps
  {
    steps == [] || (Enabled(q, l, steps[0]) && ValidRun(env, q, Do(env, q, l, steps[0]), steps[1..]))
  }

  function Run(env: Env, q: Request, l: Life, steps: seq<Step>): Life
    requires ValidRun(env, q, l, steps)
    decreases steps
  {
    if steps == [] then l else Run(env, q, Do(env, q, l, steps[0]), steps[1..])
  }

  // ---------------------------------------------------------------- invariant

  function Pending(p: Pipe): seq<bytes> {
    if p.held.Some? then [p.held.value] else []
  }

  /** Bytes: nothing is lost, reordered or invented between upstream and caller,
      and the mirror runs at most one chunk ahead of the channel. */
  predicate Flow(q: Request, p: Pipe, receiver: bool) {
    && p.taken <= |q.upstream.chunks|
    && q.upstream.chunks[..p.taken] == p.sent + Pending(p)
    && p.delivered + p.channel + p.discarded == p.sent
    && |p.channel| <= CHANNEL_CAPACITY
    && (receiver ==> p.discarded == [])
    && (!receiver ==> p.channel == [])
    && p.mirror == (if Metered(q) then Concat(q.upstream.chunks[..p.taken]) else [])
  }

  /** Control: when each party may stand where. */
  predicate Control(q: Request, l: Life) {
    && (l.task == Idle <==> l.handler != Answered)
    && (l.task == Idle ==> l.receiver && !l.eof && l.pipe.taken == 0 && l.pipe.held.None? && !l.notified)
    && (l.task == Idle || l.task == Pumping ==> l.seen == StillOpen && l.outcome == Completed)
    && (l.sender <==> l.task == Idle || l.task == Pumping || l.task == Resolved)
    && (l.task == Finalized ==> Metered(q))
    && (l.notified ==> !l.receiver)
    && (l.task == Pumping && !l.receiver ==> l.notified)
    && (l.eof ==> !l.sender && l.pipe.channel == [] && l.pipe.discarded == [])
    && (l.seen == Clean ==> l.pipe.taken == |q.upstream.chunks| && l.pipe.held.None? && q.upstream.ending == EndsCleanly)
    && (l.seen == Broken ==> l.pipe.taken == |q.upstream.chunks| && l.pipe.held.None? && q.upstream.ending == Breaks)
    && (l.task != Idle && l.task != Pumping ==>
          && (l.outcome == Completed <==> l.seen == Clean)
          && (l.outcome == UpstreamInterrupted <==> l.seen == Broken)
          && (l.outcome == ClientCancelled <==> l.seen == StillOpen)
          && (l.outcome == Completed || l.outcome == UpstreamInterrupted || l.outcome == ClientCancelled)
          && (l.outcome == ClientCancelled ==> !l.receiver))
  }

  /** The request observer: its effort is read once, from the bytes forwarded by then. */
  predicate Watching(env: Env, q: Request, l: Life) {
    && l.watch.encoding == q.encoding
    && (!l.watch.parsed ==> l.watch.effort.None? && l.offers == [] && (Metered(q) ==> l.watch.mirror == l.forwarded))
    && (l.watch.parsed ==> l.watch.mirror == [] && l.judged <= l.forwarded && l.watch.effort == env.declared(l.judged, q.encoding))
  }

  predicate IsReported(q: Request, l: Life) {
    Metered(q) && (l.handler == Unreachable || l.task == Ended)
  }

  /** The record follows from the state the lifecycle ended in. */
  predicate Ledger(env: Env, q: Request, l: Life) {
    && |l.offers| == (if IsReported(q, l) then 1 else 0)
    && (l.parsed.Some? <==> Metered(q) && (l.task == Finalized || l.task == Ended))
    && (l.parsed.Some? ==> l.parsed.value == env.parse(l.pipe.mirror, q.upstream.headerModel))
    && (IsReported(q, l) <==> l.watch.parsed)
    && (IsReported(q, l) && l.handler == Unreachable ==>
          l.offers[0] == TransportRecord(q, l.watch.effort, l.offers[0].eventId, l.offers[0].timestamp))
    && (IsReported(q, l) && l.handler != Unreachable ==>
          l.offers[0] == ResponseRecord(q, l.outcome, l.parsed, l.watch.effort, l.offers[0].eventId, l.offers[0].timestamp))
  }

  predicate Inv(env: Env, q: Request, l: Life) {
    Flow(q, l.pipe, l.receiver) && Control(q, l) && Watching(env, q, l) && Ledger(env, q, l)
  }

  lemma BeginInv(env: Env, q: Request)
    ensures Inv(env, q, Begin(q))
  {
    assert q.upstream.chunks[..0] == [];
  }

  lemma TakeKeepsFlow(q: Request, p: Pipe, receiver: bool)
    requires Flow(q, p, receiver) && p.held.None? && p.taken < |q.upstream.chunks|
    ensures Flow(q, Mirrored(q, p), receiver)
  {
    var c := q.upstream.chunks[p.taken];
    assert q.upstream.chunks[..p.taken + 1] == q.upstream.chunks[..p.taken] + [c];
    ConcatSnoc(q.upstream.chunks[..p.taken], c);
    assert p.sent + [] == p.sent;
  }

  lemma SendKeepsFlow(q: Request, p: Pipe)
    requires Flow(q, p, true) && p.held.Some? && |p.channel| < CHANNEL_CAPACITY
    ensures Flow(q, Handed(p), true)
  {
    var c := p.held.value;
    assert p.sent + [c] + [] == p.sent + [c];
    assert p.delivered + (p.channel + [c]) + [] == p.delivered + p.channel + [] + [c];
  }

  lemma ReceiveKeepsFlow(q: Request, p: Pipe, receiver: bool)
    requires Flow(q, p, receiver) && p.channel != []
    ensures Flow(q, Received(p), receiver)
  {
    assert p.channel == [p.channel[0]] + p.channel[1..];
    assert p.delivered + [p.channel[0]] + p.channel[1..] == p.delivered + p.channel;
  }

  lemma DropKeepsFlow(q: Request, p: Pipe)
    requires Flow(q, p, true)
    ensures Flow(q, p.(discarded := p.channel, channel := []), false)
  {
    assert p.delivered + [] + p.channel == p.delivered + p.channel + [];
  }

  predicate MovesBytes(step: Step) {
    step.TakeChunk? || step.SendOk? || step.CallerReceives? || step.CallerDrops?
  }

  lemma OnlyMovesMove(env: Env, q: Request, l: Life, step: Step)
    requires Enabled(q, l, step) && !MovesBytes(step)
    ensures Do(env, q, l, step).pipe == l.pipe && Do(env, q, l, step).receiver == l.receiver
  {
  }

  lemma StepKeepsFlow(env: Env, q: Request, l: Life, step: Step)
    requires Flow(q, l.pipe, l.receiver) && Enabled(q, l, step)
    ensures var t := Do(env, q, l, step); Flow(q, t.pipe, t.receiver)
  {
    if step.TakeChunk? {
      TakeKeepsFlow(q, l.pipe, l.receiver);
    } else if step.SendOk? {
      SendKeepsFlow(q, l.pipe);
    } else if step.CallerReceives? {
      ReceiveKeepsFlow(q, l.pipe, l.receiver);
    } else if step.CallerDrops? {
      DropKeepsFlow(q, l.pipe);
    } else {
      OnlyMovesMove(env, q, l, step);
    }
  }

  lemma StepKeepsControl(env: Env, q: Request, l: Life, step: Step)
    requires Control(q, l) && Flow(q, l.pipe, l.receiver) && Enabled(q, l, step)
    ensures Control(q, Do(env, q, l, step))
  {
    if MovesBytes(step) {
      MoveKeepsControl(env, q, l, step);
    } else if StopsPump(step) {
      StopKeepsControl(env, q, l, step);
    } else if EndsTask(step) {
      EndKeepsControl(env, q, l, step);
    } else {
      HandlerKeepsControl(env, q, l, step);
    }
  }

  predicate EndsTask(step: Step) {
    step.CloseSender? || step.Finalize? || step.Record? || step.LeaveUnmetered?
  }

  lemma EndKeepsControl(env: Env, q: Request, l: Life, step: Step)
    requires Control(q, l) && Enabled(q, l, step) && EndsTask(step)
    ensures Control(q, Do(env, q, l, step))
  {
  }

  lemma HandlerKeepsControl(env: Env, q: Request, l: Life, step: Step)
    requires Control(q, l) && Flow(q, l.pipe, l.receiver) && Enabled(q, l, step)
    requires !MovesBytes(step) && !StopsPump(step) && !EndsTask(step)
    ensures Control(q, Do(env, q, l, step))
  {
  }

  predicate StopsPump(step: Step) {
    step.UpstreamBreaks? || step.UpstreamEnds? || step.SendErr? || step.SelectGone?
  }

  lemma StopKeepsControl(env: Env, q: Request, l: Life, step: Step)
    requires Control(q, l) && Enabled(q, l, step) && StopsPump(step)
    ensures Control(q, Do(env, q, l, step))
  {
  }

  lemma MoveKeepsControl(env: Env, q: Request, l: Life, step: Step)
    requires Control(q, l) && Flow(q, l.pipe, l.receiver) && Enabled(q, l, step) && MovesBytes(step)
    ensures Control(q, Do(env, q, l, step))
  {
  }

  predicate MovesRequest(step: Step) {
    step.RequestChunk? || step.SendFailed? || step.Record?
  }

  lemma OnlyThoseWatch(env: Env, q: Request, l: Life, step: Step)
    requires Enabled(q, l, step) && !MovesRequest(step)
    ensures var t := Do(env, q, l, step);
      t.watch == l.watch && t.forwarded == l.forwarded && t.judged == l.judged && t.offers == l.offers
  {
  }

  lemma StepKeepsWatching(env: Env, q: Request, l: Life, step: Step)
    requires Watching(env, q, l) && Enabled(q, l, step)
    ensures Watching(env, q, Do(env, q, l, step))
  {
    if step.SendFailed? || step.Record? {
      if Metered(q) {
        FinishedWatch(env, q, l);
      }
    } else if !step.RequestChunk? {
      OnlyThoseWatch(env, q, l, step);
    }
  }

  lemma FinishedWatch(env: Env, q: Request, l: Life)
    requires Watching(env, q, l) && Metered(q)
    ensures Watching(env, q, FinishWatch(env, l)) && FinishWatch(env, l).watch.parsed
  {
  }

  lemma StepKeepsLedger(env: Env, q: Request, l: Life, step: Step)
    requires Ledger(env, q, l) && Control(q, l) && Watching(env, q, l) && Enabled(q, l, step)
    ensures Ledger(env, q, Do(env, q, l, step))
  {
    if !MovesRequest(step) {
      OnlyThoseWatch(env, q, l, step);
    }
  }

  lemma StepInv(env: Env, q: Request, l: Life, step: Step)
    requires Inv(env, q, l) && Enabled(q, l, step)
    ensures Inv(env, q, Do(env, q, l, step))
  {
    StepKeepsFlow(env, q, l, step);
    StepKeepsControl(env, q, l, step);
    StepKeepsWatching(env, q, l, step);
    StepKeepsLedger(env, q, l, step);
  }

  /** The invariant holds in every reachable state of every interleaving. */
  lemma {:induction false} RunInv(env: Env, q: Request, l: Life, steps: seq<Step>)
    requires Inv(env, q, l) && ValidRun(env, q, l, steps)
    ensures Inv(env, q, Run(env, q, l, steps))
    decreases steps
  {
    if steps != [] {
      StepInv(env, q, l, steps[0]);
      RunInv(env, q, Do(env, q, l, steps[0]), steps[1..]);
    }
  }

  /** Reachable from the arrival of an accepted request. */
  ghost predicate Reachable(env: Env, q: Request, l: Life) {
    exists steps :: ValidRun(env, q, Begin(q), steps) && Run(env, q, Begin(q), steps) == l
  }

  lemma ReachableInv(env: Env, q: Request, l: Life)
    requires Reachable(env, q, l)
    ensures Inv(env, q, l)
  {
    var steps :| ValidRun(env, q, Begin(q), steps) && Run(env, q, Begin(q), steps) == l;
    BeginInv(env, q);
    RunInv(env, q, Begin(q), steps);
  }

  // ---------------------------------------------------------------- the response

  /** What the caller has, what waits and what was thrown away make up what was
      sent; that is a prefix of the upstream body, at most one chunk behind the
      mirror; and the channel never holds more than sixteen chunks. */
  lemma PumpIsTransparent(env: Env, q: Request, l: Life)
    requires Reachable(env, q, l)
    ensures var p := l.pipe;
      && p.delivered + p.channel + p.discarded == p.sent <= q.upstream.chunks
      && (l.receiver ==> p.delivered + p.channel == p.sent)
      && |p.channel| <= 16
      && (Metered(q) ==> p.mirror == Concat(p.sent) + (if p.held.Some? then p.held.value else []))
  {
    ReachableInv(env, q, l);
    var p := l.pipe;
    ConcatAppend(p.sent, Pending(p));
    assert p.held.Some? ==> Concat([p.held.value]) == p.held.value + Concat([]);
    assert p.sent <= q.upstream.chunks[..p.taken];
    assert p.delivered + p.channel + [] == p.delivered + p.channel;
  }

  /** The end of the body is seen only after the pump has stopped, with all that
      was sent received; after a clean upstream end that is the whole body. */
  lemma EndOfBody(env: Env, q: Request, l: Life)
    requires Reachable(env, q, l) && l.eof
    ensures l.task != Idle && l.task != Pumping
    ensures l.pipe.delivered == l.pipe.sent
    ensures l.seen == Clean ==> q.upstream.ending == EndsCleanly && Concat(l.pipe.delivered) == Concat(q.upstream.chunks)
  {
    ReachableInv(env, q, l);
    var p := l.pipe;
    assert p.delivered + [] + [] == p.delivered;
    assert q.upstream.chunks[..|q.upstream.chunks|] == q.upstream.chunks;
    assert p.sent + [] == p.sent;
  }

  /** If the upstream body ends cleanly and the caller stays to the end, the
      lifecycle saw that end: nothing but a departure can cut the body short. */
  lemma StayingGetsAll(env: Env, q: Request, l: Life)
    requires Reachable(env, q, l) && l.eof && l.receiver && q.upstream.ending == EndsCleanly
    ensures Concat(l.pipe.delivered) == Concat(q.upstream.chunks)
  {
    ReachableInv(env, q, l);
    EndOfBody(env, q, l);
  }

  // ---------------------------------------------------------------- the record

  /** An accepted request offers at most one record; a metered one offers exactly
      one once its upstream send failed or its lifecycle task ran to the end; an
      unmetered or abandoned one offers none. */
  lemma OneRecord(env: Env, q: Request, l: Life)
    requires Reachable(env, q, l)
    ensures |l.offers| <= 1
    ensures |l.offers| == 1 <==> Metered(q) && (l.handler == Unreachable || l.task == Ended)
    ensures l.handler == Abandoned || l.handler == Waiting ==> l.offers == []
  {
    ReachableInv(env, q, l);
  }

  /** The records of whatever was decided on arrival. A rejected request starts no
      lifecycle, so it has none by definition. */
  function OffersAfter(env: Env, d: Decision, q: Request, steps: seq<Step>): seq<AuditRecord>
    requires d.Forward? ==> q.machine == d.machine && q.operation == d.operation && ValidRun(env, q, Begin(q), steps)
  {
    if d.Forward? then Run(env, q, Begin(q), steps).offers else []
  }

  /** Exactly one meter key, readable and known. */
  predicate KnownKey(keys: seq<Option<bytes>>, digest: bytes -> bytes, machines: map<bytes, bytes>) {
    |keys| == 1 && keys[0].Some? && digest(keys[0].value) in machines
  }

  predicate MeteredPath(path: bytes) {
    path == "/v1/responses" || path == "/v1/responses/compact"
  }

  lemma AdmitByName(keys: seq<Option<bytes>>, digest: bytes -> bytes, machines: map<bytes, bytes>, path: bytes, targetKept: bool)
    ensures var d := Admit(keys, digest, machines, path, targetKept);
      && (d.Unauthorized? <==> !KnownKey(keys, digest, machines))
      && (d.BadRequest? <==> KnownKey(keys, digest, machines) && !targetKept)
      && (d.Forward? ==> d.machine == machines[digest(keys[0].value)] && (d.operation.Some? <==> MeteredPath(path)))
      && (d.Forward? && path == "/v1/responses" ==> d.operation == Some(Response))
      && (d.Forward? && path == "/v1/responses/compact" ==> d.operation == Some(Compaction))
  {
  }

  /** A record is offered exactly for a request with one known key, a kept target and
      one of the two metered paths, once its send has failed or its task has ended. */
  lemma OnlyAdmittedOffer(
    env: Env, keys: seq<Option<bytes>>, digest: bytes -> bytes, machines: map<bytes, bytes>, path: bytes, targetKept: bool,
    q: Request, steps: seq<Step>)
    requires var d := Admit(keys, digest, machines, path, targetKept);
      d.Forward? ==> q.machine == d.machine && q.operation == d.operation && ValidRun(env, q, Begin(q), steps)
    ensures var d := Admit(keys, digest, machines, path, targetKept); var offers := OffersAfter(env, d, q, steps);
      && (offers != [] <==>
            && KnownKey(keys, digest, machines) && targetKept && MeteredPath(path)
            && d.Forward? && IsOver(Run(env, q, Begin(q), steps)))
      && (offers != [] ==>
            && |offers| == 1 && offers[0].machineId == machines[digest(keys[0].value)]
            && offers[0].operation == (if path == "/v1/responses" then Response else Compaction))
  {
    var d := Admit(keys, digest, machines, path, targetKept);
    AdmitByName(keys, digest, machines, path, targetKept);
    if d.Forward? {
      BeginInv(env, q);
      RunInv(env, q, Begin(q), steps);
      RecordIsOwn(env, q, Run(env, q, Begin(q), steps));
    }
  }

  predicate IsOver(l: Life) {
    l.handler == Unreachable || l.task == Ended
  }

  lemma RecordIsOwn(env: Env, q: Request, l: Life)
    requires Ledger(env, q, l)
    ensures l.offers != [] <==> Metered(q) && IsOver(l)
    ensures l.offers != [] ==> |l.offers| == 1 && l.offers[0].machineId == q.machine && Some(l.offers[0].operation) == q.operation
  {
  }

  /** The identity and the time of the offering step are those of the record. */
  lemma RecordIsStamped(env: Env, q: Request, l: Life, id: bytes, time: bytes)
    requires Metered(q)
    ensures Enabled(q, l, SendFailed(id, time)) ==>
      var r := Do(env, q, l, SendFailed(id, time)).offers; r[..|r| - 1] == l.offers && r[|r| - 1].eventId == id && r[|r| - 1].timestamp == time
    ensures Enabled(q, l, Step.Record(id, time)) ==>
      var r := Do(env, q, l, Step.Record(id, time)).offers; r[..|r| - 1] == l.offers && r[|r| - 1].eventId == id && r[|r| - 1].timestamp == time
  {
  }

  /** What the observer made of the body. */
  predicate SawTerminal(l: Life) {
    l.parsed.Some? && l.parsed.value.terminalSeen
  }

  predicate SawIncomplete(l: Life) {
    l.parsed.Some? && l.parsed.value.incomplete
  }

  /** The recorded outcome says exactly how the lifecycle went. */
  lemma OutcomeIsSound(env: Env, q: Request, l: Life)
    requires Reachable(env, q, l) && l.offers != []
    ensures var o := l.offers[0].outcome; var ok := IsSuccess(q.upstream.status) && l.handler == Answered;
      && (o == TransportError <==> l.handler == Unreachable)
      && (o == UpstreamError <==> l.handler == Answered && !IsSuccess(q.upstream.status))
      && (o == Completed <==> ok && l.seen == Clean && SawTerminal(l) && !SawIncomplete(l))
      && (o == Incomplete <==> ok && l.seen == Clean && SawIncomplete(l))
      && (o == UpstreamInterrupted <==> ok && (l.seen == Broken || (l.seen == Clean && !SawTerminal(l) && !SawIncomplete(l))))
      && (o == ClientCancelled <==> ok && l.seen == StillOpen)
      && (o == ClientCancelled ==> !l.receiver)
    ensures l.handler == Answered ==> l.parsed == Some(env.parse(l.pipe.mirror, q.upstream.headerModel))
    ensures l.handler == Answered && l.seen != StillOpen ==>
      l.pipe.sent == q.upstream.chunks && l.pipe.mirror == Concat(q.upstream.chunks)
  {
    ReachableInv(env, q, l);
    assert q.upstream.chunks[..|q.upstream.chunks|] == q.upstream.chunks;
    assert l.pipe.sent + [] == l.pipe.sent;
  }

  /** What every record the gateway offers satisfies. */
  predicate GatewayRecord(r: AuditRecord) {
    var ok := r.upstreamStatus.Some? && IsSuccess(r.upstreamStatus.value);
    && r.schemaVersion == SCHEMA_VERSION && r.kind == KIND
    && (r.upstreamStatus.None? <==> r.outcome == TransportError)
    && (r.outcome == UpstreamError <==> r.upstreamStatus.Some? && !ok)
    && (r.usage.Some? ==> ok && r.error.None? && Balanced(r.usage.value, r.quality))
    && (ok ==> (r.usage.None? <==> r.error == Some(MissingUsage) || r.error == Some(MalformedUsage)))
    && (!ok ==> r.usage.None? && r.error.None? && r.model.None?)
    && (r.quality == Unavailable <==> r.usage.None?)
    && (r.quality == Quality.Complete <==> r.usage.Some? && r.usage.value.uncached.Some?)
    && r.error != Some(EventTooLarge)
  }

  /** The body observer never reports its default and always accounts soundly. */
  ghost predicate SoundParse(env: Env) {
    forall mirror, header :: SoundResult(env.parse(mirror, header).audit)
  }

  lemma ResponseRecordIsWellFormed(env: Env, q: Request, o: Outcome, mirror: bytes, effort: Option<bytes>, id: bytes, time: bytes)
    requires SoundParse(env) && Metered(q)
    requires o == Completed || o == UpstreamInterrupted || o == ClientCancelled
    ensures GatewayRecord(ResponseRecord(q, o, Some(env.parse(mirror, q.upstream.headerModel)), effort, id, time))
  {
    assert SoundResult(env.parse(mirror, q.upstream.headerModel).audit);
  }

  lemma OfferedIsWellFormed(env: Env, q: Request, l: Life)
    requires SoundParse(env) && Reachable(env, q, l) && l.offers != []
    ensures GatewayRecord(l.offers[0])
    ensures l.offers[0].upstreamStatus == if l.handler == Answered then Some(q.upstream.status) else None
    ensures var r := l.offers[0]; l.handler == Answered && 200 <= q.upstream.status < 300 ==>
      AuditResult(r.model, r.usage, r.quality, r.error) == env.parse(l.pipe.mirror, q.upstream.headerModel).audit
  {
    ReachableInv(env, q, l);
    var r := l.offers[0];
    if l.handler != Unreachable {
      ResponseRecordIsWellFormed(env, q, l.outcome, l.pipe.mirror, l.watch.effort, r.eventId, r.timestamp);
    }
  }

  // ---------------------------------------------------------------- stopping

  /** Chunks the pump may still take once the caller has gone. */
  function Slack(l: Life): nat {
    if l.handler == Waiting || (l.task == Pumping && l.pipe.held.None?) then 1 else 0
  }

  lemma DepartedStep(env: Env, q: Request, l: Life, step: Step)
    requires Control(q, l) && !l.receiver && Enabled(q, l, step)
    ensures var t := Do(env, q, l, step);
      !t.receiver && t.pipe.taken + Slack(t) <= l.pipe.taken + Slack(l)
  {
  }

  /** After the caller has gone the pump takes at most one more chunk, and none if
      it was already waiting to send one. */
  lemma {:induction false} StopBound(env: Env, q: Request, l: Life, steps: seq<Step>)
    requires Inv(env, q, l) && !l.receiver && ValidRun(env, q, l, steps)
    ensures Run(env, q, l, steps).pipe.taken <= l.pipe.taken + Slack(l) <= l.pipe.taken + 1
    decreases steps
  {
    if steps != [] {
      DepartedStep(env, q, l, steps[0]);
      StepInv(env, q, l, steps[0]);
      StopBound(env, q, Do(env, q, l, steps[0]), steps[1..]);
    }
  }

  predicate IsUpstreamStep(step: Step) {
    step.TakeChunk? || step.UpstreamBreaks? || step.UpstreamEnds? || step.ResponseHead?
  }

  function Ahead(task: Task): nat {
    match task case Idle => 0 case Pumping => 4 case Resolved => 3 case SenderClosed => 2 case Finalized => 1 case Ended => 0
  }

  /** The steps that end a lifecycle whose caller has left, from wherever it stands. */
  function WayOut(q: Request, task: Task, id: bytes, time: bytes): seq<Step>
    decreases Ahead(task)
  {
    match task
    case Pumping => [SelectGone] + WayOut(q, Resolved, id, time)
    case Resolved => [CloseSender] + WayOut(q, SenderClosed, id, time)
    case SenderClosed =>
      if Metered(q) then [Finalize] + WayOut(q, Finalized, id, time) else [LeaveUnmetered] + WayOut(q, Ended, id, time)
    case Finalized => [Step.Record(id, time)] + WayOut(q, Ended, id, time)
    case _ => []
  }

  lemma {:induction false} WayOutIsSilent(q: Request, task: Task, id: bytes, time: bytes)
    ensures forall i :: 0 <= i < |WayOut(q, task, id, time)| ==> !IsUpstreamStep(WayOut(q, task, id, time)[i])
    decreases Ahead(task)
  {
    match task {
      case Pumping => WayOutIsSilent(q, Resolved, id, time);
      case Resolved => WayOutIsSilent(q, SenderClosed, id, time);
      case SenderClosed => WayOutIsSilent(q, Finalized, id, time);
      case _ =>
    }
  }

  lemma Chain(env: Env, q: Request, l: Life, step: Step, rest: seq<Step>)
    requires Enabled(q, l, step) && ValidRun(env, q, Do(env, q, l, step), rest)
    ensures ValidRun(env, q, l, [step] + rest)
    ensures Run(env, q, l, [step] + rest) == Run(env, q, Do(env, q, l, step), rest)
  {
    assert ([step] + rest)[1..] == rest;
  }

  /** Where the lifecycle can go on its own once the caller has left. */
  predicate MayLeave(q: Request, l: Life) {
    l.task != Idle && (l.task == Pumping ==> l.notified) && (l.task == Finalized ==> Metered(q))
  }

  /** The first step of the way out. */
  function FirstOut(q: Request, task: Task, id: bytes, time: bytes): Step
    requires task != Idle && task != Ended
  {
    match task
    case Pumping => SelectGone
    case Resolved => CloseSender
    case SenderClosed => if Metered(q) then Finalize else LeaveUnmetered
    case Finalized => Step.Record(id, time)
  }

  lemma OneStepOut(env: Env, q: Request, l: Life, id: bytes, time: bytes)
    requires MayLeave(q, l) && l.task != Ended
    ensures var step := FirstOut(q, l.task, id, time);
      && Enabled(q, l, step)
      && var t := Do(env, q, l, step);
         && MayLeave(q, t) && Ahead(t.task) < Ahead(l.task)
         && WayOut(q, l.task, id, time) == [step] + WayOut(q, t.task, id, time)
         && t.seen == l.seen && t.pipe == l.pipe && t.handler == l.handler
  {
  }

  lemma {:induction false} WayOutRuns(env: Env, q: Request, l: Life, id: bytes, time: bytes)
    requires MayLeave(q, l)
    ensures ValidRun(env, q, l, WayOut(q, l.task, id, time))
    ensures var t := Run(env, q, l, WayOut(q, l.task, id, time));
      t.task == Ended && t.seen == l.seen && t.pipe == l.pipe && t.handler == l.handler
    decreases Ahead(l.task)
  {
    if l.task != Ended {
      var step := FirstOut(q, l.task, id, time);
      OneStepOut(env, q, l, id, time);
      var t := Do(env, q, l, step);
      WayOutRuns(env, q, t, id, time);
      Chain(env, q, l, step, WayOut(q, t.task, id, time));
    }
  }

  lemma {:induction false} RunOnward(env: Env, q: Request, l: Life, a: seq<Step>, b: seq<Step>)
    requires ValidRun(env, q, l, a) && ValidRun(env, q, Run(env, q, l, a), b)
    ensures ValidRun(env, q, l, a + b) && Run(env, q, l, a + b) == Run(env, q, Run(env, q, l, a), b)
    decreases a
  {
    if a == [] {
      assert a + b == b;
    } else {
      assert (a + b)[1..] == a[1..] + b;
      RunOnward(env, q, Do(env, q, l, a[0]), a[1..], b);
    }
  }

  lemma ReachableOnward(env: Env, q: Request, l: Life, more: seq<Step>)
    requires Reachable(env, q, l) && ValidRun(env, q, l, more)
    ensures Reachable(env, q, Run(env, q, l, more))
  {
    var steps :| ValidRun(env, q, Begin(q), steps) && Run(env, q, Begin(q), steps) == l;
    RunOnward(env, q, Begin(q), steps, more);
  }

  /** Where a lifecycle left alone ends: one record if it is metered, whose outcome
      depends on the status, on how the pump stopped and on the mirrored body. */
  predicate EndsAs(env: Env, q: Request, l: Life, t: Life) {
    && t.task == Ended && t.pipe == l.pipe && t.seen == l.seen
    && (!Metered(q) ==> t.offers == [])
    && (Metered(q) ==>
          && |t.offers| == 1
          && var o := t.offers[0].outcome; var ok := IsSuccess(q.upstream.status);
             var p := env.parse(l.pipe.mirror, q.upstream.headerModel);
             && (o == UpstreamError <==> !ok)
             && (o == ClientCancelled <==> ok && l.seen == StillOpen)
             && (o == UpstreamInterrupted <==> ok && (l.seen == Broken || (l.seen == Clean && !p.terminalSeen && !p.incomplete)))
             && (o == Incomplete <==> ok && l.seen == Clean && p.incomplete)
             && (o == Completed <==> ok && l.seen == Clean && p.terminalSeen && !p.incomplete))
  }

  /** In every state with the notification pending the lifecycle can end though the
      upstream stays silent. Caught while pumping, a 2xx response is recorded as
      cancelled; a departure after the pump has stopped changes nothing. */
  lemma CanEndSilently(env: Env, q: Request, l: Life, id: bytes, time: bytes)
    requires Reachable(env, q, l) && l.notified
    ensures forall i :: 0 <= i < |WayOut(q, l.task, id, time)| ==> !IsUpstreamStep(WayOut(q, l.task, id, time)[i])
    ensures ValidRun(env, q, l, WayOut(q, l.task, id, time))
    ensures EndsAs(env, q, l, Run(env, q, l, WayOut(q, l.task, id, time)))
    ensures l.task == Pumping ==> l.seen == StillOpen
  {
    ReachableInv(env, q, l);
    WayOutIsSilent(q, l.task, id, time);
    WayOutRuns(env, q, l, id, time);
    ReachableOnward(env, q, l, WayOut(q, l.task, id, time));
    EndedAs(env, q, l, Run(env, q, l, WayOut(q, l.task, id, time)));
  }

  lemma EndedAs(env: Env, q: Request, l: Life, t: Life)
    requires Reachable(env, q, t) && t.task == Ended && t.pipe == l.pipe && t.seen == l.seen
    ensures EndsAs(env, q, l, t)
  {
    OneRecord(env, q, t);
    ReachableInv(env, q, t);
    if Metered(q) {
      OutcomeIsSound(env, q, t);
    }
  }

  // ---------------------------------------------------------------- progress

  /** What a request can still do, request chunks aside: every other step uses up
      some of it. */
  function Remaining(q: Request, l: Life): int {
    3 * (|q.upstream.chunks| - l.pipe.taken) + 2 * |Pending(l.pipe)| + |l.pipe.channel| + Ahead(l.task)
    + (if l.handler == Waiting then 5 else 0) + (if l.receiver then 1 else 0) + (if l.eof then 0 else 1)
  }

  lemma MoveUses(env: Env, q: Request, l: Life, step: Step)
    requires Enabled(q, l, step) && MovesBytes(step)
    ensures Remaining(q, Do(env, q, l, step)) < Remaining(q, l)
  {
  }

  lemma HandlerUses(env: Env, q: Request, l: Life, step: Step)
    requires Control(q, l) && Enabled(q, l, step) && !MovesBytes(step) && !StopsPump(step) && !EndsTask(step) && !step.RequestChunk?
    ensures Remaining(q, Do(env, q, l, step)) < Remaining(q, l)
  {
    OnlyMovesMove(env, q, l, step);
  }

  lemma StopUses(env: Env, q: Request, l: Life, step: Step)
    requires Enabled(q, l, step) && (StopsPump(step) || EndsTask(step))
    ensures Remaining(q, Do(env, q, l, step)) < Remaining(q, l)
  {
    OnlyMovesMove(env, q, l, step);
  }

  /** Every step but a request chunk uses up some of what remains. */
  lemma StepUses(env: Env, q: Request, l: Life, step: Step)
    requires Inv(env, q, l) && Enabled(q, l, step)
    ensures 0 <= Remaining(q, Do(env, q, l, step))
    ensures step.RequestChunk? ==> Remaining(q, Do(env, q, l, step)) == Remaining(q, l)
    ensures !step.RequestChunk? ==> Remaining(q, Do(env, q, l, step)) < Remaining(q, l)
  {
    StepKeepsFlow(env, q, l, step);
    if MovesBytes(step) {
      MoveUses(env, q, l, step);
    } else if StopsPump(step) || EndsTask(step) {
      StopUses(env, q, l, step);
    } else if !step.RequestChunk? {
      HandlerUses(env, q, l, step);
    }
  }

  function OtherSteps(steps: seq<Step>): nat {
    if steps == [] then 0 else (if steps[0].RequestChunk? then 0 else 1) + OtherSteps(steps[1..])
  }

  /** No run goes on for ever: request chunks aside, a request whose response has
      `n` chunks takes at most `3 n + 7` steps. */
  lemma {:induction false} RunsEnd(env: Env, q: Request, l: Life, steps: seq<Step>)
    requires Inv(env, q, l) && ValidRun(env, q, l, steps)
    ensures OtherSteps(steps) <= Remaining(q, l)
    ensures l == Begin(q) ==> OtherSteps(steps) <= 3 * |q.upstream.chunks| + 7
    decreases steps
  {
    if steps != [] {
      StepUses(env, q, l, steps[0]);
      StepInv(env, q, l, steps[0]);
      RunsEnd(env, q, Do(env, q, l, steps[0]), steps[1..]);
    } else {
      assert 0 <= Remaining(q, l);
    }
  }

  /** What the environment may do at any time: the model leaves no such moment out. */
  lemma AnyMoment(q: Request, l: Life, data: bytes, id: bytes, time: bytes)
    ensures l.handler == Waiting ==>
      && Enabled(q, l, ResponseHead) && Enabled(q, l, HandlerAbandoned) && Enabled(q, l, SendFailed(id, time))
    ensures l.handler == Waiting || l.handler == Answered ==> Enabled(q, l, RequestChunk(data))
    ensures l.handler == Answered && l.receiver ==> Enabled(q, l, CallerDrops)
    ensures l.handler == Answered && l.receiver && l.pipe.channel != [] ==> Enabled(q, l, CallerReceives)
    ensures l.task == Pumping && l.notified ==> Enabled(q, l, SelectGone)
    ensures l.task == Pumping && l.pipe.held.Some? && l.receiver && |l.pipe.channel| < 16 ==> Enabled(q, l, SendOk)
    ensures l.task == Pumping && l.pipe.held.Some? && !l.receiver ==> Enabled(q, l, SendErr)
    ensures l.task == Pumping && l.pipe.held.None? && l.pipe.taken < |q.upstream.chunks| ==> Enabled(q, l, TakeChunk)
  {
  }

  /** The next thing to happen when the caller stays and the upstream answers. */
  function NextStep(q: Request, l: Life, id: bytes, time: bytes): Step {
    if l.handler == Waiting then ResponseHead
    else if l.pipe.channel != [] then CallerReceives
    else if l.task == Pumping then
      if l.pipe.held.Some? then SendOk
      else if l.pipe.taken < |q.upstream.chunks| then TakeChunk
      else if q.upstream.ending == EndsCleanly then UpstreamEnds
      else UpstreamBreaks
    else if l.task == Resolved then CloseSender
    else if l.task == SenderClosed then (if Metered(q) then Finalize else LeaveUnmetered)
    else if l.task == Finalized then Step.Record(id, time)
    else CallerSeesEnd
  }

  /** The request is over for everyone. */
  predicate Settled(l: Life) {
    l.task == Ended && l.eof && l.pipe.channel == []
  }

  /** The caller is there and the upstream has not been given up on. */
  predicate Served(q: Request, l: Life) {
    (l.handler == Waiting || l.handler == Answered) && l.receiver && q.upstream.ending != FallsSilent
  }

  lemma NextIsEnabled(env: Env, q: Request, l: Life, id: bytes, time: bytes)
    requires Flow(q, l.pipe, l.receiver) && Control(q, l) && Served(q, l) && !Settled(l)
    ensures Enabled(q, l, NextStep(q, l, id, time))
  {
  }

  lemma NextStaysServed(env: Env, q: Request, l: Life, id: bytes, time: bytes)
    requires Served(q, l) && Enabled(q, l, NextStep(q, l, id, time))
    ensures Served(q, Do(env, q, l, NextStep(q, l, id, time)))
  {
  }

  predicate IsKind(step: Step) {
    !step.CallerDrops? && !step.HandlerAbandoned? && !step.SendFailed? && !step.SelectGone?
  }

  predicate AllKind(steps: seq<Step>) {
    forall i :: 0 <= i < |steps| ==> IsKind(steps[i])
  }

  lemma OneStepServed(env: Env, q: Request, l: Life, id: bytes, time: bytes) returns (step: Step, t: Life)
    requires Inv(env, q, l) && Served(q, l) && !Settled(l)
    ensures Enabled(q, l, step) && t == Do(env, q, l, step) && IsKind(step)
    ensures Inv(env, q, t) && Served(q, t) && 0 <= Remaining(q, t) < Remaining(q, l)
  {
    step := NextStep(q, l, id, time);
    NextIsEnabled(env, q, l, id, time);
    NextStaysServed(env, q, l, id, time);
    StepUses(env, q, l, step);
    StepInv(env, q, l, step);
    t := Do(env, q, l, step);
  }

  /** The end of a run that served its caller. */
  predicate SettledFor(env: Env, q: Request, t: Life) {
    Inv(env, q, t) && Settled(t) && Served(q, t)
  }

  lemma ServedCons(env: Env, q: Request, l: Life, step: Step, t: Life, rest: seq<Step>)
    requires Enabled(q, l, step) && t == Do(env, q, l, step) && IsKind(step)
    requires ValidRun(env, q, t, rest) && AllKind(rest) && SettledFor(env, q, Run(env, q, t, rest))
    ensures ValidRun(env, q, l, [step] + rest) && AllKind([step] + rest) && SettledFor(env, q, Run(env, q, l, [step] + rest))
  {
    Chain(env, q, l, step, rest);
  }

  lemma {:induction false} ServedSettles(env: Env, q: Request, l: Life, id: bytes, time: bytes) returns (steps: seq<Step>)
    requires Inv(env, q, l) && Served(q, l)
    ensures ValidRun(env, q, l, steps) && AllKind(steps) && SettledFor(env, q, Run(env, q, l, steps))
    decreases Remaining(q, l)
  {
    steps := [];
    if !Settled(l) {
      var step, t := OneStepServed(env, q, l, id, time);
      var rest := ServedSettles(env, q, t, id, time);
      ServedCons(env, q, l, step, t, rest);
      steps := [step] + rest;
    }
  }

  /** What a caller who stayed ends up with: the end of the body, every chunk of it,
      and one record if the request is metered. */
  predicate FullyServed(q: Request, t: Life) {
    && t.task == Ended && t.eof && t.receiver && t.handler == Answered
    && t.pipe.delivered == q.upstream.chunks
    && t.seen == (if q.upstream.ending == EndsCleanly then Clean else Broken)
    && |t.offers| == (if Metered(q) then 1 else 0)
  }

  lemma SettledIsFull(env: Env, q: Request, t: Life)
    requires Inv(env, q, t) && Settled(t) && Served(q, t)
    ensures FullyServed(q, t)
  {
    var p := t.pipe;
    assert q.upstream.chunks[..|q.upstream.chunks|] == q.upstream.chunks;
    assert p.delivered + [] + [] == p.delivered && p.sent + [] == p.sent;
  }

  /** From every reachable state with the caller still there, and an upstream that
      ends its body cleanly or breaks off after it, the run can go on, without
      anyone giving up, until the caller has seen the end with every chunk delivered
      and the record, if one is due, has been offered. */
  lemma BodyArrives(env: Env, q: Request, l: Life, id: bytes, time: bytes) returns (steps: seq<Step>)
    requires Reachable(env, q, l) && Served(q, l)
    ensures ValidRun(env, q, l, steps) && AllKind(steps)
    ensures FullyServed(q, Run(env, q, l, steps))
  {
    ReachableInv(env, q, l);
    steps := ServedSettles(env, q, l, id, time);
    SettledIsFull(env, q, Run(env, q, l, steps));
  }

  /** A run that has stopped, with nothing left to happen but request chunks or the
      caller's departure, has served its caller in full. Runs being finite, every
      run that is carried on as far as it goes gets there. */
  lemma StuckMeansServed(env: Env, q: Request, l: Life)
    requires Reachable(env, q, l) && Served(q, l)
    requires forall step: Step :: Enabled(q, l, step) ==> step.RequestChunk? || step.CallerDrops?
    ensures FullyServed(q, l)
  {
    ReachableInv(env, q, l);
    if !Settled(l) {
      NextIsEnabled(env, q, l, [], []);
      assert false;
    }
    SettledIsFull(env, q, l);
  }

  // ---------------------------------------------------------------- the request

  /** The request bytes a run hands to the upstream. */
  function RequestBytes(steps: seq<Step>): bytes {
    if steps == [] then [] else (if steps[0].RequestChunk? then steps[0].data else []) + RequestBytes(steps[1..])
  }

  predicate Finishes(step: Step) {
    step.SendFailed? || step.Record?
  }

  /** One step: every request chunk is handed on, and the watch changes only
      until it has been read. */
  predicate RequestStep(l: Life, t: Life, step: Step) {
    && t.forwarded == l.forwarded + (if step.RequestChunk? then step.data else [])
    && (l.watch.parsed ==> t.watch == l.watch && t.judged == l.judged)
    && (!l.watch.parsed && t.watch.parsed ==> Finishes(step) && t.judged == l.forwarded)
  }

  lemma EveryRequestStep(env: Env, q: Request, l: Life, step: Step)
    requires Enabled(q, l, step)
    ensures RequestStep(l, Do(env, q, l, step), step)
  {
    if !MovesRequest(step) {
      OnlyThoseWatch(env, q, l, step);
      assert l.forwarded + [] == l.forwarded;
    }
  }

  /** `i` is where the effort was read, if it was read during the run. */
  ghost predicate ReadAt(l: Life, t: Life, steps: seq<Step>, i: int) {
    0 <= i < |steps| && Finishes(steps[i]) && t.judged == l.forwarded + RequestBytes(steps[..i])
  }

  ghost predicate RequestRun(l: Life, t: Life, steps: seq<Step>) {
    && t.forwarded == l.forwarded + RequestBytes(steps)
    && (l.watch.parsed ==> t.watch == l.watch && t.judged == l.judged)
    && (!l.watch.parsed && t.watch.parsed ==> exists i :: ReadAt(l, t, steps, i))
  }

  lemma RequestRunCons(l: Life, m: Life, t: Life, steps: seq<Step>)
    requires steps != [] && RequestStep(l, m, steps[0]) && RequestRun(m, t, steps[1..])
    ensures RequestRun(l, t, steps)
  {
    var first := if steps[0].RequestChunk? then steps[0].data else [];
    assert l.forwarded + (first + RequestBytes(steps[1..])) == l.forwarded + first + RequestBytes(steps[1..]);
    if !l.watch.parsed && t.watch.parsed {
      if m.watch.parsed {
        assert RequestBytes(steps[..0]) == [] && l.forwarded + [] == l.forwarded;
        assert ReadAt(l, t, steps, 0);
      } else {
        var i :| ReadAt(m, t, steps[1..], i);
        assert steps[..i + 1][0] == steps[0] && steps[..i + 1][1..] == steps[1..][..i];
        assert l.forwarded + (first + RequestBytes(steps[1..][..i])) == l.forwarded + first + RequestBytes(steps[1..][..i]);
        assert ReadAt(l, t, steps, i + 1);
      }
    }
  }

  lemma {:induction false} EveryRequestRun(env: Env, q: Request, l: Life, steps: seq<Step>)
    requires ValidRun(env, q, l, steps)
    ensures RequestRun(l, Run(env, q, l, steps), steps)
    decreases steps
  {
    if steps == [] {
      assert l.forwarded + RequestBytes(steps) == l.forwarded;
    } else {
      var m := Do(env, q, l, steps[0]);
      EveryRequestStep(env, q, l, steps[0]);
      EveryRequestRun(env, q, m, steps[1..]);
      RequestRunCons(l, m, Run(env, q, m, steps[1..]), steps);
    }
  }

  ghost predicate DeclaredBefore(env: Env, q: Request, steps: seq<Step>, i: int, effort: Option<bytes>) {
    0 <= i < |steps| && Finishes(steps[i]) && effort == env.declared(RequestBytes(steps[..i]), q.encoding)
  }

  lemma OfferedEffort(env: Env, q: Request, l: Life)
    requires Ledger(env, q, l) && Watching(env, q, l) && l.offers != []
    ensures l.watch.parsed && l.offers[0].effort == env.declared(l.judged, q.encoding)
  {
  }

  /** Whatever the interleaving of the two sides, the request body is handed on
      unchanged and the recorded effort is the one declared by exactly the bytes
      forwarded before the lifecycle read it. */
  lemma RecordedEffort(env: Env, q: Request, steps: seq<Step>)
    requires ValidRun(env, q, Begin(q), steps)
    ensures var l := Run(env, q, Begin(q), steps);
      && l.forwarded == RequestBytes(steps)
      && (l.offers != [] ==> exists i :: DeclaredBefore(env, q, steps, i, l.offers[0].effort))
  {
    BeginInv(env, q);
    RunInv(env, q, Begin(q), steps);
    EveryRequestRun(env, q, Begin(q), steps);
    EffortOfRun(env, q, Run(env, q, Begin(q), steps), steps);
  }

  lemma EffortOfRun(env: Env, q: Request, l: Life, steps: seq<Step>)
    requires Ledger(env, q, l) && Watching(env, q, l) && RequestRun(Begin(q), l, steps)
    ensures l.forwarded == RequestBytes(steps)
    ensures l.offers != [] ==> exists i :: DeclaredBefore(env, q, steps, i, l.offers[0].effort)
  {
    assert [] + RequestBytes(steps) == RequestBytes(steps);
    if l.offers != [] {
      OfferedEffort(env, q, l);
      var i :| ReadAt(Begin(q), l, steps, i);
      assert [] + RequestBytes(steps[..i]) == RequestBytes(steps[..i]);
      assert DeclaredBefore(env, q, steps, i, l.offers[0].effort);
    }
  }
}
