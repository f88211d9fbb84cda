/** The usage observer (src/usage.rs): counters from a terminal `usage` object,
    their canonical form, and the facts of one mirrored response body. */
module Observer {
  import opened Bytes
  import opened Json
  import Utf8
  import Sse
  import opened JsonStrings

  datatype Quality = Complete | Partial | Inconsistent | Unavailable

  datatype MeteringError = MissingUsage | MalformedUsage | EventTooLarge

  datatype Usage = Usage(
    inputTotal: Option<u64>,
    uncached: Option<u64>,
    cacheRead: Option<u64>,
    cacheWrite: Option<u64>,
    outputTotal: Option<u64>,
    reasoning: Option<u64>,
    total: Option<u64>)

  datatype RawUsage = RawUsage(
    inputTotal: Option<u64>,
    cacheRead: Option<u64>,
    cacheWrite: Option<u64>,
    outputTotal: Option<u64>,
    reasoning: Option<u64>,
    total: Option<u64>)

  // ---------------------------------------------------------------- extraction

  function OrElse<T>(a: Option<T>, b: Option<T>): Option<T> {
    if a.Some? then a else b
  }

  function Counter(v: Option<Json>): Option<u64> {
    if v.Some? then AsU64(v.value) else None
  }

  /** A place in the usage object: a member, or a member of a member. */
  datatype Place = Top(key: bytes) | Within(outer: bytes, inner: bytes)

  function Lookup(usage: Json, p: Place): Option<Json> {
    match p
    case Top(key) => Get(usage, key)
    case Within(outer, inner) =>
      var o := Get(usage, outer);
      if o.None? then None else Get(o.value, inner)
  }

  /** The counter at a place; a present value of another type counts as absent. */
  function CounterAt(usage: Json, p: Place): Option<u64> {
    Counter(Lookup(usage, p))
  }

  /** The first counter among alternative places. */
  function FirstOf(usage: Json, places: seq<Place>): Option<u64> {
    if places == [] then None else OrElse(CounterAt(usage, places[0]), FirstOf(usage, places[1..]))
  }

  /** The first place that is present at all, then read as a counter. */
  function FirstPresent(usage: Json, a: Place, b: Place): Option<u64> {
    Counter(OrElse(Lookup(usage, a), Lookup(usage, b)))
  }

  /** Where each counter may stand, in order of preference. */
  datatype Places = Places(
    input: Place, input2: Place, output: Place, output2: Place, total: Place,
    read: seq<Place>, write: seq<Place>, reasoning: seq<Place>)

  function KnownPlaces(): Places {
    Places(
      Top("input_tokens"), Top("prompt_tokens"), Top("output_tokens"), Top("completion_tokens"), Top("total_tokens"),
      [Within("input_tokens_details", "cached_tokens"), Top("prompt_cache_hit_tokens"), Top("cache_read_input_tokens")],
      [Within("input_tokens_details", "cache_write_tokens"), Top("cache_write_input_tokens"), Top("cache_write_tokens"),
       Top("cache_creation_input_tokens"), Within("prompt_tokens_details", "cache_write_tokens")],
      [Within("output_tokens_details", "reasoning_tokens"), Within("completion_tokens_details", "reasoning_tokens"),
       Top("reasoning_tokens")])
  }

  function ExtractFrom(usage: Json, p: Places): RawUsage {
    RawUsage(
      FirstPresent(usage, p.input, p.input2),
      FirstOf(usage, p.read),
      FirstOf(usage, p.write),
      FirstPresent(usage, p.output, p.output2),
      FirstOf(usage, p.reasoning),
      CounterAt(usage, p.total))
  }

  function ExtractRawUsage(usage: Json): RawUsage {
    ExtractFrom(usage, KnownPlaces())
  }

  /** `i` is the first of the places where a counter stands. */
  predicate FirstAt(usage: Json, places: seq<Place>, i: int) {
    0 <= i < |places| && CounterAt(usage, places[i]).Some? && forall j :: 0 <= j < i ==> CounterAt(usage, places[j]).None?
  }

  /** `n`, if present, is the number literally found at the first of the places
      that holds one. */
  ghost predicate FoundAt(usage: Json, places: seq<Place>, n: Option<u64>) {
    n.Some? ==> exists i :: FirstAt(usage, places, i) && CounterAt(usage, places[i]) == n
  }

  predicate NowhereIn(usage: Json, places: seq<Place>) {
    forall i :: 0 <= i < |places| ==> CounterAt(usage, places[i]).None?
  }

  lemma {:induction false} FirstOfFound(usage: Json, places: seq<Place>)
    ensures FoundAt(usage, places, FirstOf(usage, places))
    ensures FirstOf(usage, places).None? <==> NowhereIn(usage, places)
  {
    if places != [] {
      var rest := places[1..];
      FirstOfFound(usage, rest);
      assert forall i :: 0 < i < |places| ==> places[i] == rest[i - 1];
      if CounterAt(usage, places[0]).Some? {
        assert FirstAt(usage, places, 0);
      } else if FirstOf(usage, rest).Some? {
        var i :| FirstAt(usage, rest, i) && CounterAt(usage, rest[i]) == FirstOf(usage, rest);
        assert FirstAt(usage, places, i + 1);
      }
    }
  }

  /** A counter with a preferred and a legacy member. A preferred member that is
      there decides, whatever its type; only in its absence is the other read. */
  predicate Preferred(source: Json, a: Place, b: Place, n: Option<u64>) {
    && (n.None? <==> CounterAt(source, a).None? && (Lookup(source, a).Some? || CounterAt(source, b).None?))
    && (n.Some? ==> CounterAt(source, a) == n || (Lookup(source, a).None? && CounterAt(source, b) == n))
  }

  /** A counter with alternative places: the number at the first place that holds
      one, and absent exactly when no place does. */
  ghost predicate FirstFound(source: Json, places: seq<Place>, n: Option<u64>) {
    FoundAt(source, places, n) && (n.None? <==> NowhereIn(source, places))
  }

  /** Every counter but the derived one, told from the numbers that stand literally
      in `source`. */
  ghost predicate Grounded(u: RawUsage, source: Json, p: Places) {
    && Preferred(source, p.input, p.input2, u.inputTotal)
    && FirstFound(source, p.read, u.cacheRead)
    && FirstFound(source, p.write, u.cacheWrite)
    && Preferred(source, p.output, p.output2, u.outputTotal)
    && FirstFound(source, p.reasoning, u.reasoning)
    && u.total == CounterAt(source, p.total)
  }

  /** The grounding fixes every counter: no other extraction satisfies it. */
  lemma GroundedIsUnique(u: RawUsage, v: RawUsage, source: Json, p: Places)
    requires Grounded(u, source, p) && Grounded(v, source, p)
    ensures u == v
  {
    FirstIsUnique(source, p.read, u.cacheRead, v.cacheRead);
    FirstIsUnique(source, p.write, u.cacheWrite, v.cacheWrite);
    FirstIsUnique(source, p.reasoning, u.reasoning, v.reasoning);
  }

  lemma FirstIsUnique(source: Json, places: seq<Place>, m: Option<u64>, n: Option<u64>)
    requires FirstFound(source, places, m) && FirstFound(source, places, n)
    ensures m == n
  {
    if m.Some? && n.Some? {
      var i :| FirstAt(source, places, i) && CounterAt(source, places[i]) == m;
      var j :| FirstAt(source, places, j) && CounterAt(source, places[j]) == n;
      assert i == j;
    }
  }

  /** A chain of alternatives over the two members would do otherwise: a null
      preferred member hides the number in the legacy one, for either counter. */
  lemma NullHidesLegacy()
    ensures var usage := Obj([Member("input_tokens", Null), Member("prompt_tokens", Num("5"))]);
      && CounterAt(usage, Top("prompt_tokens")) == Some(5)
      && ExtractRawUsage(usage).inputTotal == None
    ensures var usage := Obj([Member("output_tokens", Null), Member("completion_tokens", Num("5"))]);
      && CounterAt(usage, Top("completion_tokens")) == Some(5)
      && ExtractRawUsage(usage).outputTotal == None
  {
    HiddenLegacy("input_tokens", "prompt_tokens");
    HiddenLegacy("output_tokens", "completion_tokens");
  }

  lemma HiddenLegacy(a: bytes, b: bytes)
    requires a != b
    ensures var usage := Obj([Member(a, Null), Member(b, Num("5"))]);
      CounterAt(usage, Top(b)) == Some(5) && FirstPresent(usage, Top(a), Top(b)) == None
  {
    var ms := [Member(a, Null), Member(b, Num("5"))];
    assert ms[..1] == [Member(a, Null)] && Find(ms[..1], a) == Some(Null);
    assert Find(ms, a) == Some(Null);
    var five: bytes := "5";
    assert five[..0] == [];
  }

  lemma ExtractedIsGrounded(usage: Json, p: Places)
    ensures Grounded(ExtractFrom(usage, p), usage, p)
  {
    FirstOfFound(usage, p.read);
    FirstOfFound(usage, p.write);
    FirstOfFound(usage, p.reasoning);
  }

  // ---------------------------------------------------------------- canonical form

  function CheckedAdd(a: u64, b: u64): Option<u64> {
    if a + b <= U64_MAX then Some(a + b) else None
  }

  function CheckedSub(a: u64, b: u64): Option<u64> {
    if b <= a then Some(a - b) else None
  }

  function DeriveUncached(input: u64, read: u64, write: u64): Option<u64> {
    var sum := CheckedAdd(read, write);
    if sum.None? then None else CheckedSub(input, sum.value)
  }

  function Canonicalize(raw: RawUsage): (Usage, Quality) {
    var (uncached, quality) :=
      if raw.inputTotal.Some? && raw.cacheRead.Some? && raw.cacheWrite.Some? then
        var u := DeriveUncached(raw.inputTotal.value, raw.cacheRead.value, raw.cacheWrite.value);
        if u.Some? then (u, Complete) else (None, Inconsistent)
      else (None, Partial);
    (Usage(raw.inputTotal, uncached, raw.cacheRead, raw.cacheWrite, raw.outputTotal, raw.reasoning, raw.total), quality)
  }

  /** The counters as reported upstream, without the derived one. */
  function Reported(u: Usage): RawUsage {
    RawUsage(u.inputTotal, u.cacheRead, u.cacheWrite, u.outputTotal, u.reasoning, u.total)
  }

  /** The accounting identity: read and write fit in the input, as mathematical
      integers, exactly when the quality is complete and the uncached part derived. */
  predicate Balanced(u: Usage, q: Quality) {
    && (q == Complete <==> u.uncached.Some?)
    && (q == Complete <==> u.inputTotal.Some? && u.cacheRead.Some? && u.cacheWrite.Some?
                           && u.cacheRead.value + u.cacheWrite.value <= u.inputTotal.value)
    && (q == Inconsistent <==> u.inputTotal.Some? && u.cacheRead.Some? && u.cacheWrite.Some?
                               && u.cacheRead.value + u.cacheWrite.value > u.inputTotal.value)
    && (q == Complete ==> u.inputTotal.value == u.uncached.value + u.cacheRead.value + u.cacheWrite.value)
    && q != Unavailable
  }

  lemma CanonicalIsBalanced(raw: RawUsage)
    ensures Balanced(Canonicalize(raw).0, Canonicalize(raw).1)
    ensures Reported(Canonicalize(raw).0) == raw
  {
  }

  // ---------------------------------------------------------------- one event

  datatype UsageField = NoUsage | ObjectUsage(usage: Json) | BadUsage

  function UsageOf(holder: Json): UsageField {
    var u := Get(holder, "usage");
    if u.None? || u.value.Null? then NoUsage
    else if u.value.Obj? then ObjectUsage(u.value)
    else BadUsage
  }

  function StringAt(holder: Json, key: bytes): Option<bytes> {
    var v := Get(holder, key);
    if v.Some? then AsStr(v.value) else None
  }

  const COMPLETED: bytes := "response.completed"
  const INCOMPLETE: bytes := "response.incomplete"

  /** What one event tells: nothing, or that it is a terminal event, with the
      model and usage of its response object. */
  datatype Fact = Other | Terminal(incomplete: bool, model: Option<bytes>, usage: UsageField) {
    predicate HasUsage() { Terminal? && usage.ObjectUsage? }
    predicate HasModel() { Terminal? && model.Some? }
    predicate IsIncomplete() { Terminal? && incomplete }
    predicate HasBadUsage() { Terminal? && usage.BadUsage? }
  }

  function FactOfValue(value: Option<Json>): Fact {
    if value.None? then Other
    else
      var kind := StringAt(value.value, "type");
      if kind != Some(COMPLETED) && kind != Some(INCOMPLETE) then Other
      else
        var response := Get(value.value, "response");
        if response.Some? && response.value.Obj? then
          Terminal(kind == Some(INCOMPLETE), StringAt(response.value, "model"), UsageOf(response.value))
        else Terminal(kind == Some(INCOMPLETE), None, NoUsage)
  }

  function FactOf(data: bytes): Fact {
    FactOfValue(FromSlice(data))
  }

  function FactsOf(events: seq<bytes>): (facts: seq<Fact>)
    ensures |facts| == |events|
  {
    seq(|events|, i requires 0 <= i < |events| => FactOf(events[i]))
  }

  // ---------------------------------------------------------------- all events

  predicate AnyTerminal(facts: seq<Fact>) {
    exists i :: 0 <= i < |facts| && facts[i].Terminal?
  }

  predicate AnyIncomplete(facts: seq<Fact>) {
    exists i :: 0 <= i < |facts| && facts[i].IsIncomplete()
  }

  predicate AnyBadUsage(facts: seq<Fact>) {
    exists i :: 0 <= i < |facts| && facts[i].HasBadUsage()
  }

  /** `i` is the last event with a usage object. */
  predicate LastWithUsage(facts: seq<Fact>, i: int) {
    0 <= i < |facts| && facts[i].HasUsage() && forall j :: i < j < |facts| ==> !facts[j].HasUsage()
  }

  predicate LastWithModel(facts: seq<Fact>, i: int) {
    0 <= i < |facts| && facts[i].HasModel() && forall j :: i < j < |facts| ==> !facts[j].HasModel()
  }

  // ---------------------------------------------------------------- the body

  datatype AuditResult = AuditResult(model: Option<bytes>, usage: Option<Usage>, quality: Quality, error: Option<MeteringError>)

  datatype ParsedBody = ParsedBody(audit: AuditResult, terminalSeen: bool, incomplete: bool)

  /** The derived default: what an observer that never parsed would report. */
  const DEFAULT_RESULT: AuditResult := AuditResult(None, None, Unavailable, None)

  /** A valid response header wins; the body model is the fallback. */
  function EffectiveModel(header: Option<bytes>, body: Option<bytes>): Option<bytes> {
    if header.Some? then header else body
  }

  function MeteredResult(model: Option<bytes>, raw: RawUsage): AuditResult {
    AuditResult(model, Some(Canonicalize(raw).0), Canonicalize(raw).1, None)
  }

  function UnmeteredResult(model: Option<bytes>, error: MeteringError): AuditResult {
    AuditResult(model, None, Unavailable, Some(error))
  }

  /** A body that never framed as events, read as one JSON document. */
  function JsonBody(root: Option<Json>, header: Option<bytes>): ParsedBody {
    if root.None? || !root.value.Obj? then ParsedBody(UnmeteredResult(None, MissingUsage), true, false)
    else
      var model := EffectiveModel(header, StringAt(root.value, "model"));
      var audit := match UsageOf(root.value)
        case NoUsage => UnmeteredResult(model, MissingUsage)
        case ObjectUsage(u) => MeteredResult(model, ExtractRawUsage(u))
        case BadUsage => UnmeteredResult(model, MalformedUsage);
      ParsedBody(audit, true, StringAt(root.value, "status") == Some("incomplete"))
  }

  /** The running facts of the event loop. */
  datatype Fold = Fold(seen: bool, incomplete: bool, model: Option<bytes>, usage: Option<Json>, malformed: bool)

  const EMPTY_FOLD: Fold := Fold(false, false, None, None, false)

  function Observe(f: Fold, fact: Fact): Fold {
    match fact
    case Other => f
    case Terminal(incomplete, model, usage) =>
      Fold(true, f.incomplete || incomplete, OrElse(model, f.model),
           if usage.ObjectUsage? then Some(usage.usage) else f.usage, f.malformed || usage.BadUsage?)
  }

  function FoldFacts(facts: seq<Fact>): Fold {
    if facts == [] then EMPTY_FOLD else Observe(FoldFacts(facts[..|facts| - 1]), facts[|facts| - 1])
  }

  function TerminalBody(f: Fold, header: Option<bytes>): ParsedBody {
    var model := EffectiveModel(header, f.model);
    var audit :=
      if f.usage.Some? then MeteredResult(model, ExtractRawUsage(f.usage.value))
      else if f.malformed then UnmeteredResult(model, MalformedUsage)
      else UnmeteredResult(model, MissingUsage);
    ParsedBody(audit, true, f.incomplete)
  }

  /** A terminal event decides; events without one leave the body interrupted;
      a body without events is read as JSON. */
  function Judge(f: Fold, framed: bool, json: ParsedBody, header: Option<bytes>): ParsedBody {
    if f.seen then TerminalBody(f, header)
    else if framed then ParsedBody(UnmeteredResult(header, MissingUsage), false, false)
    else json
  }

  function ParseMirror(mirror: bytes, header: Option<bytes>): ParsedBody {
    var events := Sse.Events(mirror);
    Judge(FoldFacts(FactsOf(events)), events != [], JsonBody(FromSlice(mirror), header), header)
  }

  method ReadEvent(data: bytes) returns (fact: Fact)
    ensures fact == FactOf(data)
  {
    var value := FromSlice(data);
    fact := FactOfValue(value);
  }

  /** One pass over the events, updating the terminal flags, the model and the
      usage as it goes. */
  method FoldEvents(events: seq<bytes>) returns (f: Fold)
    ensures f == FoldFacts(FactsOf(events))
  {
    var seen, incomplete, malformed := false, false, false;
    var model: Option<bytes> := None;
    var usage: Option<Json> := None;
    ghost var facts := FactsOf(events);
    var n := 0;
    while n < |events|
      invariant 0 <= n <= |events|
      invariant FoldFacts(facts[..n]) == Fold(seen, incomplete, model, usage, malformed)
    {
      var fact := ReadEvent(events[n]);
      assert facts[..n + 1][..n] == facts[..n] && facts[..n + 1][n] == fact;
      n := n + 1;
      if fact.Other? {
        continue;
      }
      seen := true;
      if fact.incomplete {
        incomplete := true;
      }
      if fact.model.Some? {
        model := fact.model;
      }
      match fact.usage {
        case NoUsage =>
        case ObjectUsage(u) => usage := Some(u);
        case BadUsage => malformed := true;
      }
    }
    assert facts[..n] == facts;
    f := Fold(seen, incomplete, model, usage, malformed);
  }

  method ParseBody(mirror: bytes, header: Option<bytes>) returns (parsed: ParsedBody)
    ensures parsed == ParseMirror(mirror, header)
  {
    var events := Sse.CollectEvents(mirror);
    var f := FoldEvents(events);
    if f.seen {
      parsed := TerminalBody(f, header);
    } else if events != [] {
      parsed := ParsedBody(UnmeteredResult(header, MissingUsage), false, false);
    } else {
      parsed := JsonBody(FromSlice(mirror), header);
    }
  }

  // ---------------------------------------------------------------- what the fold means

  /** `usage` is that of the last event with a usage object. */
  ghost predicate UsageMeans(facts: seq<Fact>, usage: Option<Json>) {
    && (usage.Some? ==> exists i :: LastWithUsage(facts, i) && facts[i].usage.usage == usage.value)
    && (usage.None? ==> forall i :: 0 <= i < |facts| ==> !facts[i].HasUsage())
  }

  /** `model` is that of the last event with a model. */
  ghost predicate ModelMeans(facts: seq<Fact>, model: Option<bytes>) {
    && (model.Some? ==> exists i :: LastWithModel(facts, i) && facts[i].model == model)
    && (model.None? ==> forall i :: 0 <= i < |facts| ==> !facts[i].HasModel())
  }

  predicate FlagsMean(facts: seq<Fact>, f: Fold) {
    f.seen == AnyTerminal(facts) && f.incomplete == AnyIncomplete(facts) && f.malformed == AnyBadUsage(facts)
  }

  /** The event fold, said declaratively. */
  ghost predicate FoldMeans(facts: seq<Fact>, f: Fold) {
    FlagsMean(facts, f) && UsageMeans(facts, f.usage) && ModelMeans(facts, f.model)
  }

  lemma UsageSnoc(p: seq<Fact>, x: Fact, usage: Option<Json>)
    requires UsageMeans(p, usage)
    ensures UsageMeans(p + [x], if x.HasUsage() then Some(x.usage.usage) else usage)
  {
    var facts := p + [x];
    if x.HasUsage() {
      assert LastWithUsage(facts, |p|);
    } else if usage.Some? {
      var i :| LastWithUsage(p, i) && p[i].usage.usage == usage.value;
      assert LastWithUsage(facts, i) && facts[i] == p[i];
    }
  }

  lemma ModelSnoc(p: seq<Fact>, x: Fact, model: Option<bytes>)
    requires ModelMeans(p, model)
    ensures ModelMeans(p + [x], if x.HasModel() then x.model else model)
  {
    var facts := p + [x];
    if x.HasModel() {
      assert LastWithModel(facts, |p|);
    } else if model.Some? {
      var i :| LastWithModel(p, i) && p[i].model == model;
      assert LastWithModel(facts, i) && facts[i] == p[i];
    }
  }

  lemma FlagsSnoc(p: seq<Fact>, x: Fact, f: Fold)
    requires FlagsMean(p, f)
    ensures FlagsMean(p + [x], Observe(f, x))
  {
    var facts := p + [x];
    assert facts[|p|] == x;
    assert forall i :: 0 <= i < |p| ==> facts[i] == p[i];
  }

  lemma {:induction false} FoldIsDeclarative(facts: seq<Fact>)
    ensures FoldMeans(facts, FoldFacts(facts))
  {
    if facts != [] {
      var p, x := facts[..|facts| - 1], facts[|facts| - 1];
      assert facts == p + [x];
      FoldIsDeclarative(p);
      FlagsSnoc(p, x, FoldFacts(p));
      UsageSnoc(p, x, FoldFacts(p).usage);
      ModelSnoc(p, x, FoldFacts(p).model);
    }
  }

  lemma OnlyOneLast(facts: seq<Fact>)
    ensures forall i, j :: LastWithUsage(facts, i) && LastWithUsage(facts, j) ==> i == j
    ensures forall i, j :: LastWithModel(facts, i) && LastWithModel(facts, j) ==> i == j
  {
  }

  lemma {:induction false} FoldGrows(facts: seq<Fact>, more: seq<Fact>)
    ensures var a, b := FoldFacts(facts), FoldFacts(facts + more);
      && (a.seen ==> b.seen) && (a.incomplete ==> b.incomplete)
      && (a.usage.Some? ==> b.usage.Some?) && (a.model.Some? ==> b.model.Some?)
    decreases more
  {
    if more == [] {
      assert facts + more == facts;
    } else {
      var m := |more| - 1;
      FoldGrows(facts, more[..m]);
      assert (facts + more)[..|facts + more| - 1] == facts + more[..m];
    }
  }

  // ---------------------------------------------------------------- consequences

  /** On a JSON document the observer always takes its JSON branch. */
  lemma JsonTakesJsonBranch(mirror: bytes, header: Option<bytes>)
    requires FromSlice(mirror).Some?
    ensures ParseMirror(mirror, header) == JsonBody(FromSlice(mirror), header)
  {
    Sse.JsonHasNoEvents(mirror);
  }

  /** Once a terminal event lies wholly in the mirror it stays terminal in every
      longer mirror, an incomplete mark never reverts, and usage is never lost. */
  lemma LongerMirrorKeepsTerminal(mirror: bytes, more: bytes, header: Option<bytes>)
    requires AnyTerminal(FactsOf(Sse.Events(mirror)))
    ensures var a, b := ParseMirror(mirror, header), ParseMirror(mirror + more, header);
      && a.terminalSeen && b.terminalSeen
      && (a.incomplete ==> b.incomplete)
      && (a.audit.usage.Some? ==> b.audit.usage.Some?)
      && (a.audit.model.Some? ==> b.audit.model.Some?)
  {
    Sse.EventsMonotone(mirror, more);
    LongerFacts(Sse.Events(mirror), Sse.Events(mirror + more));
    FoldIsDeclarative(FactsOf(Sse.Events(mirror)));
  }

  lemma LongerFacts(e: seq<bytes>, e': seq<bytes>)
    requires e <= e'
    ensures var a, b := FoldFacts(FactsOf(e)), FoldFacts(FactsOf(e'));
      && (a.seen ==> b.seen) && (a.incomplete ==> b.incomplete)
      && (a.usage.Some? ==> b.usage.Some?) && (a.model.Some? ==> b.model.Some?)
  {
    var f, f' := FactsOf(e), FactsOf(e');
    assert f' == f + f'[|f|..];
    FoldGrows(f, f'[|f|..]);
  }

  /** What a parsed body can say: usage and a metering error exclude each other,
      the quality follows the accounting identity, and the unparsed default and
      the retired `EventTooLarge` never appear. */
  predicate SoundResult(r: AuditResult) {
    && (r.usage.Some? <==> r.error.None?)
    && (r.usage.None? ==> r.quality == Unavailable && (r.error == Some(MissingUsage) || r.error == Some(MalformedUsage)))
    && (r.usage.Some? ==> Balanced(r.usage.value, r.quality))
    && r != DEFAULT_RESULT
  }

  lemma MeteredIsSound(model: Option<bytes>, raw: RawUsage)
    ensures SoundResult(MeteredResult(model, raw))
  {
  }

  lemma JsonBodySound(root: Option<Json>, header: Option<bytes>)
    ensures SoundResult(JsonBody(root, header).audit)
    ensures JsonBody(root, header).terminalSeen
  {
    if root.Some? && UsageOf(root.value).ObjectUsage? {
      MeteredIsSound(EffectiveModel(header, StringAt(root.value, "model")), ExtractRawUsage(UsageOf(root.value).usage));
    }
  }

  lemma JudgedIsSound(f: Fold, framed: bool, json: ParsedBody, header: Option<bytes>)
    requires SoundResult(json.audit) && json.terminalSeen
    ensures var p := Judge(f, framed, json, header);
      SoundResult(p.audit) && (p.incomplete ==> p.terminalSeen)
  {
    if f.usage.Some? {
      MeteredIsSound(EffectiveModel(header, f.model), ExtractRawUsage(f.usage.value));
    }
  }

  lemma ParsedIsSound(mirror: bytes, header: Option<bytes>)
    ensures SoundResult(ParseMirror(mirror, header).audit)
    ensures ParseMirror(mirror, header).incomplete ==> ParseMirror(mirror, header).terminalSeen
  {
    JsonBodySound(FromSlice(mirror), header);
    JudgedIsSound(FoldFacts(FactsOf(Sse.Events(mirror))), Sse.Events(mirror) != [], JsonBody(FromSlice(mirror), header), header);
  }

  // ---------------------------------------------------------------- models are text

  predicate IsText(s: Option<bytes>) {
    s.Some? ==> Utf8.Valid(s.value)
  }

  lemma CleanMember(v: Json, key: bytes)
    requires Clean(v)
    ensures Get(v, key).Some? ==> Clean(Get(v, key).value)
  {
    if v.Obj? {
      FindIsLast(v.members, key);
    }
  }

  lemma CleanString(v: Json, key: bytes)
    requires Clean(v)
    ensures IsText(StringAt(v, key))
  {
    CleanMember(v, key);
  }

  lemma FactModelIsText(value: Option<Json>)
    requires value.Some? ==> Clean(value.value)
    ensures FactOfValue(value).Terminal? ==> IsText(FactOfValue(value).model)
  {
    if value.Some? {
      var response := Get(value.value, "response");
      CleanMember(value.value, "response");
      if response.Some? {
        CleanString(response.value, "model");
      }
    }
  }

  lemma EventModelIsText(data: bytes)
    ensures FactOf(data).Terminal? ==> IsText(FactOf(data).model)
  {
    if FromSlice(data).Some? {
      ParsedStringsClean(data);
    }
    FactModelIsText(FromSlice(data));
  }

  lemma FoldModelIsText(facts: seq<Fact>)
    requires forall i :: 0 <= i < |facts| && facts[i].Terminal? ==> IsText(facts[i].model)
    ensures IsText(FoldFacts(facts).model)
  {
    FoldIsDeclarative(facts);
  }

  lemma JsonModelIsText(root: Option<Json>, header: Option<bytes>)
    requires IsText(header) && (root.Some? ==> Clean(root.value))
    ensures IsText(JsonBody(root, header).audit.model)
  {
    if root.Some? {
      CleanString(root.value, "model");
    }
  }

  /** A recorded model is well-formed text if the response header is. */
  lemma ModelIsText(mirror: bytes, header: Option<bytes>)
    requires IsText(header)
    ensures IsText(ParseMirror(mirror, header).audit.model)
  {
    var events := Sse.Events(mirror);
    var facts := FactsOf(events);
    forall i | 0 <= i < |facts| && facts[i].Terminal? ensures IsText(facts[i].model) {
      EventModelIsText(events[i]);
    }
    FoldModelIsText(facts);
    if FromSlice(mirror).Some? {
      ParsedStringsClean(mirror);
    }
    JsonModelIsText(FromSlice(mirror), header);
    JudgedModel(FoldFacts(facts), events != [], JsonBody(FromSlice(mirror), header), header);
  }

  lemma JudgedModel(f: Fold, framed: bool, json: ParsedBody, header: Option<bytes>)
    requires IsText(f.model) && IsText(header) && IsText(json.audit.model)
    ensures IsText(Judge(f, framed, json, header).audit.model)
  {
  }

  // ---------------------------------------------------------------- the observer object

  /** The response-side observer: it mirrors chunks and parses the mirror once. */
  class StreamUsageParser {
    const headerModel: Option<bytes>
    var mirror: bytes
    var parsed: Option<ParsedBody>

    constructor (headerModel: Option<bytes>)
      ensures this.headerModel == headerModel && mirror == [] && parsed == None
    {
      this.headerModel := headerModel;
      mirror, parsed := [], None;
    }

    method Push(chunk: bytes)
      modifies this`mirror
      ensures mirror == old(mirror) + chunk
    {
      mirror := mirror + chunk;
    }

    /** Parses the mirror as it stands at the first call; later calls change nothing. */
    method Finalize()
      modifies this`parsed
      ensures parsed == if old(parsed).Some? then old(parsed) else Some(ParseMirror(mirror, headerModel))
    {
      if parsed.None? {
        var p := ParseBody(mirror, headerModel);
        parsed := Some(p);
      }
    }
  }
}
