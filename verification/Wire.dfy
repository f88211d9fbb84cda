/** What a response body says, told in the provider's own field names: a second
    account of the observer (src/usage.rs), written without its functions, and the
    proof that the observer agrees with it on every body. */
module Wire {
  import opened Bytes
  import opened Json
  import Sse
  import Utf8
  import opened Observer

  // ---------------------------------------------------------------- counters

  function Sub(v: Option<Json>, key: bytes): Option<Json> {
    if v.None? then None else Get(v.value, key)
  }

  /** `n` is the first present of the alternatives. */
  ghost predicate FirstIs(n: Option<u64>, options: seq<Option<u64>>) {
    && (n.None? <==> forall i :: 0 <= i < |options| ==> options[i].None?)
    && (n.Some? ==> exists i :: 0 <= i < |options| && options[i] == n && forall j :: 0 <= j < i ==> options[j].None?)
  }

  function Preferring(usage: Json, key: bytes, legacy: bytes): Option<u64> {
    Counter(if Get(usage, key).Some? then Get(usage, key) else Get(usage, legacy))
  }

  ghost predicate CacheReadIs(n: Option<u64>, usage: Json) {
    FirstIs(n, [
      Counter(Sub(Get(usage, "input_tokens_details"), "cached_tokens")),
      Counter(Get(usage, "prompt_cache_hit_tokens")),
      Counter(Get(usage, "cache_read_input_tokens"))])
  }

  ghost predicate CacheWriteIs(n: Option<u64>, usage: Json) {
    FirstIs(n, [
      Counter(Sub(Get(usage, "input_tokens_details"), "cache_write_tokens")),
      Counter(Get(usage, "cache_write_input_tokens")),
      Counter(Get(usage, "cache_write_tokens")),
      Counter(Get(usage, "cache_creation_input_tokens")),
      Counter(Sub(Get(usage, "prompt_tokens_details"), "cache_write_tokens"))])
  }

  ghost predicate ReasoningIs(n: Option<u64>, usage: Json) {
    FirstIs(n, [
      Counter(Sub(Get(usage, "output_tokens_details"), "reasoning_tokens")),
      Counter(Sub(Get(usage, "completion_tokens_details"), "reasoning_tokens")),
      Counter(Get(usage, "reasoning_tokens"))])
  }

  /** The six counters of a usage object. */
  ghost predicate CountersAre(u: RawUsage, usage: Json) {
    && u.inputTotal == Preferring(usage, "input_tokens", "prompt_tokens")
    && u.outputTotal == Preferring(usage, "output_tokens", "completion_tokens")
    && u.total == Counter(Get(usage, "total_tokens"))
    && CacheReadIs(u.cacheRead, usage) && CacheWriteIs(u.cacheWrite, usage) && ReasoningIs(u.reasoning, usage)
  }

  /** The alternatives at a list of places. */
  function Options(usage: Json, places: seq<Place>): (r: seq<Option<u64>>)
    ensures |r| == |places|
  {
    seq(|places|, i requires 0 <= i < |places| => CounterAt(usage, places[i]))
  }

  lemma FirstOfIs(usage: Json, places: seq<Place>)
    ensures FirstIs(FirstOf(usage, places), Options(usage, places))
  {
    FirstOfFound(usage, places);
    var n, options := FirstOf(usage, places), Options(usage, places);
    if n.Some? {
      var i :| FirstAt(usage, places, i) && CounterAt(usage, places[i]) == n;
      assert options[i] == n;
    } else {
      assert forall i :: 0 <= i < |options| ==> options[i].None?;
    }
    if forall i :: 0 <= i < |options| ==> options[i].None? {
      forall i | 0 <= i < |places| ensures CounterAt(usage, places[i]).None? {
        assert options[i].None?;
      }
    }
  }

  lemma ReadByName(usage: Json)
    ensures CacheReadIs(ExtractRawUsage(usage).cacheRead, usage)
  {
    var places := [Within("input_tokens_details", "cached_tokens"), Top("prompt_cache_hit_tokens"), Top("cache_read_input_tokens")];
    FirstOfIs(usage, places);
    assert Options(usage, places) == [CounterAt(usage, places[0]), CounterAt(usage, places[1]), CounterAt(usage, places[2])];
  }

  lemma WriteByName(usage: Json)
    ensures CacheWriteIs(ExtractRawUsage(usage).cacheWrite, usage)
  {
    var places := [Within("input_tokens_details", "cache_write_tokens"), Top("cache_write_input_tokens"), Top("cache_write_tokens"),
                   Top("cache_creation_input_tokens"), Within("prompt_tokens_details", "cache_write_tokens")];
    FirstOfIs(usage, places);
    assert Options(usage, places) == [CounterAt(usage, places[0]), CounterAt(usage, places[1]), CounterAt(usage, places[2]),
                                      CounterAt(usage, places[3]), CounterAt(usage, places[4])];
  }

  lemma ReasoningByName(usage: Json)
    ensures ReasoningIs(ExtractRawUsage(usage).reasoning, usage)
  {
    var places := [Within("output_tokens_details", "reasoning_tokens"), Within("completion_tokens_details", "reasoning_tokens"), Top("reasoning_tokens")];
    FirstOfIs(usage, places);
    assert Options(usage, places) == [CounterAt(usage, places[0]), CounterAt(usage, places[1]), CounterAt(usage, places[2])];
  }

  lemma PreferredByName(usage: Json, key: bytes, legacy: bytes)
    ensures FirstPresent(usage, Top(key), Top(legacy)) == Preferring(usage, key, legacy)
  {
  }

  /** Extraction reads every counter from the member of its name, falling back in
      the stated order. */
  lemma ExtractsByName(usage: Json)
    ensures CountersAre(ExtractRawUsage(usage), usage)
  {
    PreferredByName(usage, "input_tokens", "prompt_tokens");
    PreferredByName(usage, "output_tokens", "completion_tokens");
    ReadByName(usage);
    WriteByName(usage);
    ReasoningByName(usage);
  }

  lemma FirstIsUnique(m: Option<u64>, n: Option<u64>, options: seq<Option<u64>>)
    requires FirstIs(m, options) && FirstIs(n, options)
    ensures m == n
  {
    if m.Some? && n.Some? {
      var i :| 0 <= i < |options| && options[i] == m && forall j :: 0 <= j < i ==> options[j].None?;
      var k :| 0 <= k < |options| && options[k] == n && forall j :: 0 <= j < k ==> options[j].None?;
      assert i == k;
    }
  }

  lemma ReadUnique(m: Option<u64>, n: Option<u64>, usage: Json)
    requires CacheReadIs(m, usage) && CacheReadIs(n, usage)
    ensures m == n
  {
    FirstIsUnique(m, n, [
      Counter(Sub(Get(usage, "input_tokens_details"), "cached_tokens")),
      Counter(Get(usage, "prompt_cache_hit_tokens")),
      Counter(Get(usage, "cache_read_input_tokens"))]);
  }

  lemma WriteUnique(m: Option<u64>, n: Option<u64>, usage: Json)
    requires CacheWriteIs(m, usage) && CacheWriteIs(n, usage)
    ensures m == n
  {
    FirstIsUnique(m, n, [
      Counter(Sub(Get(usage, "input_tokens_details"), "cache_write_tokens")),
      Counter(Get(usage, "cache_write_input_tokens")),
      Counter(Get(usage, "cache_write_tokens")),
      Counter(Get(usage, "cache_creation_input_tokens")),
      Counter(Sub(Get(usage, "prompt_tokens_details"), "cache_write_tokens"))]);
  }

  lemma ReasoningUnique(m: Option<u64>, n: Option<u64>, usage: Json)
    requires ReasoningIs(m, usage) && ReasoningIs(n, usage)
    ensures m == n
  {
    FirstIsUnique(m, n, [
      Counter(Sub(Get(usage, "output_tokens_details"), "reasoning_tokens")),
      Counter(Sub(Get(usage, "completion_tokens_details"), "reasoning_tokens")),
      Counter(Get(usage, "reasoning_tokens"))]);
  }

  lemma CountersUnique(u: RawUsage, v: RawUsage, usage: Json)
    requires CountersAre(u, usage) && CountersAre(v, usage)
    ensures u == v
  {
    ReadUnique(u.cacheRead, v.cacheRead, usage);
    WriteUnique(u.cacheWrite, v.cacheWrite, usage);
    ReasoningUnique(u.reasoning, v.reasoning, usage);
  }

  // ---------------------------------------------------------------- events

  predicate EventIs(data: bytes, kind: bytes) {
    Sub(FromSlice(data), "type") == Some(Str(kind))
  }

  predicate TerminalEvent(data: bytes) {
    EventIs(data, "response.completed") || EventIs(data, "response.incomplete")
  }

  /** A member of the event's `response`. */
  function ResponseField(data: bytes, key: bytes): Option<Json> {
    Sub(Sub(FromSlice(data), "response"), key)
  }

  predicate UsageEvent(data: bytes) {
    TerminalEvent(data) && ResponseField(data, "usage").Some? && ResponseField(data, "usage").value.Obj?
  }

  /** A usage that is neither absent, null nor an object. */
  predicate BadUsageEvent(data: bytes) {
    && TerminalEvent(data) && ResponseField(data, "usage").Some?
    && !ResponseField(data, "usage").value.Null? && !ResponseField(data, "usage").value.Obj?
  }

  predicate ModelEvent(data: bytes) {
    TerminalEvent(data) && ResponseField(data, "model").Some? && ResponseField(data, "model").value.Str?
  }

  /** A fact is what the event says under the provider's names. */
  lemma FactByName(v: Json)
    ensures var f, kind, response := FactOfValue(Some(v)), Get(v, "type"), Get(v, "response");
      && (f.Terminal? <==> kind == Some(Str("response.completed")) || kind == Some(Str("response.incomplete")))
      && (f.IsIncomplete() <==> kind == Some(Str("response.incomplete")))
      && (f.Terminal? ==>
            && (f.model.Some? <==> Sub(response, "model").Some? && Sub(response, "model").value.Str?)
            && (f.model.Some? ==> Sub(response, "model") == Some(Str(f.model.value)))
            && (f.usage.NoUsage? <==> Sub(response, "usage").None? || Sub(response, "usage").value.Null?)
            && (f.usage.ObjectUsage? <==> Sub(response, "usage").Some? && Sub(response, "usage").value.Obj?)
            && (f.usage.ObjectUsage? ==> Sub(response, "usage") == Some(f.usage.usage)))
  {
  }

  lemma EventByName(data: bytes)
    ensures var f := FactOf(data);
      && (f.Terminal? <==> TerminalEvent(data))
      && (f.IsIncomplete() <==> EventIs(data, "response.incomplete"))
      && (f.HasUsage() <==> UsageEvent(data)) && (f.HasUsage() ==> ResponseField(data, "usage") == Some(f.usage.usage))
      && (f.HasBadUsage() <==> BadUsageEvent(data))
      && (f.HasModel() <==> ModelEvent(data)) && (f.HasModel() ==> ResponseField(data, "model") == Some(Str(f.model.value)))
  {
    if FromSlice(data).Some? {
      FactByName(FromSlice(data).value);
    }
  }

  // ---------------------------------------------------------------- bodies

  predicate AnyTerminalEvent(events: seq<bytes>) {
    exists i :: 0 <= i < |events| && TerminalEvent(events[i])
  }

  predicate AnyIncompleteEvent(events: seq<bytes>) {
    exists i :: 0 <= i < |events| && EventIs(events[i], "response.incomplete")
  }

  predicate AnyBadUsageEvent(events: seq<bytes>) {
    exists i :: 0 <= i < |events| && BadUsageEvent(events[i])
  }

  predicate LastUsage(events: seq<bytes>, i: int) {
    0 <= i < |events| && UsageEvent(events[i]) && forall j :: i < j < |events| ==> !UsageEvent(events[j])
  }

  predicate LastModel(events: seq<bytes>, i: int) {
    0 <= i < |events| && ModelEvent(events[i]) && forall j :: i < j < |events| ==> !ModelEvent(events[j])
  }

  /** The usage of an object: its counters by name, and the rest by the accounting identity. */
  ghost predicate UsageIs(a: AuditResult, usage: Option<Json>) {
    && usage.Some? && a.usage.Some? && a.error == None
    && CountersAre(Reported(a.usage.value), usage.value) && Balanced(a.usage.value, a.quality)
  }

  predicate UnmeteredIs(a: AuditResult, error: MeteringError) {
    a.usage == None && a.quality == Unavailable && a.error == Some(error)
  }

  predicate ModelIs(model: Option<bytes>, v: Option<Json>) {
    v.Some? && v.value.Str? && model == Some(v.value.text)
  }

  /** The usage of a body with a terminal event: that of the last one that has an
      object; without one, malformed if some event has another value. */
  ghost predicate EventUsageIs(events: seq<bytes>, a: AuditResult) {
    && (forall i :: LastUsage(events, i) ==> UsageIs(a, ResponseField(events[i], "usage")))
    && ((forall i :: !LastUsage(events, i)) ==> UnmeteredIs(a, if AnyBadUsageEvent(events) then MalformedUsage else MissingUsage))
  }

  /** Its model: the header's, or that of the last terminal event naming one. */
  ghost predicate EventModelIs(events: seq<bytes>, header: Option<bytes>, model: Option<bytes>) {
    && (header.Some? ==> model == header)
    && (header.None? ==> forall i :: LastModel(events, i) ==> ModelIs(model, ResponseField(events[i], "model")))
    && (header.None? && (forall i :: !LastModel(events, i)) ==> model == None)
  }

  ghost predicate EventsSay(events: seq<bytes>, header: Option<bytes>, p: ParsedBody) {
    && p.terminalSeen && (p.incomplete <==> AnyIncompleteEvent(events))
    && EventUsageIs(events, p.audit) && EventModelIs(events, header, p.audit.model)
  }

  ghost predicate JsonUsageIs(usage: Option<Json>, a: AuditResult) {
    if usage.None? || usage.value.Null? then UnmeteredIs(a, MissingUsage)
    else if usage.value.Obj? then UsageIs(a, usage)
    else UnmeteredIs(a, MalformedUsage)
  }

  predicate JsonModelIs(field: Option<Json>, header: Option<bytes>, model: Option<bytes>) {
    if header.Some? then model == header
    else if field.Some? && field.value.Str? then model == Some(field.value.text)
    else model == None
  }

  /** A body without events. One that is no JSON object reports nothing at all, not
      even the model the header names. */
  ghost predicate JsonSays(root: Option<Json>, header: Option<bytes>, p: ParsedBody) {
    && p.terminalSeen && (p.incomplete <==> Sub(root, "status") == Some(Str("incomplete")))
    && if root.None? || !root.value.Obj? then UnmeteredIs(p.audit, MissingUsage) && p.audit.model == None
       else JsonUsageIs(Sub(root, "usage"), p.audit) && JsonModelIs(Sub(root, "model"), header, p.audit.model)
  }

  /** What a whole body says. */
  ghost predicate Says(body: bytes, header: Option<bytes>, p: ParsedBody) {
    var events := Sse.Events(body);
    if AnyTerminalEvent(events) then EventsSay(events, header, p)
    else if events != [] then
      !p.terminalSeen && !p.incomplete && UnmeteredIs(p.audit, MissingUsage) && p.audit.model == header
    else JsonSays(FromSlice(body), header, p)
  }

  // ---------------------------------------------------------------- the observer agrees

  lemma FactsByName(events: seq<bytes>)
    ensures var facts := FactsOf(events);
      && (AnyTerminal(facts) <==> AnyTerminalEvent(events))
      && (AnyIncomplete(facts) <==> AnyIncompleteEvent(events))
      && (AnyBadUsage(facts) <==> AnyBadUsageEvent(events))
      && (forall i :: LastWithUsage(facts, i) <==> LastUsage(events, i))
      && (forall i :: LastWithModel(facts, i) <==> LastModel(events, i))
  {
    var facts := FactsOf(events);
    forall i | 0 <= i < |events|
      ensures facts[i] == FactOf(events[i])
      ensures facts[i].Terminal? <==> TerminalEvent(events[i])
      ensures facts[i].IsIncomplete() <==> EventIs(events[i], "response.incomplete")
      ensures facts[i].HasBadUsage() <==> BadUsageEvent(events[i])
      ensures facts[i].HasUsage() <==> UsageEvent(events[i])
      ensures facts[i].HasModel() <==> ModelEvent(events[i])
    {
      EventByName(events[i]);
    }
  }

  lemma LastByName(events: seq<bytes>, i: int)
    ensures LastUsage(events, i) ==> ResponseField(events[i], "usage") == Some(FactsOf(events)[i].usage.usage)
    ensures LastModel(events, i) ==> ModelIs(FactsOf(events)[i].model, ResponseField(events[i], "model"))
  {
    if 0 <= i < |events| {
      EventByName(events[i]);
      assert FactsOf(events)[i] == FactOf(events[i]);
    }
  }

  lemma MeteredByName(model: Option<bytes>, usage: Json)
    ensures UsageIs(MeteredResult(model, ExtractRawUsage(usage)), Some(usage))
  {
    ExtractsByName(usage);
    CanonicalIsBalanced(ExtractRawUsage(usage));
  }

  lemma EventUsageByName(events: seq<bytes>, header: Option<bytes>)
    ensures EventUsageIs(events, TerminalBody(FoldFacts(FactsOf(events)), header).audit)
  {
    var facts := FactsOf(events);
    var f := FoldFacts(facts);
    FactsByName(events);
    FoldIsDeclarative(facts);
    OnlyOneLast(facts);
    if f.usage.Some? {
      var i :| LastWithUsage(facts, i) && facts[i].usage.usage == f.usage.value;
      LastByName(events, i);
      MeteredByName(EffectiveModel(header, f.model), f.usage.value);
    }
  }

  lemma EventModelByName(events: seq<bytes>, header: Option<bytes>)
    ensures EventModelIs(events, header, EffectiveModel(header, FoldFacts(FactsOf(events)).model))
  {
    var facts := FactsOf(events);
    var f := FoldFacts(facts);
    FactsByName(events);
    FoldIsDeclarative(facts);
    OnlyOneLast(facts);
    if f.model.Some? {
      var i :| LastWithModel(facts, i) && facts[i].model == f.model;
      LastByName(events, i);
    }
  }

  lemma JsonByName(root: Option<Json>, header: Option<bytes>)
    ensures JsonSays(root, header, JsonBody(root, header))
  {
    if root.Some? && UsageOf(root.value).ObjectUsage? {
      MeteredByName(EffectiveModel(header, StringAt(root.value, "model")), UsageOf(root.value).usage);
    }
  }

  lemma JudgedByName(events: seq<bytes>, root: Option<Json>, header: Option<bytes>)
    ensures var p := Judge(FoldFacts(FactsOf(events)), events != [], JsonBody(root, header), header);
      if AnyTerminalEvent(events) then EventsSay(events, header, p)
      else if events != [] then !p.terminalSeen && !p.incomplete && UnmeteredIs(p.audit, MissingUsage) && p.audit.model == header
      else JsonSays(root, header, p)
  {
    FactsByName(events);
    FoldIsDeclarative(FactsOf(events));
    EventUsageByName(events, header);
    EventModelByName(events, header);
    JsonByName(root, header);
  }

  /** On every body the observer reports what the body says. */
  lemma ReportsByName(body: bytes, header: Option<bytes>)
    ensures Says(body, header, ParseMirror(body, header))
  {
    JudgedByName(Sse.Events(body), FromSlice(body), header);
  }

  // ---------------------------------------------------------------- the account is complete

  lemma UsageUnique(a: AuditResult, b: AuditResult, usage: Option<Json>)
    requires UsageIs(a, usage) && UsageIs(b, usage)
    ensures a.usage == b.usage && a.quality == b.quality && a.error == b.error
  {
    CountersUnique(Reported(a.usage.value), Reported(b.usage.value), usage.value);
  }

  lemma EventUsageUnique(events: seq<bytes>, a: AuditResult, b: AuditResult)
    requires EventUsageIs(events, a) && EventUsageIs(events, b)
    ensures a.usage == b.usage && a.quality == b.quality && a.error == b.error
  {
    if i :| LastUsage(events, i) {
      UsageUnique(a, b, ResponseField(events[i], "usage"));
    }
  }

  lemma EventModelUnique(events: seq<bytes>, header: Option<bytes>, m: Option<bytes>, n: Option<bytes>)
    requires EventModelIs(events, header, m) && EventModelIs(events, header, n)
    ensures m == n
  {
    if i :| LastModel(events, i) {
      assert header.None? ==> ModelIs(m, ResponseField(events[i], "model")) && ModelIs(n, ResponseField(events[i], "model"));
    }
  }

  lemma JsonUnique(root: Option<Json>, header: Option<bytes>, p: ParsedBody, q: ParsedBody)
    requires JsonSays(root, header, p) && JsonSays(root, header, q)
    ensures p == q
  {
    var usage := Sub(root, "usage");
    if UsageIs(p.audit, usage) && UsageIs(q.audit, usage) {
      UsageUnique(p.audit, q.audit, usage);
    }
  }

  /** Nothing about the report is left open: a body and a header say one thing. */
  lemma SaysOneThing(body: bytes, header: Option<bytes>, p: ParsedBody, q: ParsedBody)
    requires Says(body, header, p) && Says(body, header, q)
    ensures p == q
  {
    var events := Sse.Events(body);
    if AnyTerminalEvent(events) {
      EventUsageUnique(events, p.audit, q.audit);
      EventModelUnique(events, header, p.audit.model, q.audit.model);
    } else if events == [] {
      JsonUnique(FromSlice(body), header, p, q);
    }
  }

  // ---------------------------------------------------------------- terminal and incomplete

  /** Some terminal event, or no event at all: not an interrupted stream. */
  predicate IsTerminalBody(body: bytes) {
    AnyTerminalEvent(Sse.Events(body)) || Sse.Events(body) == []
  }

  /** A `response.incomplete` event, or no events and a top-level `status` of
      `incomplete`. */
  predicate IsIncompleteBody(body: bytes) {
    || AnyIncompleteEvent(Sse.Events(body))
    || (Sse.Events(body) == [] && Sub(FromSlice(body), "status") == Some(Str("incomplete")))
  }

  /** A body lacks a terminal state exactly when it framed as events and none of
      them is terminal, and is incomplete exactly when it says so. */
  lemma BodyState(body: bytes, header: Option<bytes>)
    ensures ParseMirror(body, header).terminalSeen <==> IsTerminalBody(body)
    ensures ParseMirror(body, header).incomplete <==> IsIncompleteBody(body)
    ensures IsIncompleteBody(body) ==> IsTerminalBody(body)
  {
    ReportsByName(body, header);
    var events := Sse.Events(body);
    if i :| 0 <= i < |events| && EventIs(events[i], "response.incomplete") {
      assert TerminalEvent(events[i]);
    }
  }

  /** A header's model reaches the report of every body but one: a body that neither
      frames as events nor is a JSON object drops it. */
  lemma HeaderModelIffBody(body: bytes, model: bytes)
    ensures ParseMirror(body, Some(model)).audit.model == Some(model) <==>
      Sse.Events(body) != [] || (FromSlice(body).Some? && FromSlice(body).value.Obj?)
  {
    ReportsByName(body, Some(model));
  }

  /** The body `x` is such a body. */
  lemma HeaderModelDropped(model: bytes)
    ensures ParseMirror("x", Some(model)).audit.model == None
  {
    var body: bytes := "x";
    RunCons(Init, 'x', []);
    assert body == ['x'] + [] && FromSlice(body) == None;
    Sse.FeedText(Sse.Start, body);
    assert Sse.Events(body) == [] by {
      assert Sse.StripBom(body) == body;
      Sse.FeedText(Sse.Start, body);
      assert Utf8.Valid(body) by { Utf8.AsciiValid(body); }
    }
    ReportsByName(body, Some(model));
  }

  /** Cached and written tokens, each under its own name. */
  lemma DetailsExample()
    ensures var details := Obj([Member("cached_tokens", Num("4")), Member("cache_write_tokens", Num("1"))]);
      var u := ExtractRawUsage(Obj([Member("input_tokens", Num("10")), Member("input_tokens_details", details)]));
      u.cacheRead == Some(4) && u.cacheWrite == Some(1)
  {
    var ds := [Member("cached_tokens", Num("4")), Member("cache_write_tokens", Num("1"))];
    var ms := [Member("input_tokens", Num("10")), Member("input_tokens_details", Obj(ds))];
    assert ds[..1] == [Member("cached_tokens", Num("4"))] && Find(ds[..1], "cached_tokens") == Some(Num("4"));
    assert Find(ds, "cached_tokens") == Some(Num("4")) && Find(ds, "cache_write_tokens") == Some(Num("1"));
    Digit('4');
    Digit('1');
    FirstIsFirst(Obj(ms));
  }

  lemma Digit(d: byte)
    requires IsDigit(d)
    ensures AsU64(Num([d])) == Some(d as int - '0' as int)
  {
    var raw: bytes := [d];
    assert raw[..0] == [];
    assert DecimalValue(raw) == DecimalValue(raw[..0]) * 10 + (d as int - '0' as int);
  }

  lemma FirstIsFirst(usage: Json)
    ensures var n := Counter(Sub(Get(usage, "input_tokens_details"), "cached_tokens")); n.Some? ==> ExtractRawUsage(usage).cacheRead == n
    ensures var n := Counter(Sub(Get(usage, "input_tokens_details"), "cache_write_tokens")); n.Some? ==> ExtractRawUsage(usage).cacheWrite == n
  {
    ExtractsByName(usage);
  }
}
