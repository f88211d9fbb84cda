/** The canonical audit record and its JSONL line (src/usage.rs): the compact text
    the writer produces and the typed reading of a line by the summary. */
module Record {
  import opened Bytes
  import Utf8
  import opened Json
  import opened JsonText
  import opened JsonStrings
  import opened JsonFragments
  import opened Observer

  type u8 = n: int | 0 <= n < 0x100
  type u16 = n: int | 0 <= n < 0x1_0000

  datatype Operation = Response | Compaction

  datatype Outcome = Completed | Incomplete | UpstreamError | TransportError | UpstreamInterrupted | ClientCancelled

  datatype AuditRecord = AuditRecord(
    schemaVersion: u8,
    kind: bytes,
    eventId: bytes,
    timestamp: bytes,
    machineId: bytes,
    operation: Operation,
    upstreamStatus: Option<u16>,
    outcome: Outcome,
    model: Option<bytes>,
    quality: Quality,
    error: Option<MeteringError>,
    effort: Option<bytes>,
    usage: Option<Usage>)

  const SCHEMA_VERSION: u8 := 1
  const KIND: bytes := "request"

  // ---------------------------------------------------------------- names

  function OperationName(o: Operation): bytes {
    match o case Response => "response" case Compaction => "compaction"
  }

  function OperationOf(s: bytes): Option<Operation> {
    if s == "response" then Some(Response) else if s == "compaction" then Some(Compaction) else None
  }

  function OutcomeName(o: Outcome): bytes {
    match o
    case Completed => "completed"
    case Incomplete => "incomplete"
    case UpstreamError => "upstream_error"
    case TransportError => "transport_error"
    case UpstreamInterrupted => "upstream_interrupted"
    case ClientCancelled => "client_cancelled"
  }

  function OutcomeOf(s: bytes): Option<Outcome> {
    if s == "completed" then Some(Completed)
    else if s == "incomplete" then Some(Incomplete)
    else if s == "upstream_error" then Some(UpstreamError)
    else if s == "transport_error" then Some(TransportError)
    else if s == "upstream_interrupted" then Some(UpstreamInterrupted)
    else if s == "client_cancelled" then Some(ClientCancelled)
    else None
  }

  function QualityName(q: Quality): bytes {
    match q
    case Complete => "complete"
    case Partial => "partial"
    case Inconsistent => "inconsistent"
    case Unavailable => "unavailable"
  }

  function QualityOf(s: bytes): Option<Quality> {
    if s == "complete" then Some(Complete)
    else if s == "partial" then Some(Partial)
    else if s == "inconsistent" then Some(Inconsistent)
    else if s == "unavailable" then Some(Unavailable)
    else None
  }

  function ErrorName(e: MeteringError): bytes {
    match e
    case MissingUsage => "missing_usage"
    case MalformedUsage => "malformed_usage"
    case EventTooLarge => "event_too_large"
  }

  function ErrorOf(s: bytes): Option<MeteringError> {
    if s == "missing_usage" then Some(MissingUsage)
    else if s == "malformed_usage" then Some(MalformedUsage)
    else if s == "event_too_large" then Some(EventTooLarge)
    else None
  }

  // ---------------------------------------------------------------- writing

  function OptStr(s: Option<bytes>): Json {
    if s.Some? then Str(s.value) else Null
  }

  function OptNum(n: Option<int>): Json
    requires n.Some? ==> n.value >= 0
  {
    if n.Some? then Num(Decimal(n.value)) else Null
  }

  const USAGE_KEYS: seq<bytes> :=
    ["input_total", "uncached", "cache_read", "cache_write", "output_total", "reasoning", "total"]

  const RECORD_KEYS: seq<bytes> :=
    ["schema_version", "kind", "event_id", "timestamp", "machine_id", "operation", "upstream_status", "outcome",
     "model", "accounting_quality", "metering_error", "reasoning_effort", "usage"]

  function UsageValues(u: Usage): (vs: seq<Json>)
    ensures |vs| == 7
  {
    [OptNum(u.inputTotal), OptNum(u.uncached), OptNum(u.cacheRead), OptNum(u.cacheWrite), OptNum(u.outputTotal),
     OptNum(u.reasoning), OptNum(u.total)]
  }

  /** The members of a struct, in declaration order. */
  function Zip(keys: seq<bytes>, values: seq<Json>): (ms: seq<Member>)
    requires |keys| == |values|
    ensures |ms| == |keys| && forall i :: 0 <= i < |ms| ==> ms[i] == Member(keys[i], values[i])
  {
    seq(|keys|, i requires 0 <= i < |keys| => Member(keys[i], values[i]))
  }

  function UsageJson(u: Option<Usage>): Json {
    if u.None? then Null else Obj(Zip(USAGE_KEYS, UsageValues(u.value)))
  }

  function RecordValues(r: AuditRecord): (vs: seq<Json>)
    ensures |vs| == 13
  {
    [Num(Decimal(r.schemaVersion)), Str(r.kind), Str(r.eventId), Str(r.timestamp), Str(r.machineId),
     Str(OperationName(r.operation)), OptNum(r.upstreamStatus), Str(OutcomeName(r.outcome)), OptStr(r.model),
     Str(QualityName(r.quality)), OptError(r.error), OptStr(r.effort),
     UsageJson(r.usage)]
  }

  function RecordMembers(r: AuditRecord): seq<Member> {
    Zip(RECORD_KEYS, RecordValues(r))
  }

  /** The text of one record, without its newline. */
  function Text(r: AuditRecord): bytes {
    Print(Obj(RecordMembers(r)))
  }

  // ---------------------------------------------------------------- reading

  /** A struct field in an object: unknown members are ignored, a repeated known
      one is an error. */
  datatype Field = Missing | One(v: Json) | Repeated

  function FieldOf(members: seq<Member>, key: bytes): Field {
    if members == [] then Missing
    else
      var n := |members| - 1;
      var rest := FieldOf(members[..n], key);
      if members[n].key != key then rest
      else if rest.Missing? then One(members[n].value)
      else Repeated
  }

  function ReadStr(f: Field): Option<bytes> {
    if f.One? && f.v.Str? then Some(f.v.text) else None
  }

  /** An optional field may be missing or null. */
  function ReadOptStr(f: Field): Option<Option<bytes>> {
    if f.Missing? || (f.One? && f.v.Null?) then Some(None)
    else if f.One? && f.v.Str? then Some(Some(f.v.text))
    else None
  }

  function ReadNum(f: Field, max: u64): (r: Option<u64>)
    ensures r.Some? ==> r.value <= max
  {
    if f.One? && AsU64(f.v).Some? && AsU64(f.v).value <= max then AsU64(f.v) else None
  }

  function ReadOptNum(f: Field, max: u64): (r: Option<Option<u64>>)
    ensures r.Some? && r.value.Some? ==> r.value.value <= max
  {
    if f.Missing? || (f.One? && f.v.Null?) then Some(None)
    else if ReadNum(f, max).Some? then Some(ReadNum(f, max))
    else None
  }

  datatype UsageFields = UsageFields(
    inputTotal: Field, uncached: Field, cacheRead: Field, cacheWrite: Field, outputTotal: Field, reasoning: Field, total: Field)

  function UsageFromFields(f: UsageFields): Option<Usage> {
    var a, b, c := ReadOptNum(f.inputTotal, U64_MAX), ReadOptNum(f.uncached, U64_MAX), ReadOptNum(f.cacheRead, U64_MAX);
    var d, e, g := ReadOptNum(f.cacheWrite, U64_MAX), ReadOptNum(f.outputTotal, U64_MAX), ReadOptNum(f.reasoning, U64_MAX);
    var h := ReadOptNum(f.total, U64_MAX);
    if a.Some? && b.Some? && c.Some? && d.Some? && e.Some? && g.Some? && h.Some?
    then Some(Usage(a.value, b.value, c.value, d.value, e.value, g.value, h.value))
    else None
  }

  function GatherUsage(ms: seq<Member>): UsageFields {
    UsageFields(
      FieldOf(ms, USAGE_KEYS[0]), FieldOf(ms, USAGE_KEYS[1]), FieldOf(ms, USAGE_KEYS[2]), FieldOf(ms, USAGE_KEYS[3]),
      FieldOf(ms, USAGE_KEYS[4]), FieldOf(ms, USAGE_KEYS[5]), FieldOf(ms, USAGE_KEYS[6]))
  }

  function ReadUsage(f: Field): Option<Option<Usage>> {
    if f.Missing? || (f.One? && f.v.Null?) then Some(None)
    else if f.One? && f.v.Obj? then
      var u := UsageFromFields(GatherUsage(f.v.members));
      if u.Some? then Some(u) else None
    else None
  }

  function ReadOptError(f: Field): Option<Option<MeteringError>> {
    var s := ReadOptStr(f);
    if s.None? then None
    else if s.value.None? then Some(None)
    else if ErrorOf(s.value.value).Some? then Some(ErrorOf(s.value.value))
    else None
  }

  datatype Fields = Fields(
    schemaVersion: Field, kind: Field, eventId: Field, timestamp: Field, machineId: Field, operation: Field,
    upstreamStatus: Field, outcome: Field, model: Field, quality: Field, error: Field, effort: Field, usage: Field)

  function Gather(ms: seq<Member>): Fields {
    Fields(
      FieldOf(ms, RECORD_KEYS[0]), FieldOf(ms, RECORD_KEYS[1]), FieldOf(ms, RECORD_KEYS[2]), FieldOf(ms, RECORD_KEYS[3]),
      FieldOf(ms, RECORD_KEYS[4]), FieldOf(ms, RECORD_KEYS[5]), FieldOf(ms, RECORD_KEYS[6]), FieldOf(ms, RECORD_KEYS[7]),
      FieldOf(ms, RECORD_KEYS[8]), FieldOf(ms, RECORD_KEYS[9]), FieldOf(ms, RECORD_KEYS[10]), FieldOf(ms, RECORD_KEYS[11]),
      FieldOf(ms, RECORD_KEYS[12]))
  }

  function ReadOperation(f: Field): Option<Operation> {
    if ReadStr(f).None? then None else OperationOf(ReadStr(f).value)
  }

  function ReadOutcome(f: Field): Option<Outcome> {
    if ReadStr(f).None? then None else OutcomeOf(ReadStr(f).value)
  }

  function ReadQuality(f: Field): Option<Quality> {
    if ReadStr(f).None? then None else QualityOf(ReadStr(f).value)
  }

  /** What each field reads as. */
  datatype Reads = Reads(
    schemaVersion: Option<u64>, kind: Option<bytes>, eventId: Option<bytes>, timestamp: Option<bytes>,
    machineId: Option<bytes>, operation: Option<Operation>, upstreamStatus: Option<Option<int>>, outcome: Option<Outcome>,
    model: Option<Option<bytes>>, quality: Option<Quality>, error: Option<Option<MeteringError>>,
    effort: Option<Option<bytes>>, usage: Option<Option<Usage>>)

  function ReadAll(f: Fields): Reads {
    Reads(ReadNum(f.schemaVersion, 255), ReadStr(f.kind), ReadStr(f.eventId), ReadStr(f.timestamp), ReadStr(f.machineId),
          ReadOperation(f.operation), ReadOptNum(f.upstreamStatus, 65535), ReadOutcome(f.outcome), ReadOptStr(f.model),
          ReadQuality(f.quality), ReadOptError(f.error), ReadOptStr(f.effort), ReadUsage(f.usage))
  }

  /** Every field must read; any that does not makes the line an error. */
  function FromReads(r: Reads): Option<AuditRecord> {
    if r.schemaVersion.Some? && r.schemaVersion.value < 256 && r.kind.Some? && r.eventId.Some? && r.timestamp.Some?
       && r.machineId.Some? && r.operation.Some? && r.upstreamStatus.Some?
       && (r.upstreamStatus.value.Some? ==> 0 <= r.upstreamStatus.value.value < 65536) && r.outcome.Some? && r.model.Some?
       && r.quality.Some? && r.error.Some? && r.effort.Some? && r.usage.Some?
    then Some(AuditRecord(
      r.schemaVersion.value, r.kind.value, r.eventId.value, r.timestamp.value, r.machineId.value, r.operation.value,
      r.upstreamStatus.value, r.outcome.value, r.model.value, r.quality.value, r.error.value, r.effort.value, r.usage.value))
    else None
  }

  function FromJson(v: Option<Json>): Option<AuditRecord> {
    if v.None? || !v.value.Obj? then None else FromReads(ReadAll(Gather(v.value.members)))
  }

  /** The typed reading of one line. */
  function Decode(line: bytes): Option<AuditRecord> {
    FromJson(FromSlice(line))
  }

  // ---------------------------------------------------------------- fields

  lemma {:induction false} FieldAbsent(ms: seq<Member>, key: bytes)
    requires forall j :: 0 <= j < |ms| ==> ms[j].key != key
    ensures FieldOf(ms, key) == Missing
  {
    if ms != [] {
      FieldAbsent(ms[..|ms| - 1], key);
    }
  }

  lemma {:induction false} FieldAt(ms: seq<Member>, i: nat)
    requires i < |ms| && forall j :: 0 <= j < |ms| && j != i ==> ms[j].key != ms[i].key
    ensures FieldOf(ms, ms[i].key) == One(ms[i].value)
    decreases ms
  {
    var n := |ms| - 1;
    if i == n {
      FieldAbsent(ms[..n], ms[i].key);
    } else {
      assert ms[..n][i] == ms[i];
      FieldAt(ms[..n], i);
    }
  }

  lemma KeysDistinct()
    ensures forall i, j :: 0 <= i < j < |RECORD_KEYS| ==> RECORD_KEYS[i] != RECORD_KEYS[j]
    ensures forall i, j :: 0 <= i < j < |USAGE_KEYS| ==> USAGE_KEYS[i] != USAGE_KEYS[j]
  {
  }

  lemma ZipField(keys: seq<bytes>, values: seq<Json>, i: nat)
    requires |keys| == |values| && i < |keys|
    requires forall i, j :: 0 <= i < j < |keys| ==> keys[i] != keys[j]
    ensures FieldOf(Zip(keys, values), keys[i]) == One(values[i])
  {
    FieldAt(Zip(keys, values), i);
  }

  lemma NumReads(n: nat, max: u64)
    requires n <= max
    ensures ReadNum(One(Num(Decimal(n))), max) == Some(n)
  {
  }

  function OptError(e: Option<MeteringError>): Json {
    if e.Some? then Str(ErrorName(e.value)) else Null
  }

  function ReadsOf(r: AuditRecord): Reads {
    Reads(Some(r.schemaVersion), Some(r.kind), Some(r.eventId), Some(r.timestamp), Some(r.machineId), Some(r.operation),
          Some(r.upstreamStatus), Some(r.outcome), Some(r.model), Some(r.quality), Some(r.error), Some(r.effort), Some(r.usage))
  }

  /** The record's strings are text, as the program's string type guarantees. */
  predicate IsTextRecord(r: AuditRecord) {
    && Utf8.Valid(r.kind) && Utf8.Valid(r.eventId) && Utf8.Valid(r.timestamp) && Utf8.Valid(r.machineId)
    && IsText(r.model) && IsText(r.effort)
  }

  lemma UsagePlain(u: Usage)
    ensures forall i :: 0 <= i < 7 ==> Plainly(UsageValues(u)[i])
  {
  }

  lemma ValuesPlain(r: AuditRecord)
    ensures Plainly(Obj(RecordMembers(r)))
  {
    if r.usage.Some? {
      UsagePlain(r.usage.value);
    }
    var vs := RecordValues(r);
    assert Plainly(vs[0]) && Plainly(vs[6]) && Plainly(vs[12]);
    forall i | 0 <= i < 13 ensures Plainly(vs[i]) {}
  }

  predicate IsAscii(s: bytes) {
    forall i :: 0 <= i < |s| ==> s[i] as int < 0x80
  }

  lemma RecordKeysAscii()
    ensures forall i :: 0 <= i < |RECORD_KEYS| ==> IsAscii(RECORD_KEYS[i])
  {
  }

  lemma UsageKeysAscii()
    ensures forall i :: 0 <= i < |USAGE_KEYS| ==> IsAscii(USAGE_KEYS[i])
  {
  }

  lemma OperationAscii(o: Operation)
    ensures IsAscii(OperationName(o))
  {
  }

  lemma OutcomeAscii(o: Outcome)
    ensures IsAscii(OutcomeName(o))
  {
  }

  lemma QualityAscii(q: Quality)
    ensures IsAscii(QualityName(q))
  {
  }

  lemma ErrorAscii(e: MeteringError)
    ensures IsAscii(ErrorName(e))
  {
  }

  lemma AsciiName(s: bytes)
    requires IsAscii(s)
    ensures Clean(Str(s))
  {
    Utf8.AsciiValid(s);
  }

  lemma NamesText(r: AuditRecord)
    ensures Clean(Str(OperationName(r.operation))) && Clean(Str(OutcomeName(r.outcome))) && Clean(Str(QualityName(r.quality)))
    ensures Clean(OptError(r.error))
  {
    OperationAscii(r.operation);
    AsciiName(OperationName(r.operation));
    OutcomeAscii(r.outcome);
    AsciiName(OutcomeName(r.outcome));
    QualityAscii(r.quality);
    AsciiName(QualityName(r.quality));
    if r.error.Some? {
      ErrorAscii(r.error.value);
      AsciiName(ErrorName(r.error.value));
    }
  }

  lemma ZipClean(keys: seq<bytes>, values: seq<Json>)
    requires |keys| == |values|
    requires forall i :: 0 <= i < |keys| ==> IsAscii(keys[i]) && Clean(values[i])
    ensures Clean(Obj(Zip(keys, values)))
  {
    forall i | 0 <= i < |keys| ensures Utf8.Valid(keys[i]) {
      Utf8.AsciiValid(keys[i]);
    }
  }

  lemma UsageClean(u: Option<Usage>)
    ensures Clean(UsageJson(u))
  {
    if u.Some? {
      UsageKeysAscii();
      assert forall i :: 0 <= i < 7 ==> Clean(UsageValues(u.value)[i]);
      ZipClean(USAGE_KEYS, UsageValues(u.value));
    }
  }

  lemma ValuesClean(r: AuditRecord)
    requires IsTextRecord(r)
    ensures Clean(Obj(RecordMembers(r)))
  {
    NamesText(r);
    UsageClean(r.usage);
    var vs := RecordValues(r);
    assert forall i :: 0 <= i < 13 ==> Clean(vs[i]);
    RecordKeysAscii();
    ZipClean(RECORD_KEYS, vs);
  }

  lemma TextParses(r: AuditRecord)
    requires IsTextRecord(r)
    ensures Utf8.Valid(Text(r))
    ensures FromSlice(Text(r)) == Some(Obj(RecordMembers(r)))
  {
    ValuesPlain(r);
    ValuesClean(r);
    PrintedText(Obj(RecordMembers(r)));
    RoundTrip(RecordMembers(r));
  }

  // ---------------------------------------------------------------- the schema by name

  lemma FindAt(ms: seq<Member>, i: nat)
    requires i < |ms| && forall j :: 0 <= j < |ms| && j != i ==> ms[j].key != ms[i].key
    ensures Find(ms, ms[i].key) == Some(ms[i].value)
  {
    FindIsLast(ms, ms[i].key);
  }

  lemma ZipFind(keys: seq<bytes>, values: seq<Json>, i: nat)
    requires |keys| == |values| && i < |keys|
    requires forall i, j :: 0 <= i < j < |keys| ==> keys[i] != keys[j]
    ensures Find(Zip(keys, values), keys[i]) == Some(values[i])
  {
    FindAt(Zip(keys, values), i);
  }

  /** A member of a written record, by its position in the schema. */
  lemma RecordMember(r: AuditRecord, i: nat)
    requires i < 13
    ensures Get(Obj(RecordMembers(r)), RECORD_KEYS[i]) == Some(RecordValues(r)[i])
  {
    KeysDistinct();
    ZipFind(RECORD_KEYS, RecordValues(r), i);
  }

  lemma StringsByName(r: AuditRecord)
    ensures var v := Obj(RecordMembers(r));
      && Get(v, "kind") == Some(Str(r.kind)) && Get(v, "event_id") == Some(Str(r.eventId))
      && Get(v, "timestamp") == Some(Str(r.timestamp)) && Get(v, "machine_id") == Some(Str(r.machineId))
      && Get(v, "model") == Some(OptStr(r.model)) && Get(v, "reasoning_effort") == Some(OptStr(r.effort))
  {
    RecordMember(r, 1);
    RecordMember(r, 2);
    RecordMember(r, 3);
    RecordMember(r, 4);
    RecordMember(r, 8);
    RecordMember(r, 11);
  }

  lemma EnumsByName(r: AuditRecord)
    ensures var v := Obj(RecordMembers(r));
      && Get(v, "operation") == Some(Str(if r.operation == Response then "response" else "compaction"))
      && Get(v, "outcome") == Some(Str(
           if r.outcome == Completed then "completed" else if r.outcome == Incomplete then "incomplete"
           else if r.outcome == UpstreamError then "upstream_error" else if r.outcome == TransportError then "transport_error"
           else if r.outcome == UpstreamInterrupted then "upstream_interrupted" else "client_cancelled"))
      && Get(v, "accounting_quality") == Some(Str(
           if r.quality == Quality.Complete then "complete" else if r.quality == Partial then "partial"
           else if r.quality == Inconsistent then "inconsistent" else "unavailable"))
      && Get(v, "metering_error") == Some(
           if r.error == None then Null else if r.error == Some(MissingUsage) then Str("missing_usage")
           else if r.error == Some(MalformedUsage) then Str("malformed_usage") else Str("event_too_large"))
  {
    RecordMember(r, 5);
    RecordMember(r, 7);
    RecordMember(r, 9);
    RecordMember(r, 10);
  }

  /** The usage of a record as written. */
  predicate UsageWritten(v: Json, u: Usage) {
    && Get(v, "input_total") == Some(OptNum(u.inputTotal)) && Get(v, "uncached") == Some(OptNum(u.uncached))
    && Get(v, "cache_read") == Some(OptNum(u.cacheRead)) && Get(v, "cache_write") == Some(OptNum(u.cacheWrite))
    && Get(v, "output_total") == Some(OptNum(u.outputTotal)) && Get(v, "reasoning") == Some(OptNum(u.reasoning))
    && Get(v, "total") == Some(OptNum(u.total))
  }

  lemma UsageMember(u: Usage, i: nat)
    requires i < 7
    ensures Get(Obj(Zip(USAGE_KEYS, UsageValues(u))), USAGE_KEYS[i]) == Some(UsageValues(u)[i])
  {
    KeysDistinct();
    ZipFind(USAGE_KEYS, UsageValues(u), i);
  }

  lemma UsageByName(u: Usage)
    ensures UsageWritten(Obj(Zip(USAGE_KEYS, UsageValues(u))), u)
  {
    UsageMember(u, 0);
    UsageMember(u, 1);
    UsageMember(u, 2);
    UsageMember(u, 3);
    UsageMember(u, 4);
    UsageMember(u, 5);
    UsageMember(u, 6);
  }

  lemma RecordByName(r: AuditRecord)
    ensures var v := Obj(RecordMembers(r));
      && Get(v, "schema_version") == Some(Num(Decimal(r.schemaVersion))) && Get(v, "kind") == Some(Str(r.kind))
      && Get(v, "upstream_status") == Some(OptNum(r.upstreamStatus))
      && Get(v, "usage").Some? && (r.usage.None? <==> Get(v, "usage") == Some(Null))
      && (r.usage.Some? ==> UsageWritten(Get(v, "usage").value, r.usage.value))
  {
    RecordMember(r, 0);
    RecordMember(r, 1);
    RecordMember(r, 6);
    RecordMember(r, 12);
    if r.usage.Some? {
      UsageByName(r.usage.value);
    }
  }

  // ---------------------------------------------------------------- what reads as a record

  /** Exactly one member has the key, with this value. */
  predicate Sole(ms: seq<Member>, key: bytes, v: Json) {
    exists i :: 0 <= i < |ms| && ms[i] == Member(key, v) && forall j :: 0 <= j < |ms| && j != i ==> ms[j].key != key
  }

  predicate NoMember(ms: seq<Member>, key: bytes) {
    forall i :: 0 <= i < |ms| ==> ms[i].key != key
  }

  lemma {:induction false} FieldMeans(ms: seq<Member>, key: bytes, v: Json)
    ensures FieldOf(ms, key).Missing? <==> NoMember(ms, key)
    ensures FieldOf(ms, key) == One(v) <==> Sole(ms, key, v)
  {
    if FieldOf(ms, key).Missing? {
      FieldPresent(ms, key);
    } else if FieldOf(ms, key).One? {
      var i := FieldIndex(ms, key);
      assert Sole(ms, key, FieldOf(ms, key).v);
    }
    if NoMember(ms, key) {
      FieldAbsent(ms, key);
    }
    if Sole(ms, key, v) {
      var i :| 0 <= i < |ms| && ms[i] == Member(key, v) && forall j :: 0 <= j < |ms| && j != i ==> ms[j].key != key;
      FieldAt(ms, i);
    }
  }

  lemma {:induction false} FieldPresent(ms: seq<Member>, key: bytes)
    ensures FieldOf(ms, key).Missing? ==> NoMember(ms, key)
  {
    if ms != [] {
      FieldPresent(ms[..|ms| - 1], key);
      assert forall i :: 0 <= i < |ms| - 1 ==> ms[..|ms| - 1][i] == ms[i];
    }
  }

  lemma {:induction false} FieldIndex(ms: seq<Member>, key: bytes) returns (i: nat)
    requires FieldOf(ms, key).One?
    ensures i < |ms| && ms[i] == Member(key, FieldOf(ms, key).v)
    ensures forall j :: 0 <= j < |ms| && j != i ==> ms[j].key != key
  {
    var n := |ms| - 1;
    if ms[n].key == key {
      i := n;
      FieldPresent(ms[..n], key);
      assert forall j :: 0 <= j < n ==> ms[..n][j] == ms[j];
      assert ms[n] == Member(ms[n].key, ms[n].value);
    } else {
      i := FieldIndex(ms[..n], key);
      assert forall j :: 0 <= j < n ==> ms[..n][j] == ms[j];
    }
  }

  predicate HasStr(ms: seq<Member>, key: bytes, s: bytes) {
    FieldOf(ms, key) == One(Str(s))
  }

  /** An optional member: missing or null for nothing. */
  predicate HasOptStr(ms: seq<Member>, key: bytes, s: Option<bytes>) {
    if s.Some? then HasStr(ms, key, s.value) else FieldOf(ms, key) == Missing || FieldOf(ms, key) == One(Null)
  }

  predicate HasNum(ms: seq<Member>, key: bytes, n: int) {
    FieldOf(ms, key).One? && AsU64(FieldOf(ms, key).v) == Some(n)
  }

  predicate HasOptNum(ms: seq<Member>, key: bytes, n: Option<int>) {
    if n.Some? then HasNum(ms, key, n.value) else FieldOf(ms, key) == Missing || FieldOf(ms, key) == One(Null)
  }

  predicate HasUsageFields(ms: seq<Member>, u: Usage) {
    && HasOptNum(ms, "input_total", u.inputTotal) && HasOptNum(ms, "uncached", u.uncached)
    && HasOptNum(ms, "cache_read", u.cacheRead) && HasOptNum(ms, "cache_write", u.cacheWrite)
    && HasOptNum(ms, "output_total", u.outputTotal) && HasOptNum(ms, "reasoning", u.reasoning)
    && HasOptNum(ms, "total", u.total)
  }

  predicate HasUsageOf(ms: seq<Member>, u: Option<Usage>) {
    var f := FieldOf(ms, "usage");
    if u.Some? then f.One? && f.v.Obj? && HasUsageFields(f.v.members, u.value) else f == Missing || f == One(Null)
  }

  predicate HasStrings(ms: seq<Member>, r: AuditRecord) {
    && HasStr(ms, "kind", r.kind) && HasStr(ms, "event_id", r.eventId) && HasStr(ms, "timestamp", r.timestamp)
    && HasStr(ms, "machine_id", r.machineId) && HasOptStr(ms, "model", r.model) && HasOptStr(ms, "reasoning_effort", r.effort)
  }

  predicate HasEnums(ms: seq<Member>, r: AuditRecord) {
    && HasStr(ms, "operation", OperationName(r.operation)) && HasStr(ms, "outcome", OutcomeName(r.outcome))
    && HasStr(ms, "accounting_quality", QualityName(r.quality))
    && HasOptStr(ms, "metering_error", if r.error.Some? then Some(ErrorName(r.error.value)) else None)
  }

  /** The members say the record, under the schema's names. */
  predicate HasRecord(ms: seq<Member>, r: AuditRecord) {
    && HasNum(ms, "schema_version", r.schemaVersion) && HasOptNum(ms, "upstream_status", r.upstreamStatus)
    && HasStrings(ms, r) && HasEnums(ms, r) && HasUsageOf(ms, r.usage)
  }

  lemma NamesInvert()
    ensures forall s, o :: OperationOf(s) == Some(o) <==> s == OperationName(o)
    ensures forall s, o :: OutcomeOf(s) == Some(o) <==> s == OutcomeName(o)
    ensures forall s, q :: QualityOf(s) == Some(q) <==> s == QualityName(q)
    ensures forall s, e :: ErrorOf(s) == Some(e) <==> s == ErrorName(e)
  {
  }

  lemma OptNumMeans(ms: seq<Member>, key: bytes, max: u64, n: Option<int>)
    requires n.Some? ==> 0 <= n.value <= max
    ensures ReadOptNum(FieldOf(ms, key), max) == Some(n) <==> HasOptNum(ms, key, n)
  {
  }

  lemma UsageFieldsMean(ms: seq<Member>, u: Usage)
    ensures UsageFromFields(GatherUsage(ms)) == Some(u) <==> HasUsageFields(ms, u)
  {
    OptNumMeans(ms, USAGE_KEYS[0], U64_MAX, u.inputTotal);
    OptNumMeans(ms, USAGE_KEYS[1], U64_MAX, u.uncached);
    OptNumMeans(ms, USAGE_KEYS[2], U64_MAX, u.cacheRead);
    OptNumMeans(ms, USAGE_KEYS[3], U64_MAX, u.cacheWrite);
    OptNumMeans(ms, USAGE_KEYS[4], U64_MAX, u.outputTotal);
    OptNumMeans(ms, USAGE_KEYS[5], U64_MAX, u.reasoning);
    OptNumMeans(ms, USAGE_KEYS[6], U64_MAX, u.total);
  }

  lemma UsageMeans(ms: seq<Member>, u: Option<Usage>)
    ensures ReadUsage(FieldOf(ms, "usage")) == Some(u) <==> HasUsageOf(ms, u)
  {
    var f := FieldOf(ms, "usage");
    if u.Some? && f.One? && f.v.Obj? {
      UsageFieldsMean(f.v.members, u.value);
    }
  }

  lemma EnumsMean(ms: seq<Member>, r: AuditRecord)
    ensures ReadOperation(FieldOf(ms, "operation")) == Some(r.operation) <==> HasStr(ms, "operation", OperationName(r.operation))
    ensures ReadOutcome(FieldOf(ms, "outcome")) == Some(r.outcome) <==> HasStr(ms, "outcome", OutcomeName(r.outcome))
    ensures ReadQuality(FieldOf(ms, "accounting_quality")) == Some(r.quality)
       <==> HasStr(ms, "accounting_quality", QualityName(r.quality))
    ensures ReadOptError(FieldOf(ms, "metering_error")) == Some(r.error)
       <==> HasOptStr(ms, "metering_error", if r.error.Some? then Some(ErrorName(r.error.value)) else None)
  {
    NamesInvert();
  }

  predicate SameStrings(a: Reads, b: Reads) {
    && a.kind == b.kind && a.eventId == b.eventId && a.timestamp == b.timestamp && a.machineId == b.machineId
    && a.model == b.model && a.effort == b.effort
  }

  predicate SameEnums(a: Reads, b: Reads) {
    a.operation == b.operation && a.outcome == b.outcome && a.quality == b.quality && a.error == b.error
  }

  lemma StringsMean(ms: seq<Member>, r: AuditRecord)
    ensures SameStrings(ReadAll(Gather(ms)), ReadsOf(r)) <==> HasStrings(ms, r)
  {
  }

  lemma NumbersMean(ms: seq<Member>, r: AuditRecord)
    ensures var a, b := ReadAll(Gather(ms)), ReadsOf(r);
      && (a.schemaVersion == b.schemaVersion <==> HasNum(ms, "schema_version", r.schemaVersion))
      && (a.upstreamStatus == b.upstreamStatus <==> HasOptNum(ms, "upstream_status", r.upstreamStatus))
  {
    OptNumMeans(ms, "upstream_status", 65535, r.upstreamStatus);
  }

  lemma SameEnumsMean(ms: seq<Member>, r: AuditRecord)
    ensures SameEnums(ReadAll(Gather(ms)), ReadsOf(r)) <==> HasEnums(ms, r)
  {
    EnumsMean(ms, r);
  }

  lemma SameUsageMeans(ms: seq<Member>, r: AuditRecord)
    ensures ReadAll(Gather(ms)).usage == ReadsOf(r).usage <==> HasUsageOf(ms, r.usage)
  {
    UsageMeans(ms, r.usage);
  }

  lemma SameReads(a: Reads, b: Reads)
    ensures a == b <==> SameStrings(a, b) && SameEnums(a, b) && a.usage == b.usage
                        && a.schemaVersion == b.schemaVersion && a.upstreamStatus == b.upstreamStatus
  {
  }

  lemma ReadsMean(ms: seq<Member>, r: AuditRecord)
    ensures ReadAll(Gather(ms)) == ReadsOf(r) <==> HasRecord(ms, r)
  {
    SameReads(ReadAll(Gather(ms)), ReadsOf(r));
    StringsMean(ms, r);
    NumbersMean(ms, r);
    SameEnumsMean(ms, r);
    SameUsageMeans(ms, r);
  }

  /** A line reads as a record exactly when it is one JSON object whose members say
      that record; others are ignored, and a repeated one says nothing. */
  lemma DecodeByName(line: bytes, r: AuditRecord)
    ensures Decode(line) == Some(r) <==>
      FromSlice(line).Some? && FromSlice(line).value.Obj? && HasRecord(FromSlice(line).value.members, r)
  {
    if FromSlice(line).Some? && FromSlice(line).value.Obj? {
      ReadsMean(FromSlice(line).value.members, r);
    }
  }

  // ---------------------------------------------------------------- round trip

  /** A written record read as a struct, member by member. */
  lemma RecordField(r: AuditRecord, i: nat)
    requires i < 13
    ensures FieldOf(RecordMembers(r), RECORD_KEYS[i]) == One(RecordValues(r)[i])
  {
    KeysDistinct();
    ZipField(RECORD_KEYS, RecordValues(r), i);
  }

  lemma UsageFieldAt(u: Usage, i: nat)
    requires i < 7
    ensures FieldOf(Zip(USAGE_KEYS, UsageValues(u)), USAGE_KEYS[i]) == One(UsageValues(u)[i])
  {
    KeysDistinct();
    ZipField(USAGE_KEYS, UsageValues(u), i);
  }

  lemma StringsHeld(r: AuditRecord)
    ensures HasStrings(RecordMembers(r), r)
  {
    RecordField(r, 1);
    RecordField(r, 2);
    RecordField(r, 3);
    RecordField(r, 4);
    RecordField(r, 8);
    RecordField(r, 11);
  }

  lemma EnumsHeld(r: AuditRecord)
    ensures HasEnums(RecordMembers(r), r)
  {
    RecordField(r, 5);
    RecordField(r, 7);
    RecordField(r, 9);
    RecordField(r, 10);
  }

  lemma OptNumHeld(ms: seq<Member>, key: bytes, n: Option<int>)
    requires (n.Some? ==> 0 <= n.value <= U64_MAX) && FieldOf(ms, key) == One(OptNum(n))
    ensures HasOptNum(ms, key, n)
  {
    if n.Some? {
      NumReads(n.value, U64_MAX);
    }
  }

  lemma CounterHeld(u: Usage, i: nat, n: Option<u64>)
    requires i < 7 && UsageValues(u)[i] == OptNum(n)
    ensures HasOptNum(Zip(USAGE_KEYS, UsageValues(u)), USAGE_KEYS[i], n)
  {
    UsageFieldAt(u, i);
    OptNumHeld(Zip(USAGE_KEYS, UsageValues(u)), USAGE_KEYS[i], n);
  }

  lemma UsageHeld(u: Usage)
    ensures HasUsageFields(Zip(USAGE_KEYS, UsageValues(u)), u)
  {
    CounterHeld(u, 0, u.inputTotal);
    CounterHeld(u, 1, u.uncached);
    CounterHeld(u, 2, u.cacheRead);
    CounterHeld(u, 3, u.cacheWrite);
    CounterHeld(u, 4, u.outputTotal);
    CounterHeld(u, 5, u.reasoning);
    CounterHeld(u, 6, u.total);
  }

  lemma RecordHeld(r: AuditRecord)
    ensures HasRecord(RecordMembers(r), r)
  {
    RecordField(r, 0);
    NumReads(r.schemaVersion, 255);
    RecordField(r, 6);
    OptNumHeld(RecordMembers(r), RECORD_KEYS[6], r.upstreamStatus);
    StringsHeld(r);
    EnumsHeld(r);
    RecordField(r, 12);
    if r.usage.Some? {
      UsageHeld(r.usage.value);
    }
  }

  /** Reading a written line gives the record back. */
  lemma RecordRoundTrip(r: AuditRecord)
    requires IsTextRecord(r)
    ensures Decode(Text(r)) == Some(r)
  {
    TextParses(r);
    RecordHeld(r);
    DecodeByName(Text(r), r);
  }

  // ---------------------------------------------------------------- shape of the text

  lemma PrintedOpening(ms: seq<Member>)
    requires |ms| > 1 && ms[0].key != [] && ms[0].key[0] == 's'
    ensures var t := Print(Obj(ms)); OpensLikeRecord(t) && t[|t| - 1] == '}'
  {
    var m := PrintMember(ms[0]);
    assert PrintMembers(ms)[..|m|] == m;
    assert EscapedByte('s') == ['s'];
    assert Escaped(ms[0].key)[0] == 's';
    assert Quoted(ms[0].key)[0] == '"' && Quoted(ms[0].key)[1] == 's';
    assert m[0] == '"' && m[1] == 's';
    var t := Print(Obj(ms));
    assert t[1] == PrintMembers(ms)[0] && t[2] == PrintMembers(ms)[1];
  }

  /** A record text is one object on one line, opening in a way that starts no
      JSON token when it follows a cut-off string. */
  lemma TextShape(r: AuditRecord)
    ensures IsObjectText(Text(r)) && OpensLikeRecord(Text(r)) && NoControl(Text(r))
  {
    ValuesPlain(r);
    PrintedText(Obj(RecordMembers(r)));
    RoundTrip(RecordMembers(r));
    PrintedOpening(RecordMembers(r));
  }

  lemma ZipKeeps(keys: seq<bytes>, values: seq<Json>, i: nat, b: byte)
    requires |keys| == |values| && i < |keys| && b in Print(values[i])
    ensures b in Print(Obj(Zip(keys, values)))
  {
    PrintMembersKeeps(Zip(keys, values), i, b);
  }

  /** A byte outside ASCII in the model name stands in the text. */
  lemma TextKeepsModel(r: AuditRecord, b: byte)
    requires r.model.Some? && b in r.model.value && b as int >= 0x80
    ensures b in Text(r)
  {
    var values := RecordValues(r);
    EscapedKeeps(r.model.value, b);
    assert b in Print(Str(r.model.value));
    assert values[8] == Str(r.model.value);
    ZipKeeps(RECORD_KEYS, values, 8, b);
  }

  /** No proper prefix of a record text decodes. */
  lemma NoPrefixDecodes(r: AuditRecord, n: nat)
    requires n < |Text(r)|
    ensures Decode(Text(r)[..n]) == None
  {
    TextShape(r);
    NoProperPrefixParses(Text(r), n);
  }
}
