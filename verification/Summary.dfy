/** The local summary (src/summary.rs): one pass over the lines of the usage file,
    grouping saturating counters by machine and model and by declared effort. */
module Summary {
  import opened Bytes
  import opened Lines
  import opened Observer
  import opened Record
  import opened Sums

  // ---------------------------------------------------------------- totals

  datatype Totals = Totals(
    records: nat,
    inputTotal: Option<u64>,
    uncached: Option<u64>,
    cacheRead: Option<u64>,
    cacheWrite: Option<u64>,
    outputTotal: Option<u64>,
    reasoning: Option<u64>,
    total: Option<u64>)

  const NO_TOTALS: Totals := Totals(0, None, None, None, None, None, None, None)

  function SaturatingAdd(a: u64, b: u64): u64 {
    if a + b <= U64_MAX then a + b else U64_MAX
  }

  function AddCounter(sum: Option<u64>, value: Option<u64>): Option<u64> {
    if value.None? then sum
    else Some(SaturatingAdd(if sum.Some? then sum.value else 0, value.value))
  }

  function Accumulate(t: Totals, u: Usage): Totals {
    Totals(
      t.records + 1,
      AddCounter(t.inputTotal, u.inputTotal),
      AddCounter(t.uncached, u.uncached),
      AddCounter(t.cacheRead, u.cacheRead),
      AddCounter(t.cacheWrite, u.cacheWrite),
      AddCounter(t.outputTotal, u.outputTotal),
      AddCounter(t.reasoning, u.reasoning),
      AddCounter(t.total, u.total))
  }

  /** The seven counters, so that what holds of each can be said once. */
  datatype Counter = Input | Uncached | Read | Write | Output | Reasoning | Total

  function CounterOf(u: Usage, c: Counter): Option<u64> {
    match c
    case Input => u.inputTotal
    case Uncached => u.uncached
    case Read => u.cacheRead
    case Write => u.cacheWrite
    case Output => u.outputTotal
    case Reasoning => u.reasoning
    case Total => u.total
  }

  function TotalOf(t: Totals, c: Counter): Option<u64> {
    match c
    case Input => t.inputTotal
    case Uncached => t.uncached
    case Read => t.cacheRead
    case Write => t.cacheWrite
    case Output => t.outputTotal
    case Reasoning => t.reasoning
    case Total => t.total
  }

  // ---------------------------------------------------------------- groups

  type ModelKey = (bytes, Option<bytes>)

  function ModelKeyOf(r: AuditRecord): ModelKey {
    (r.machineId, r.model)
  }

  function EffortKeyOf(r: AuditRecord): Option<bytes> {
    r.effort
  }

  function Entry<K>(groups: map<K, Totals>, k: K): Totals {
    if k in groups then groups[k] else NO_TOTALS
  }

  /** One record more: only a record with usage enters its group. */
  function AddTo<K>(groups: map<K, Totals>, k: K, r: AuditRecord): map<K, Totals> {
    if r.usage.None? then groups else groups[k := Accumulate(Entry(groups, k), r.usage.value)]
  }

  function GroupBy<K>(key: AuditRecord -> K, rs: seq<AuditRecord>): map<K, Totals> {
    if rs == [] then map[] else AddTo(GroupBy(key, rs[..|rs| - 1]), key(rs[|rs| - 1]), rs[|rs| - 1])
  }

  // ---------------------------------------------------------------- exact sums

  function HasUsage(r: AuditRecord): nat {
    if r.usage.Some? then 1 else 0
  }

  /** Whether the record carries the counter. */
  function Carries(c: Counter): AuditRecord -> nat {
    (r: AuditRecord) => if r.usage.Some? && CounterOf(r.usage.value, c).Some? then 1 else 0
  }

  function Amount(c: Counter): AuditRecord -> nat {
    (r: AuditRecord) => if r.usage.Some? && CounterOf(r.usage.value, c).Some? then CounterOf(r.usage.value, c).value else 0
  }

  function Capped(carriers: nat, sum: nat): Option<u64> {
    if carriers == 0 then None else Some(Min(U64_MAX, sum))
  }

  /** What a group must show for the records under its key: their number, and for
      each counter nothing if no record carried it, else the capped exact sum. */
  ghost predicate ExactGroup<K(!new)>(t: Totals, key: AuditRecord -> K, k: K, rs: seq<AuditRecord>) {
    && t.records == Weigh(Under(key, k, HasUsage), rs)
    && (forall c :: TotalOf(t, c) == Capped(Weigh(Under(key, k, Carries(c)), rs), Weigh(Under(key, k, Amount(c)), rs)))
  }

  lemma AddIsCapped(n: nat, sum: nat, v: Option<u64>)
    requires n == 0 ==> sum == 0
    ensures AddCounter(Capped(n, sum), v) == Capped(n + (if v.Some? then 1 else 0), sum + (if v.Some? then v.value else 0))
  {
  }

  lemma {:induction false} NoneCarried<K(!new)>(key: AuditRecord -> K, k: K, c: Counter, rs: seq<AuditRecord>)
    ensures Weigh(Under(key, k, Carries(c)), rs) == 0 ==> Weigh(Under(key, k, Amount(c)), rs) == 0
    ensures Weigh(Under(key, k, Carries(c)), rs) <= Weigh(Under(key, k, HasUsage), rs)
  {
    if rs != [] {
      NoneCarried(key, k, c, rs[..|rs| - 1]);
    }
  }

  lemma AccumulateIsExact<K(!new)>(t: Totals, key: AuditRecord -> K, rs: seq<AuditRecord>, r: AuditRecord)
    requires ExactGroup(t, key, key(r), rs) && r.usage.Some?
    ensures ExactGroup(Accumulate(t, r.usage.value), key, key(r), rs + [r])
  {
    var k := key(r);
    WeighSnoc(Under(key, k, HasUsage), rs, r);
    forall c ensures TotalOf(Accumulate(t, r.usage.value), c)
                  == Capped(Weigh(Under(key, k, Carries(c)), rs + [r]), Weigh(Under(key, k, Amount(c)), rs + [r]))
    {
      WeighSnoc(Under(key, k, Carries(c)), rs, r);
      WeighSnoc(Under(key, k, Amount(c)), rs, r);
      NoneCarried(key, k, c, rs);
      var v := CounterOf(r.usage.value, c);
      AddIsCapped(Weigh(Under(key, k, Carries(c)), rs), Weigh(Under(key, k, Amount(c)), rs), v);
      assert TotalOf(Accumulate(t, r.usage.value), c) == AddCounter(TotalOf(t, c), v);
    }
  }

  /** A record outside the group leaves it exact. */
  lemma OtherKeepsExact<K(!new)>(t: Totals, key: AuditRecord -> K, k: K, rs: seq<AuditRecord>, r: AuditRecord)
    requires ExactGroup(t, key, k, rs) && (key(r) != k || r.usage.None?)
    ensures ExactGroup(t, key, k, rs + [r])
  {
    WeighSnoc(Under(key, k, HasUsage), rs, r);
    forall c ensures TotalOf(t, c)
                  == Capped(Weigh(Under(key, k, Carries(c)), rs + [r]), Weigh(Under(key, k, Amount(c)), rs + [r]))
    {
      WeighSnoc(Under(key, k, Carries(c)), rs, r);
      WeighSnoc(Under(key, k, Amount(c)), rs, r);
    }
  }

  /** Saturating accumulation is the capped exact sum, group by group. */
  lemma {:induction false} GroupsAreExact<K(!new)>(key: AuditRecord -> K, rs: seq<AuditRecord>, k: K)
    ensures k in GroupBy(key, rs) <==> Weigh(Under(key, k, HasUsage), rs) > 0
    ensures ExactGroup(Entry(GroupBy(key, rs), k), key, k, rs)
    decreases rs
  {
    if rs != [] {
      var n := |rs| - 1;
      var r, rest := rs[n], rs[..n];
      GroupsAreExact(key, rest, k);
      assert rs == rest + [r];
      WeighSnoc(Under(key, k, HasUsage), rest, r);
      if key(r) == k && r.usage.Some? {
        AccumulateIsExact(Entry(GroupBy(key, rest), k), key, rest, r);
      } else {
        OtherKeepsExact(Entry(GroupBy(key, rest), k), key, k, rest, r);
      }
    }
  }

  // ---------------------------------------------------------------- order of lines

  lemma ExactIsUnique<K(!new)>(a: Totals, b: Totals, key: AuditRecord -> K, k: K, rs: seq<AuditRecord>)
    requires ExactGroup(a, key, k, rs) && ExactGroup(b, key, k, rs)
    ensures a == b
  {
    assert forall c :: TotalOf(a, c) == TotalOf(b, c);
    assert TotalOf(a, Input) == TotalOf(b, Input) && TotalOf(a, Uncached) == TotalOf(b, Uncached);
    assert TotalOf(a, Read) == TotalOf(b, Read) && TotalOf(a, Write) == TotalOf(b, Write);
    assert TotalOf(a, Output) == TotalOf(b, Output) && TotalOf(a, Reasoning) == TotalOf(b, Reasoning);
    assert TotalOf(a, Total) == TotalOf(b, Total);
  }

  lemma PermutedExact<K(!new)>(t: Totals, key: AuditRecord -> K, k: K, a: seq<AuditRecord>, b: seq<AuditRecord>)
    requires ExactGroup(t, key, k, a) && multiset(a) == multiset(b)
    ensures ExactGroup(t, key, k, b)
  {
    WeighPermutation(Under(key, k, HasUsage), a, b);
    forall c ensures TotalOf(t, c) == Capped(Weigh(Under(key, k, Carries(c)), b), Weigh(Under(key, k, Amount(c)), b)) {
      WeighPermutation(Under(key, k, Carries(c)), a, b);
      WeighPermutation(Under(key, k, Amount(c)), a, b);
    }
  }

  /** The groups do not depend on the order of the lines. */
  lemma GroupsIgnoreOrder<K(!new)>(key: AuditRecord -> K, a: seq<AuditRecord>, b: seq<AuditRecord>)
    requires multiset(a) == multiset(b)
    ensures GroupBy(key, a) == GroupBy(key, b)
  {
    var m, n := GroupBy(key, a), GroupBy(key, b);
    forall k ensures k in m <==> k in n {
      GroupsAreExact(key, a, k);
      GroupsAreExact(key, b, k);
      WeighPermutation(Under(key, k, HasUsage), a, b);
    }
    forall k | k in m ensures m[k] == n[k] {
      GroupsAreExact(key, a, k);
      GroupsAreExact(key, b, k);
      PermutedExact(m[k], key, k, a, b);
      ExactIsUnique(m[k], n[k], key, k, b);
    }
  }

  // ---------------------------------------------------------------- both views

  /** The records counted over all groups of a view. */
  ghost function AllRecords<K(!new)>(m: map<K, Totals>): nat {
    SumKeys(m.Keys, k => Entry(m, k).records)
  }

  /** A counter over all groups of a view: absent if no group shows it, else the
      capped sum of what the groups show, themselves capped. */
  ghost function GrandTotal<K(!new)>(m: map<K, Totals>, c: Counter): Option<u64> {
    if forall k :: k in m ==> TotalOf(m[k], c).None? then None
    else Some(Min(U64_MAX, SumKeys(m.Keys, k => Shown(TotalOf(Entry(m, k), c)))))
  }

  function Shown(t: Option<u64>): nat {
    if t.Some? then t.value else 0
  }

  lemma AllRecordsIsMetered<K(!new)>(key: AuditRecord -> K, rs: seq<AuditRecord>)
    ensures AllRecords(GroupBy(key, rs)) == Weigh(HasUsage, rs)
  {
    var m := GroupBy(key, rs);
    KeysCover(key, rs, HasUsage);
    GroupedWeight(m.Keys, key, HasUsage, rs);
    var f, g := (k: K) => Entry(m, k).records, (k: K) => Weigh(Under(key, k, HasUsage), rs);
    forall k | k in m.Keys ensures f(k) == g(k) {
      GroupsAreExact(key, rs, k);
    }
    SumKeysSame(m.Keys, f, g);
  }

  lemma KeysCover<K(!new)>(key: AuditRecord -> K, rs: seq<AuditRecord>, w: AuditRecord -> nat)
    requires forall r: AuditRecord :: r.usage.None? ==> w(r) == 0
    ensures forall i :: 0 <= i < |rs| && w(rs[i]) > 0 ==> key(rs[i]) in GroupBy(key, rs).Keys
  {
    forall i | 0 <= i < |rs| && w(rs[i]) > 0 ensures key(rs[i]) in GroupBy(key, rs).Keys {
      GroupsAreExact(key, rs, key(rs[i]));
      assert Under(key, key(rs[i]), HasUsage)(rs[i]) == 1;
      WeighPositive(Under(key, key(rs[i]), HasUsage), rs);
    }
  }

  lemma ShownIsCapped<K(!new)>(key: AuditRecord -> K, rs: seq<AuditRecord>, c: Counter, k: K)
    ensures Shown(TotalOf(Entry(GroupBy(key, rs), k), c)) == Min(U64_MAX, Weigh(Under(key, k, Amount(c)), rs))
  {
    GroupsAreExact(key, rs, k);
    NoneCarried(key, k, c, rs);
    assert TotalOf(Entry(GroupBy(key, rs), k), c)
        == Capped(Weigh(Under(key, k, Carries(c)), rs), Weigh(Under(key, k, Amount(c)), rs));
  }

  /** A view's grand total is the capped exact sum over all records, whether or
      not single groups saturated. */
  lemma GrandTotalIsExact<K(!new)>(key: AuditRecord -> K, rs: seq<AuditRecord>, c: Counter)
    ensures GrandTotal(GroupBy(key, rs), c) == Capped(Weigh(Carries(c), rs), Weigh(Amount(c), rs))
  {
    var m := GroupBy(key, rs);
    var shown, sums := (k: K) => Shown(TotalOf(Entry(m, k), c)), (k: K) => Weigh(Under(key, k, Amount(c)), rs);
    var capped := (k: K) => Min(U64_MAX, sums(k));
    forall k | k in m.Keys ensures shown(k) == capped(k) {
      ShownIsCapped(key, rs, c, k);
    }
    SumKeysSame(m.Keys, shown, capped);
    CapAfterSum(m.Keys, sums, U64_MAX);
    KeysCover(key, rs, Amount(c));
    GroupedWeight(m.Keys, key, Amount(c), rs);
    SomeGroupShows(key, rs, c);
  }

  lemma SomeGroupShows<K(!new)>(key: AuditRecord -> K, rs: seq<AuditRecord>, c: Counter)
    ensures (exists k :: k in GroupBy(key, rs) && TotalOf(GroupBy(key, rs)[k], c).Some?) <==> Weigh(Carries(c), rs) > 0
  {
    var m := GroupBy(key, rs);
    WeighPositive(Carries(c), rs);
    KeysCover(key, rs, Carries(c));
    if i :| 0 <= i < |rs| && Carries(c)(rs[i]) > 0 {
      var k := key(rs[i]);
      GroupsAreExact(key, rs, k);
      assert Under(key, k, Carries(c))(rs[i]) == 1;
      WeighPositive(Under(key, k, Carries(c)), rs);
      assert TotalOf(m[k], c).Some?;
    }
    if k :| k in m && TotalOf(m[k], c).Some? {
      GroupsAreExact(key, rs, k);
      WeighPositive(Under(key, k, Carries(c)), rs);
      var i :| 0 <= i < |rs| && Under(key, k, Carries(c))(rs[i]) > 0;
      assert Carries(c)(rs[i]) > 0;
    }
  }

  /** The two printed tables agree: same number of metered records, same total of
      every counter, even where single groups saturated. */
  lemma ViewsAgree(rs: seq<AuditRecord>, c: Counter)
    ensures AllRecords(GroupBy(ModelKeyOf, rs)) == AllRecords(GroupBy(EffortKeyOf, rs)) == Weigh(HasUsage, rs) <= |rs|
    ensures GrandTotal(GroupBy(ModelKeyOf, rs), c) == GrandTotal(GroupBy(EffortKeyOf, rs), c)
  {
    AllRecordsIsMetered(ModelKeyOf, rs);
    AllRecordsIsMetered(EffortKeyOf, rs);
    MeteredAtMostAll(rs);
    GrandTotalIsExact(ModelKeyOf, rs, c);
    GrandTotalIsExact(EffortKeyOf, rs, c);
  }

  lemma {:induction false} MeteredAtMostAll(rs: seq<AuditRecord>)
    ensures Weigh(HasUsage, rs) <= |rs|
  {
    if rs != [] {
      MeteredAtMostAll(rs[..|rs| - 1]);
    }
  }

  // ---------------------------------------------------------------- accounting

  predicate BalancedRecord(r: AuditRecord) {
    r.usage.Some? ==> Balanced(r.usage.value, r.quality)
  }

  predicate CompleteGroup<K(==)>(key: AuditRecord -> K, rs: seq<AuditRecord>, k: K) {
    forall i :: 0 <= i < |rs| && key(rs[i]) == k && rs[i].usage.Some? ==> BalancedRecord(rs[i]) && rs[i].quality == Quality.Complete
  }

  lemma CompleteAmounts<K(!new)>(key: AuditRecord -> K, rs: seq<AuditRecord>, k: K)
    requires CompleteGroup(key, rs, k)
    ensures Weigh(Under(key, k, Amount(Input)), rs)
         == Weigh(Under(key, k, Amount(Uncached)), rs) + Weigh(Under(key, k, Amount(Read)), rs) + Weigh(Under(key, k, Amount(Write)), rs)
  {
    WeighSplit(Under(key, k, Amount(Input)), Under(key, k, Amount(Uncached)), Under(key, k, Amount(Read)), Under(key, k, Amount(Write)), rs);
  }

  lemma CompleteCarries<K(!new)>(key: AuditRecord -> K, rs: seq<AuditRecord>, k: K, c: Counter)
    requires CompleteGroup(key, rs, k) && (c == Input || c == Uncached || c == Read || c == Write)
    ensures Weigh(Under(key, k, HasUsage), rs) == Weigh(Under(key, k, Carries(c)), rs)
  {
    WeighSame(Under(key, k, HasUsage), Under(key, k, Carries(c)), rs);
  }

  /** In a group of complete records the printed input is the saturating sum of
      the printed uncached, read and write totals. */
  lemma CompleteGroupBalances<K(!new)>(key: AuditRecord -> K, rs: seq<AuditRecord>, k: K)
    requires k in GroupBy(key, rs)
    requires CompleteGroup(key, rs, k)
    ensures var t := GroupBy(key, rs)[k];
      && t.inputTotal.Some? && t.uncached.Some? && t.cacheRead.Some? && t.cacheWrite.Some?
      && t.inputTotal.value == Min(U64_MAX, t.uncached.value + t.cacheRead.value + t.cacheWrite.value)
  {
    GroupsAreExact(key, rs, k);
    CompleteAmounts(key, rs, k);
    CompleteCarries(key, rs, k, Input);
    CompleteCarries(key, rs, k, Uncached);
    CompleteCarries(key, rs, k, Read);
    CompleteCarries(key, rs, k, Write);
    var t := GroupBy(key, rs)[k];
    assert t.inputTotal == TotalOf(t, Input) && t.uncached == TotalOf(t, Uncached);
    assert t.cacheRead == TotalOf(t, Read) && t.cacheWrite == TotalOf(t, Write);
  }

  /** Whatever the quality of its records, a group never shows more uncached
      tokens than input tokens. */
  lemma UncachedWithinInput<K(!new)>(key: AuditRecord -> K, rs: seq<AuditRecord>, k: K)
    requires forall i :: 0 <= i < |rs| ==> BalancedRecord(rs[i])
    ensures var t := Entry(GroupBy(key, rs), k);
      t.uncached.Some? ==> t.inputTotal.Some? && t.uncached.value <= t.inputTotal.value
  {
    GroupsAreExact(key, rs, k);
    WeighAtMost(Under(key, k, Amount(Uncached)), Under(key, k, Amount(Input)), rs);
    WeighAtMost(Under(key, k, Carries(Uncached)), Under(key, k, Carries(Input)), rs);
    var t := Entry(GroupBy(key, rs), k);
    assert t.inputTotal == TotalOf(t, Input) && t.uncached == TotalOf(t, Uncached);
  }

  // ---------------------------------------------------------------- reading the file

  function StripCr(line: bytes): bytes {
    if line != [] && line[|line| - 1] == CR then line[..|line| - 1] else line
  }

  predicate IsCanonical(r: AuditRecord) {
    r.schemaVersion == SCHEMA_VERSION && r.kind == KIND
  }

  function Judgement(r: Option<AuditRecord>): Reading<AuditRecord> {
    if r.None? then Unreadable else if IsCanonical(r.value) then Counted(r.value) else Ignored
  }

  /** A line as the summary reads it. */
  function ReadLine(content: bytes): Reading<AuditRecord> {
    Judgement(Decode(StripCr(content)))
  }

  /** What the summary makes of one line: a canonical record counts, another record
      is passed over, anything else is no record. */
  lemma ReadsCanonical(content: bytes)
    ensures var r := Decode(StripCr(content));
      && (r.None? <==> ReadLine(content) == Unreadable)
      && (r.Some? && r.value.schemaVersion == 1 && r.value.kind == "request" <==> ReadLine(content).Counted?)
      && (ReadLine(content).Counted? ==> r == Some(ReadLine(content).rec))
  {
  }

  /** A carriage return before the newline is not part of the record. */
  lemma CarriageReturnIsStripped(content: bytes)
    requires content == [] || content[|content| - 1] != CR
    ensures ReadLine(content + [CR]) == ReadLine(content)
  {
    assert (content + [CR])[..|content|] == content && StripCr(content) == content;
  }

  /** An unreadable tail is reported exactly when it holds something besides spaces,
      tabs, line feeds, form feeds and carriage returns. */
  lemma TailIsReported(content: bytes)
    requires ReadLine(content) == Unreadable
    ensures Scan(ReadLine, [RawLine(content, false)]).partialTail <==>
      exists i :: 0 <= i < |content|
        && content[i] != ' ' && content[i] != '\t' && content[i] as int != 10 && content[i] as int != 12 && content[i] as int != 13
  {
    var lines := [RawLine(content, false)];
    assert lines[1..] == [] && Scan(ReadLine, lines) == Add(ReadLine, lines[0], Scan(ReadLine, lines[1..]));
    if i :| 0 <= i < |content| && content[i] !in BLANKS {
      assert content[i] != ' ' && content[i] != '\t' && content[i] as int != 10 && content[i] as int != 12 && content[i] as int != 13;
    }
  }

  datatype Report = Report(
    groups: map<ModelKey, Totals>,
    efforts: map<Option<bytes>, Totals>,
    accepted: nat,
    metered: nat,
    unparseable: nat,
    partialTail: bool)

  /** The report on a tally of lines. */
  function ReportOf(t: Tally<AuditRecord>): Report {
    Report(GroupBy(ModelKeyOf, t.counted), GroupBy(EffortKeyOf, t.counted), |t.counted|, Weigh(HasUsage, t.counted),
           t.unparseable, t.partialTail)
  }

  // ---------------------------------------------------------------- the tables by name

  /** The records that satisfy `p`, in order. */
  function Those(p: AuditRecord -> bool, rs: seq<AuditRecord>): seq<AuditRecord> {
    if rs == [] then []
    else
      var rest := Those(p, rs[..|rs| - 1]);
      if p(rs[|rs| - 1]) then rest + [rs[|rs| - 1]] else rest
  }

  lemma {:induction false} ThoseAre(p: AuditRecord -> bool, rs: seq<AuditRecord>, r: AuditRecord)
    ensures r in Those(p, rs) <==> r in rs && p(r)
  {
    if rs != [] {
      ThoseAre(p, rs[..|rs| - 1], r);
      assert rs == rs[..|rs| - 1] + [rs[|rs| - 1]];
    }
  }

  lemma {:induction false} WeighThose(p: AuditRecord -> bool, v: AuditRecord -> nat, w: AuditRecord -> nat, rs: seq<AuditRecord>)
    requires forall r :: v(r) == if p(r) then w(r) else 0
    ensures Weigh(v, rs) == Weigh(w, Those(p, rs))
  {
    if rs != [] {
      WeighThose(p, v, w, rs[..|rs| - 1]);
      WeighSnoc(w, Those(p, rs[..|rs| - 1]), rs[|rs| - 1]);
    }
  }

  lemma {:induction false} WeighOnes(w: AuditRecord -> nat, rs: seq<AuditRecord>)
    requires forall r :: r in rs ==> w(r) == 1
    ensures Weigh(w, rs) == |rs|
  {
    if rs != [] {
      WeighOnes(w, rs[..|rs| - 1]);
    }
  }

  function SumOf(c: Counter, rs: seq<AuditRecord>): nat {
    Weigh(Amount(c), rs)
  }

  predicate Carried(c: Counter, rs: seq<AuditRecord>) {
    exists i :: 0 <= i < |rs| && rs[i].usage.Some? && CounterOf(rs[i].usage.value, c).Some?
  }

  /** A table row over the records `rs`: their number, and for each counter nothing if
      none of them carries it, else the sum capped at 2^64 - 1. */
  ghost predicate RowOver(t: Totals, rs: seq<AuditRecord>) {
    && t.records == |rs|
    && (forall c :: TotalOf(t, c) == if Carried(c, rs) then Some(Min(0xFFFF_FFFF_FFFF_FFFF, SumOf(c, rs))) else None)
  }

  /** The records of one effort row. */
  function OfEffort(effort: Option<bytes>, rs: seq<AuditRecord>): seq<AuditRecord> {
    Those((r: AuditRecord) => r.usage.Some? && r.effort == effort, rs)
  }

  /** The records of one machine-and-model row. */
  function OfModel(machine: bytes, model: Option<bytes>, rs: seq<AuditRecord>): seq<AuditRecord> {
    Those((r: AuditRecord) => r.usage.Some? && r.machineId == machine && r.model == model, rs)
  }

  /** The report on the counted records: a row for every effort, and for every
      machine and model, that some record with usage has, over exactly the records
      with usage that have it; and the coverage. */
  ghost predicate ReportOver(report: Report, rs: seq<AuditRecord>) {
    && (forall effort :: effort in report.efforts <==> OfEffort(effort, rs) != [])
    && (forall effort :: effort in report.efforts ==> RowOver(report.efforts[effort], OfEffort(effort, rs)))
    && (forall machine, model :: (machine, model) in report.groups <==> OfModel(machine, model, rs) != [])
    && (forall machine, model :: (machine, model) in report.groups ==>
          RowOver(report.groups[(machine, model)], OfModel(machine, model, rs)))
    && report.accepted == |rs|
    && report.metered == |Those((r: AuditRecord) => r.usage.Some?, rs)|
  }

  /** A group over the records a predicate picks is a row over those records. */
  lemma GroupIsRow<K(!new)>(t: Totals, key: AuditRecord -> K, k: K, p: AuditRecord -> bool, rs: seq<AuditRecord>)
    requires ExactGroup(t, key, k, rs) && forall r :: p(r) <==> r.usage.Some? && key(r) == k
    ensures RowOver(t, Those(p, rs))
    ensures Weigh(Under(key, k, HasUsage), rs) == |Those(p, rs)|
  {
    var those := Those(p, rs);
    forall r | r in those ensures HasUsage(r) == 1 {
      ThoseAre(p, rs, r);
    }
    WeighThose(p, Under(key, k, HasUsage), HasUsage, rs);
    WeighOnes(HasUsage, those);
    forall c ensures TotalOf(t, c) == if Carried(c, those) then Some(Min(U64_MAX, SumOf(c, those))) else None {
      WeighThose(p, Under(key, k, Carries(c)), Carries(c), rs);
      WeighThose(p, Under(key, k, Amount(c)), Amount(c), rs);
      CarriedWeighs(c, those);
    }
  }

  lemma CarriedWeighs(c: Counter, rs: seq<AuditRecord>)
    ensures Carried(c, rs) <==> Weigh(Carries(c), rs) > 0
  {
    WeighPositive(Carries(c), rs);
    if i :| 0 <= i < |rs| && rs[i].usage.Some? && CounterOf(rs[i].usage.value, c).Some? {
      assert Carries(c)(rs[i]) > 0;
    }
    if i :| 0 <= i < |rs| && Carries(c)(rs[i]) > 0 {
      assert rs[i].usage.Some? && CounterOf(rs[i].usage.value, c).Some?;
    }
  }

  lemma EffortRow(rs: seq<AuditRecord>, effort: Option<bytes>)
    ensures effort in GroupBy(EffortKeyOf, rs) <==> OfEffort(effort, rs) != []
    ensures effort in GroupBy(EffortKeyOf, rs) ==> RowOver(GroupBy(EffortKeyOf, rs)[effort], OfEffort(effort, rs))
  {
    GroupsAreExact(EffortKeyOf, rs, effort);
    GroupIsRow(Entry(GroupBy(EffortKeyOf, rs), effort), EffortKeyOf, effort, (r: AuditRecord) => r.usage.Some? && r.effort == effort, rs);
  }

  lemma ModelRow(rs: seq<AuditRecord>, machine: bytes, model: Option<bytes>)
    ensures (machine, model) in GroupBy(ModelKeyOf, rs) <==> OfModel(machine, model, rs) != []
    ensures (machine, model) in GroupBy(ModelKeyOf, rs) ==> RowOver(GroupBy(ModelKeyOf, rs)[(machine, model)], OfModel(machine, model, rs))
  {
    GroupsAreExact(ModelKeyOf, rs, (machine, model));
    GroupIsRow(Entry(GroupBy(ModelKeyOf, rs), (machine, model)), ModelKeyOf, (machine, model),
               (r: AuditRecord) => r.usage.Some? && r.machineId == machine && r.model == model, rs);
  }

  lemma MeteredThose(rs: seq<AuditRecord>)
    ensures Weigh(HasUsage, rs) == |Those((r: AuditRecord) => r.usage.Some?, rs)|
  {
    var p := (r: AuditRecord) => r.usage.Some?;
    forall r | r in Those(p, rs) ensures HasUsage(r) == 1 {
      ThoseAre(p, rs, r);
    }
    WeighThose(p, HasUsage, HasUsage, rs);
    WeighOnes(HasUsage, Those(p, rs));
  }

  /** The report on any tally is the one over its counted records. */
  lemma ReportIsOver(t: Tally<AuditRecord>)
    ensures ReportOver(ReportOf(t), t.counted)
  {
    forall effort
      ensures effort in ReportOf(t).efforts <==> OfEffort(effort, t.counted) != []
      ensures effort in ReportOf(t).efforts ==> RowOver(ReportOf(t).efforts[effort], OfEffort(effort, t.counted))
    {
      EffortRow(t.counted, effort);
    }
    forall machine, model
      ensures (machine, model) in ReportOf(t).groups <==> OfModel(machine, model, t.counted) != []
      ensures (machine, model) in ReportOf(t).groups ==>
        RowOver(ReportOf(t).groups[(machine, model)], OfModel(machine, model, t.counted))
    {
      ModelRow(t.counted, machine, model);
    }
    MeteredThose(t.counted);
  }

  lemma SameReport(t: Tally<AuditRecord>, u: Tally<AuditRecord>)
    requires SameTally(t, u)
    ensures ReportOf(t) == ReportOf(u)
  {
    GroupsIgnoreOrder(ModelKeyOf, t.counted, u.counted);
    GroupsIgnoreOrder(EffortKeyOf, t.counted, u.counted);
    WeighPermutation(HasUsage, t.counted, u.counted);
    assert |t.counted| == |multiset(t.counted)| == |multiset(u.counted)| == |u.counted|;
  }

  /** Lines in any order give the same report: both tables, the coverage and the
      warnings. */
  lemma ReportIgnoresOrder(read: bytes -> Reading<AuditRecord>, a: seq<RawLine>, b: seq<RawLine>)
    requires multiset(a) == multiset(b)
    ensures ReportOf(Scan(read, a)) == ReportOf(Scan(read, b))
  {
    ScanIgnoresOrder(read, a, b);
    SameReport(Scan(read, a), Scan(read, b));
  }

  /** The same of files: permuting the lines of a file, whatever they hold, changes
      nothing in the report on it. */
  lemma PermutedFile(read: bytes -> Reading<AuditRecord>, a: seq<RawLine>, b: seq<RawLine>)
    requires multiset(a) == multiset(b) && forall line :: line in a ==> IsLine(line)
    ensures ReportOf(Scan(read, Split([], Unsplit(a)))) == ReportOf(Scan(read, Split([], Unsplit(b))))
  {
    forall i | 0 <= i < |b| ensures IsLine(b[i]) {
      assert b[i] in multiset(a);
    }
    SplitUnsplit(a);
    SplitUnsplit(b);
    ReportIgnoresOrder(read, a, b);
  }

  /** Reads one line: everything up to and including the next newline. */
  method ReadUntil(file: bytes, start: nat, ghost rest: seq<RawLine>) returns (line: RawLine, end: nat)
    requires start < |file| && rest == Split([], file[start..])
    ensures start < end <= |file| && (!line.terminated ==> end == |file|)
    ensures rest != [] && rest[0] == line
    ensures rest[1..] == if line.terminated then Split([], file[end..]) else []
  {
    var i := start;
    while i < |file| && file[i] != LF
      invariant start <= i <= |file|
      invariant forall j :: start <= j < i ==> file[j] != LF
    {
      i := i + 1;
    }
    line := RawLine(file[start..i], i < |file|);
    end := if line.terminated then i + 1 else i;
    assert file[start..] == line.content + file[i..];
    SplitText([], line.content, file[i..]);
    assert [] + line.content == line.content;
    assert line.terminated ==> file[i..][1..] == file[end..];
  }

  /** A line noted behind the lines already tallied. */
  function Note(t: Tally<AuditRecord>, line: RawLine, reading: Reading<AuditRecord>): Tally<AuditRecord> {
    match reading
    case Counted(r) => t.(counted := t.counted + [r])
    case Ignored => t
    case Unreadable =>
      if line.terminated then t.(unparseable := t.unparseable + 1)
      else t.(partialTail := t.partialTail || !AllBlank(line.content))
  }

  function Join(a: Tally<AuditRecord>, b: Tally<AuditRecord>): Tally<AuditRecord> {
    Tally(a.counted + b.counted, a.unparseable + b.unparseable, a.partialTail || b.partialTail)
  }

  lemma JoinAdd(a: Tally<AuditRecord>, read: bytes -> Reading<AuditRecord>, line: RawLine, b: Tally<AuditRecord>)
    ensures Join(a, Add(read, line, b)) == Join(Note(a, line, read(line.content)), b)
  {
    if read(line.content).Counted? {
      var r := read(line.content).rec;
      assert a.counted + ([r] + b.counted) == a.counted + [r] + b.counted;
    }
  }

  /** A counted record: coverage, then both maps if it carries usage. */
  method TakeRecord(report: Report, r: AuditRecord, ghost t: Tally<AuditRecord>) returns (after: Report)
    requires report == ReportOf(t)
    ensures after == ReportOf(t.(counted := t.counted + [r]))
    ensures ReportOver(after, t.counted + [r])
  {
    ReportIsOver(t.(counted := t.counted + [r]));
    assert (t.counted + [r])[..|t.counted|] == t.counted;
    var groups, efforts, metered := report.groups, report.efforts, report.metered;
    if r.usage.Some? {
      metered := metered + 1;
      groups := groups[ModelKeyOf(r) := Accumulate(Entry(groups, ModelKeyOf(r)), r.usage.value)];
      efforts := efforts[EffortKeyOf(r) := Accumulate(Entry(efforts, EffortKeyOf(r)), r.usage.value)];
    }
    after := report.(groups := groups, efforts := efforts, accepted := report.accepted + 1, metered := metered);
  }

  method TakeLine(report: Report, line: RawLine, reading: Reading<AuditRecord>, ghost t: Tally<AuditRecord>) returns (after: Report)
    requires report == ReportOf(t)
    ensures after == ReportOf(Note(t, line, reading))
  {
    after := report;
    match reading {
      case Counted(r) => after := TakeRecord(report, r, t);
      case Ignored =>
      case Unreadable =>
        if line.terminated {
          after := report.(unparseable := report.unparseable + 1);
        } else if !AllBlank(line.content) {
          after := report.(partialTail := true);
        }
    }
  }

  /** The line loop: coverage, warnings and both group maps are updated line by
      line; the report is that of the tally of all lines. */
  method ReadWith(read: bytes -> Reading<AuditRecord>, file: bytes) returns (report: Report)
    ensures report == ReportOf(Scan(read, Split([], file)))
  {
    ghost var t := Tally([], 0, false);
    report := Report(map[], map[], 0, 0, 0, false);
    var pos, open := 0, true;
    ghost var rest := Split([], file);
    ghost var whole := Scan(read, rest);
    assert file[0..] == file;
    while open && pos < |file|
      invariant 0 <= pos <= |file|
      invariant rest == if open then Split([], file[pos..]) else []
      invariant report == ReportOf(t)
      invariant Join(t, Scan(read, rest)) == whole
      decreases |file| - pos, open
    {
      var line, end := ReadUntil(file, pos, rest);
      JoinAdd(t, read, line, Scan(read, rest[1..]));
      report := TakeLine(report, line, read(line.content), t);
      t, rest := Note(t, line, read(line.content)), rest[1..];
      pos, open := end, line.terminated;
    }
    assert open ==> file[pos..] == [];
    assert t.counted + [] == t.counted;
  }

  method ReadUsageFile(file: bytes) returns (report: Report)
    ensures report == ReportOf(Scan(ReadLine, Split([], file)))
    ensures ReportOver(report, Scan(ReadLine, Split([], file)).counted)
  {
    report := ReadWith(ReadLine, file);
    ReportIsOver(Scan(ReadLine, Split([], file)));
  }
}
