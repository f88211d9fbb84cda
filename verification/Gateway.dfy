/** The whole chain: what lifecycles offer, what the store keeps of it under every
    fault, and what the two readers of the file report. */
module Gateway {
  import opened Bytes
  import Utf8
  import opened Json
  import opened JsonStrings
  import Wire
  import opened Observer
  import Effort
  import opened Record
  import opened Lines
  import Store
  import opened Sums
  import opened Summary
  import Smoke
  import opened Lifecycle

  // ---------------------------------------------------------------- lifecycles

  /** The observers as the gateway wires them. */
  function GatewayEnv(unzip: Effort.Unzip): Env {
    Env(ParseMirror, (raw: bytes, encoding: Option<bytes>) => Effort.Declared(unzip, raw, encoding))
  }

  lemma GatewayParsesSoundly(unzip: Effort.Unzip)
    ensures SoundParse(GatewayEnv(unzip))
  {
    forall mirror, header ensures SoundResult(GatewayEnv(unzip).parse(mirror, header).audit) {
      ParsedIsSound(mirror, header);
    }
  }

  /** Identifiers, timestamps and header values are text. */
  predicate TextOnly(q: Request, r: AuditRecord) {
    Utf8.Valid(q.machine) && IsText(q.upstream.headerModel) && Utf8.Valid(r.eventId) && Utf8.Valid(r.timestamp)
  }

  /** `r` was offered by some lifecycle, under some interleaving. */
  ghost predicate Offered(unzip: Effort.Unzip, r: AuditRecord) {
    exists q, l :: Reachable(GatewayEnv(unzip), q, l) && l.offers == [r] && TextOnly(q, r)
  }

  lemma RecordText(q: Request, o: Outcome, parsed: ParsedBody, effort: Option<bytes>, r: AuditRecord)
    requires Metered(q) && TextOnly(q, r) && IsText(parsed.audit.model) && IsText(effort)
    requires r == ResponseRecord(q, o, Some(parsed), effort, r.eventId, r.timestamp)
             || r == TransportRecord(q, effort, r.eventId, r.timestamp)
    ensures IsTextRecord(r)
  {
    Utf8.AsciiValid(KIND);
  }

  /** Some lifecycle offered `r`, and `r` says what that request came to. */
  ghost predicate ToldBy(unzip: Effort.Unzip, r: AuditRecord) {
    exists q, l :: Reachable(GatewayEnv(unzip), q, l) && l.offers == [r] && TextOnly(q, r) && Tells(q, l, r)
  }

  /** Every offered record is well formed, canonical and text, and says what its
      request came to. */
  lemma OfferedIsGood(unzip: Effort.Unzip, r: AuditRecord)
    requires Offered(unzip, r)
    ensures GatewayRecord(r) && IsTextRecord(r) && ToldBy(unzip, r)
  {
    var env := GatewayEnv(unzip);
    var q, l :| Reachable(env, q, l) && l.offers == [r] && TextOnly(q, r);
    GatewayParsesSoundly(unzip);
    OfferedIsWellFormed(env, q, l);
    ReachableInv(env, q, l);
    Effort.DeclaredIsText(unzip, l.judged, q.encoding);
    ModelIsText(l.pipe.mirror, q.upstream.headerModel);
    RecordText(q, l.outcome, ParseMirror(l.pipe.mirror, q.upstream.headerModel), l.watch.effort, r);
    RecordTells(unzip, q, l);
  }

  /** The report a record makes of a body. */
  function ReportIn(r: AuditRecord, terminal: bool, incomplete: bool): ParsedBody {
    ParsedBody(AuditResult(r.model, r.usage, r.quality, r.error), terminal, incomplete)
  }

  /** What a record says: whose it is and, of an answered request, the upstream's own
      status and, if that is 2xx, the model, usage, quality and metering error that
      the mirrored body and the header say and nothing else. */
  ghost predicate Tells(q: Request, l: Life, r: AuditRecord) {
    var body := l.pipe.mirror;
    && r.machineId == q.machine && Some(r.operation) == q.operation
    && r.upstreamStatus == (if l.handler == Answered then Some(q.upstream.status) else None)
    && if l.handler == Answered && 200 <= q.upstream.status < 300
       then Wire.Says(body, q.upstream.headerModel, ReportIn(r, Wire.IsTerminalBody(body), Wire.IsIncompleteBody(body)))
       else r.model == None && r.usage == None && r.quality == Unavailable && r.error == None
  }

  lemma RecordTells(unzip: Effort.Unzip, q: Request, l: Life)
    requires Reachable(GatewayEnv(unzip), q, l) && l.offers != []
    ensures Tells(q, l, l.offers[0])
  {
    var body, header := l.pipe.mirror, q.upstream.headerModel;
    ReachableInv(GatewayEnv(unzip), q, l);
    Wire.ReportsByName(body, header);
    Wire.BodyState(body, header);
    assert ParseMirror(body, header)
        == ParsedBody(ParseMirror(body, header).audit, Wire.IsTerminalBody(body), Wire.IsIncompleteBody(body));
  }

  /** Each outcome told from the upstream's status and bytes: what the pump saw of
      the stream's end, and what the whole body says. */
  lemma OutcomeIsGrounded(unzip: Effort.Unzip, q: Request, l: Life)
    requires Reachable(GatewayEnv(unzip), q, l) && l.offers != []
    ensures var o, body := l.offers[0].outcome, Concat(q.upstream.chunks);
      var ok := l.handler == Answered && 200 <= q.upstream.status < 300;
      && (o == TransportError <==> l.handler == Unreachable)
      && (o == UpstreamError <==> l.handler == Answered && !ok)
      && (o == ClientCancelled <==> ok && l.seen == StillOpen)
      && (o == Completed <==> ok && l.seen == Seen.Clean && Wire.IsTerminalBody(body) && !Wire.IsIncompleteBody(body))
      && (o == Incomplete <==> ok && l.seen == Seen.Clean && Wire.IsIncompleteBody(body))
      && (o == UpstreamInterrupted <==> ok && (l.seen == Broken || (l.seen == Seen.Clean && !Wire.IsTerminalBody(body))))
  {
    OutcomeIsSound(GatewayEnv(unzip), q, l);
    Wire.BodyState(l.pipe.mirror, q.upstream.headerModel);
  }

  // ---------------------------------------------------------------- the readers

  predicate Good(r: AuditRecord) {
    IsTextRecord(r) && IsCanonical(r)
  }

  lemma SummaryCounts(r: AuditRecord)
    requires Good(r)
    ensures ReadLine(Text(r)) == Counted(r)
  {
    TextShape(r);
    assert StripCr(Text(r)) == Text(r);
    RecordRoundTrip(r);
  }

  lemma SummaryRejectsTorn(content: bytes)
    requires IsTorn(content)
    ensures ReadLine(content) == Unreadable
  {
    TornNeverParses(content);
    assert StripCr(content) == content;
  }

  /** Pieces of lines the gateway wrote. */
  predicate Written(ps: seq<Piece<AuditRecord>>) {
    forall i :: 0 <= i < |ps| ==> Good(ps[i].rec) && ps[i].text == Text(ps[i].rec) && ps[i].n <= |ps[i].text| + 1
  }

  lemma SummaryReads(ps: seq<Piece<AuditRecord>>)
    requires Written(ps)
    ensures ReadsRecords(ReadLine, ps, Unreadable)
  {
    forall i | 0 <= i < |ps| ensures Shaped(ps[i]) && ReadLine(ps[i].text) == Counted(ps[i].rec) {
      TextShape(ps[i].rec);
      SummaryCounts(ps[i].rec);
    }
    forall content | IsTorn(content) ensures ReadLine(content) == Unreadable {
      SummaryRejectsTorn(content);
    }
  }

  /** The same pieces as the untyped reader sees them. */
  function Untyped(ps: seq<Piece<AuditRecord>>): (qs: seq<Piece<bool>>)
    ensures |qs| == |ps|
  {
    if ps == [] then [] else [Piece(ps[0].id, ps[0].text, ps[0].rec.usage.Some?, ps[0].n)] + Untyped(ps[1..])
  }

  lemma SmokeReads(ps: seq<Piece<AuditRecord>>)
    requires Written(ps)
    ensures ReadsRecords(Smoke.CountLine, Untyped(ps), Ignored)
  {
    forall i | 0 <= i < |ps| ensures Shaped(Untyped(ps)[i]) && Smoke.CountLine(Untyped(ps)[i].text) == Counted(Untyped(ps)[i].rec) {
      UntypedAt(ps, i);
      TextShape(ps[i].rec);
      Smoke.TextIsCounted(ps[i].rec);
    }
    forall content | IsTorn(content) ensures Smoke.CountLine(content) == Ignored {
      Smoke.TornIsIgnored(content);
    }
  }

  lemma {:induction false} UntypedAt(ps: seq<Piece<AuditRecord>>, i: nat)
    requires i < |ps|
    ensures Untyped(ps)[i] == Piece(ps[i].id, ps[i].text, ps[i].rec.usage.Some?, ps[i].n)
  {
    if i > 0 {
      UntypedAt(ps[1..], i - 1);
    }
  }

  lemma {:induction false} UntypedFile(ps: seq<Piece<AuditRecord>>)
    ensures FileOf(Untyped(ps)) == FileOf(ps)
  {
    if ps != [] {
      UntypedFile(ps[1..]);
      assert Untyped(ps)[1..] == Untyped(ps[1..]);
    }
  }

  function Flags(rs: seq<AuditRecord>): seq<bool> {
    if rs == [] then [] else [rs[0].usage.Some?] + Flags(rs[1..])
  }

  function UntypedCarry(c: Carry<AuditRecord>): Carry<bool> {
    match c case Clean => Carry.Clean case Complete(r) => Carry.Complete(r.usage.Some?) case Torn => Torn
  }

  lemma {:induction false} UntypedExpected(c: Carry<AuditRecord>, ps: seq<Piece<AuditRecord>>)
    ensures Expected(UntypedCarry(c), Untyped(ps)).counted == Flags(Expected(c, ps).counted)
    decreases ps
  {
    if ps != [] {
      var p := ps[0];
      assert Untyped(ps)[1..] == Untyped(ps[1..]);
      assert Next(UntypedCarry(c), Untyped(ps)[0]) == UntypedCarry(Next(c, p));
      UntypedExpected(Next(c, p), ps[1..]);
      var rest := Expected(Next(c, p), ps[1..]).counted;
      assert ([p.rec] + rest)[1..] == rest;
    } else if c.Complete? {
      assert [c.rec][1..] == [];
    }
  }

  lemma {:induction false} FlagsSnoc(rs: seq<AuditRecord>, r: AuditRecord)
    ensures Flags(rs + [r]) == Flags(rs) + [r.usage.Some?]
  {
    if rs == [] {
      assert rs + [r] == [r] && [r][1..] == [];
    } else {
      assert (rs + [r])[1..] == rs[1..] + [r];
      FlagsSnoc(rs[1..], r);
    }
  }

  lemma {:induction false} FlagsCount(rs: seq<AuditRecord>)
    ensures |Flags(rs)| == |rs| && Smoke.Trues(Flags(rs)) == Weigh(HasUsage, rs)
  {
    if rs != [] {
      var n := |rs| - 1;
      FlagsCount(rs[..n]);
      FlagsSnoc(rs[..n], rs[n]);
      assert rs == rs[..n] + [rs[n]];
      assert Flags(rs)[..|Flags(rs)| - 1] == Flags(rs[..n]);
    }
  }

  /** On any file the gateway can have left, the two readers agree on accepted and
      metered, unless a cut inside a character makes the second one refuse. */
  lemma ReadersAgree(ps: seq<Piece<AuditRecord>>)
    requires Written(ps)
    ensures var report := ReportOf(Scan(ReadLine, Split([], FileOf(ps))));
      Smoke.CountOf(Smoke.CountLine, FileOf(ps))
      == if Utf8.Valid(FileOf(ps)) then Some((report.accepted, report.metered)) else None
  {
    SummaryReads(ps);
    ReaderIsExact(ReadLine, Carry.Clean, [], ps, Unreadable);
    SmokeReads(ps);
    UntypedFile(ps);
    ReaderIsExact(Smoke.CountLine, Carry.Clean, [], Untyped(ps), Ignored);
    UntypedExpected(Carry.Clean, ps);
    FlagsCount(Expected(Carry.Clean, ps).counted);
  }

  /** A lone line of which `n` bytes landed. */
  function LoneLine(r: AuditRecord, n: nat): seq<Piece<AuditRecord>> {
    [Piece(0, Text(r), r, n)]
  }

  /** The refusal happens: a line naming a model outside ASCII can be cut inside a
      character, and then the second reader refuses the file that the first reads. */
  lemma CutInsideModel(r: AuditRecord, b: byte)
    requires Good(r) && r.model.Some? && b in r.model.value && b as int >= 0x80
    ensures exists n: nat :: n <= |Text(r)| && Written(LoneLine(r, n))
                        && Smoke.CountOf(Smoke.CountLine, FileOf(LoneLine(r, n))) == None
  {
    TextKeepsModel(r, b);
    var t := Text(r);
    var i :| 0 <= i < |t| && t[i] == b;
    Utf8.CutInside(t, i);
    var n := if Utf8.Valid(t[..i]) then i + 1 else i;
    LoneFile(r, n);
    assert Written(LoneLine(r, n));
  }

  lemma LoneFile(r: AuditRecord, n: nat)
    requires n <= |Text(r)|
    ensures FileOf(LoneLine(r, n)) == Text(r)[..n]
  {
    var ps := LoneLine(r, n);
    assert ps[1..] == [] && FileOf(ps) == Landed(ps[0]) + FileOf(ps[1..]);
  }

  /** A record a lifecycle may offer, of a model with an accented letter. */
  const ACCENTED: AuditRecord := AuditRecord(
    SCHEMA_VERSION, KIND, "id", "now", "machine", Response, Some(200), Completed, Some([0xC3 as char, 0xA9 as char]),
    Unavailable, Some(MissingUsage), None, None)

  lemma AccentedCut()
    ensures GatewayRecord(ACCENTED)
    ensures exists n: nat :: n <= |Text(ACCENTED)| && Written(LoneLine(ACCENTED, n))
                        && Smoke.CountOf(Smoke.CountLine, FileOf(LoneLine(ACCENTED, n))) == None
  {
    Utf8.AsciiValid(KIND);
    Utf8.AsciiValid("id");
    Utf8.AsciiValid("now");
    Utf8.AsciiValid("machine");
    var a, b: byte := 0xC3 as char, 0xA9 as char;
    Utf8.TwoBytes(a, b);
    assert [a] + [b] == [a, b];
    CutInsideModel(ACCENTED, a);
  }

  /** A smoke pass on a file the gateway left means that the summary, too, shows
      every requested request accepted and metered. */
  lemma PassMatchesSummary(ps: seq<Piece<AuditRecord>>, count: u64)
    requires Written(ps) && Smoke.CountOf(Smoke.CountLine, FileOf(ps)) == Some((count, count))
    ensures var report := ReportOf(Scan(ReadLine, Split([], FileOf(ps)))); report.accepted == report.metered == count
  {
    ReadersAgree(ps);
  }

  lemma {:induction false} WholeFileIsText(ps: seq<Piece<AuditRecord>>)
    requires Written(ps) && forall i :: 0 <= i < |ps| ==> IsWhole(ps[i])
    ensures Utf8.Valid(FileOf(ps))
  {
    if ps != [] {
      WholeFileIsText(ps[1..]);
      TextParses(ps[0].rec);
      Utf8.AsciiValid([LF]);
      Utf8.ValidAppend(ps[0].text, [LF]);
      Utf8.ValidAppend(Landed(ps[0]), FileOf(ps[1..]));
    }
  }

  /** The summary of a file of the given pieces. */
  lemma SummaryOfPieces(ps: seq<Piece<AuditRecord>>)
    requires Written(ps)
    ensures Scan(ReadLine, Split([], FileOf(ps))) == Expected(Carry.Clean, ps)
    ensures |Expected(Carry.Clean, ps).counted| >= Wholes(ps) - Fragments(ps)
  {
    SummaryReads(ps);
    ReaderIsExact(ReadLine, Carry.Clean, [], ps, Unreadable);
    CountedAtLeast(ps);
  }

  /** A file of whole lines: both readers count every line. */
  lemma WholeFilesAgree(ps: seq<Piece<AuditRecord>>)
    requires Written(ps) && forall i :: 0 <= i < |ps| ==> IsWhole(ps[i])
    ensures var t := Scan(ReadLine, Split([], FileOf(ps)));
      && |t.counted| == |ps| && t.unparseable == 0 && !t.partialTail
      && Smoke.CountOf(Smoke.CountLine, FileOf(ps)) == Some((|ps|, Weigh(HasUsage, t.counted)))
  {
    WholeFileIsText(ps);
    ReadersAgree(ps);
    SummaryOfPieces(ps);
    WholeFile(ps);
  }

  // ---------------------------------------------------------------- end to end

  /** A run of the store in which every offer comes from a lifecycle. */
  ghost predicate GatewayRun(unzip: Effort.Unzip, steps: seq<Store.Step<AuditRecord>>) {
    && Store.ValidRun(Text, Store.Fresh(), steps)
    && (forall r :: r in After(steps).offered ==> Offered(unzip, r))
  }

  function After(steps: seq<Store.Step<AuditRecord>>): Store.Store<AuditRecord>
    requires Store.ValidRun(Text, Store.Fresh(), steps)
  {
    Store.Run(Text, Store.Fresh(), steps)
  }

  lemma PiecesAreWritten(unzip: Effort.Unzip, ps: seq<Piece<AuditRecord>>, offered: seq<AuditRecord>)
    requires Store.Genuine(Text, ps, offered) && forall r :: r in offered ==> Offered(unzip, r)
    ensures Written(ps)
  {
    forall i | 0 <= i < |ps| ensures Good(ps[i].rec) {
      OfferedIsGood(unzip, ps[i].rec);
    }
  }

  lemma FileIsWritten(unzip: Effort.Unzip, steps: seq<Store.Step<AuditRecord>>)
    requires GatewayRun(unzip, steps)
    ensures var s := After(steps);
      s.file == FileOf(s.pieces) && Written(s.pieces) && Store.Genuine(Text, s.pieces, s.offered)
  {
    var s := After(steps);
    Store.FreshInv(Text);
    Store.RunInv(Text, Store.Fresh(), steps);
    PiecesAreWritten(unzip, s.pieces, s.offered);
  }

  /** After every run of offers, whole and partial writes, crashes and restarts,
      the summary reports exactly the records whose lines survive whole on a clean
      line start, plus a complete unterminated tail; and it misses at most as many
      whole lines as there are fragments. */
  lemma SummaryIsExact(unzip: Effort.Unzip, steps: seq<Store.Step<AuditRecord>>)
    requires GatewayRun(unzip, steps)
    ensures var s := After(steps);
      && Scan(ReadLine, Split([], s.file)) == Expected(Carry.Clean, s.pieces)
      && |Expected(Carry.Clean, s.pieces).counted| >= Wholes(s.pieces) - Fragments(s.pieces)
  {
    FileIsWritten(unzip, steps);
    SummaryOfPieces(After(steps).pieces);
  }

  /** What the summary counts after a run is a subsequence of what lifecycles
      offered, in order and each offer at most once, and every record is well formed. */
  lemma CountedIsGood(unzip: Effort.Unzip, steps: seq<Store.Step<AuditRecord>>)
    requires GatewayRun(unzip, steps)
    ensures var counted := Expected(Carry.Clean, After(steps).pieces).counted;
      && (exists js :: Store.Picks(counted, js, After(steps).offered))
      && (forall i :: 0 <= i < |counted| ==> Offered(unzip, counted[i]) && GatewayRecord(counted[i]))
  {
    var s := After(steps);
    Store.FreshInv(Text);
    Store.RunInv(Text, Store.Fresh(), steps);
    Store.CountedOnce(Text, s);
    var counted := Expected(Carry.Clean, s.pieces).counted;
    var js :| Store.Picks(counted, js, s.offered);
    PickedAreGood(unzip, counted, js, s.offered);
  }

  lemma PickedAreGood(unzip: Effort.Unzip, counted: seq<AuditRecord>, js: seq<nat>, offered: seq<AuditRecord>)
    requires Store.Picks(counted, js, offered) && forall r :: r in offered ==> Offered(unzip, r)
    ensures forall i :: 0 <= i < |counted| ==> Offered(unzip, counted[i]) && GatewayRecord(counted[i])
  {
    forall i | 0 <= i < |counted| ensures Offered(unzip, counted[i]) && GatewayRecord(counted[i]) {
      assert offered[js[i]] == counted[i];
      OfferedIsGood(unzip, counted[i]);
    }
  }

  /** The summary printed after a run: both tables and the coverage are those over
      the records whose lines survive, told by the records' own fields, and no row
      shows more uncached than input tokens. */
  lemma PrintedGroupsAreExact(unzip: Effort.Unzip, steps: seq<Store.Step<AuditRecord>>)
    requires GatewayRun(unzip, steps)
    ensures var report := ReportOf(Scan(ReadLine, Split([], After(steps).file)));
      && ReportOver(report, Expected(Carry.Clean, After(steps).pieces).counted)
      && (forall effort :: effort in report.efforts ==> WithinInput(report.efforts[effort]))
      && (forall k :: k in report.groups ==> WithinInput(report.groups[k]))
  {
    var counted := Expected(Carry.Clean, After(steps).pieces).counted;
    SummaryIsExact(unzip, steps);
    CountedIsGood(unzip, steps);
    TablesWithinInput(counted);
    ReportIsOver(Expected(Carry.Clean, After(steps).pieces));
  }

  predicate WithinInput(t: Totals) {
    t.uncached.Some? ==> t.inputTotal.Some? && t.uncached.value <= t.inputTotal.value
  }

  lemma TablesWithinInput(rs: seq<AuditRecord>)
    requires forall i :: 0 <= i < |rs| ==> BalancedRecord(rs[i])
    ensures forall effort :: effort in GroupBy(EffortKeyOf, rs) ==> WithinInput(GroupBy(EffortKeyOf, rs)[effort])
    ensures forall k :: k in GroupBy(ModelKeyOf, rs) ==> WithinInput(GroupBy(ModelKeyOf, rs)[k])
  {
    forall effort | effort in GroupBy(EffortKeyOf, rs) ensures WithinInput(GroupBy(EffortKeyOf, rs)[effort]) {
      UncachedWithinInput(EffortKeyOf, rs, effort);
    }
    forall k | k in GroupBy(ModelKeyOf, rs) ensures WithinInput(GroupBy(ModelKeyOf, rs)[k]) {
      UncachedWithinInput(ModelKeyOf, rs, k);
    }
  }
}
