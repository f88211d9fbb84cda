/** The load smoke (src/smoke.rs): a second, untyped reader of the usage file, the
    accounting of the load generator's report, and the checks that lead to a pass. */
module Smoke {
  import opened Bytes
  import Utf8
  import opened Json
  import opened JsonFragments
  import opened JsonStrings
  import opened JsonText
  import opened Lines
  import opened Observer
  import opened Record

  // ---------------------------------------------------------------- trimming

  predicate NarrowSpace(a: int) {
    a == 32 || 9 <= a <= 13
  }

  predicate PairSpace(a: int, b: int) {
    a == 0xC2 && (b == 0x85 || b == 0xA0)
  }

  /** The white-space characters of three bytes. */
  predicate WideSpace(a: int, b: int, c: int) {
    || (a == 0xE1 && b == 0x9A && c == 0x80)
    || (a == 0xE2 && b == 0x80 && (0x80 <= c <= 0x8A || c == 0xA8 || c == 0xA9 || c == 0xAF))
    || (a == 0xE2 && b == 0x81 && c == 0x9F)
    || (a == 0xE3 && b == 0x80 && c == 0x80)
  }

  /** The length of the white-space character `t` starts with, if any. */
  function HeadSpace(t: bytes): (k: nat)
    ensures k <= |t|
  {
    if |t| >= 1 && NarrowSpace(t[0] as int) then 1
    else if |t| >= 2 && PairSpace(t[0] as int, t[1] as int) then 2
    else if |t| >= 3 && WideSpace(t[0] as int, t[1] as int, t[2] as int) then 3
    else 0
  }

  function TrimStart(t: bytes): bytes {
    if HeadSpace(t) == 0 then t else TrimStart(t[HeadSpace(t)..])
  }

  /** The length of the white-space character `t` ends with, if any. */
  function TailSpace(t: bytes): (k: nat)
    ensures k <= |t|
  {
    var n := |t|;
    if n >= 1 && NarrowSpace(t[n - 1] as int) then 1
    else if n >= 2 && PairSpace(t[n - 2] as int, t[n - 1] as int) then 2
    else if n >= 3 && WideSpace(t[n - 3] as int, t[n - 2] as int, t[n - 1] as int) then 3
    else 0
  }

  function TrimEnd(t: bytes): (r: bytes)
    ensures r <= t
  {
    if TailSpace(t) == 0 then t else TrimEnd(t[..|t| - TailSpace(t)])
  }

  /** White space as code points. */
  predicate IsWhite(cp: int) {
    || 9 <= cp <= 13 || cp == 32 || cp == 0x85 || cp == 0xA0 || cp == 0x1680 || 0x2000 <= cp <= 0x200A
    || cp == 0x2028 || cp == 0x2029 || cp == 0x202F || cp == 0x205F || cp == 0x3000
  }

  /** A character is trimmed from the front exactly when it is white space. */
  lemma HeadSpaceByCode(cp: int, t: bytes)
    requires Utf8.IsScalar(cp)
    ensures HeadSpace(Utf8.Encode(cp) + t) == if IsWhite(cp) then |Utf8.Encode(cp)| else 0
  {
  }

  /** And so it is from the end. */
  lemma TailSpaceByCode(cp: int, t: bytes)
    requires Utf8.IsScalar(cp)
    ensures TailSpace(t + Utf8.Encode(cp)) == if IsWhite(cp) then |Utf8.Encode(cp)| else 0
  {
  }

  lemma {:induction false} BraceStays(t: bytes, i: nat)
    requires i < |t| && t[i] == '{'
    ensures i < |TrimEnd(t)|
    decreases t
  {
    if TailSpace(t) > 0 {
      assert i < |t| - TailSpace(t);
      BraceStays(t[..|t| - TailSpace(t)], i);
    }
  }

  function Trim(t: bytes): bytes {
    TrimEnd(TrimStart(t))
  }

  // ---------------------------------------------------------------- counting

  /** One parsed line: canonical lines count, and whether their usage is not null. */
  function CountValue(v: Option<Json>): Reading<bool> {
    if v.None? then Ignored
    else
      var version, kind, usage := Get(v.value, "schema_version"), Get(v.value, "kind"), Get(v.value, "usage");
      if version.None? || AsU64(version.value) != Some(1) then Ignored
      else if kind.None? || AsStr(kind.value) != Some(KIND) then Ignored
      else Counted(usage.Some? && !usage.value.Null?)
  }

  function CountLine(content: bytes): Reading<bool> {
    if Trim(content) == [] then Ignored else CountValue(FromSlice(Trim(content)))
  }

  function Trues(xs: seq<bool>): nat {
    if xs == [] then 0 else Trues(xs[..|xs| - 1]) + (if xs[|xs| - 1] then 1 else 0)
  }

  /** The whole file must be text; then every line is looked at. */
  function CountOf(read: bytes -> Reading<bool>, file: bytes): Option<(nat, nat)> {
    if !Utf8.Valid(file) then None
    else
      var counted := Scan(read, Split([], file)).counted;
      Some((|counted|, Trues(counted)))
  }

  /** What one more line adds to the lines read so far. */
  lemma ScanAt(read: bytes -> Reading<bool>, lines: seq<RawLine>, i: nat, seen: seq<bool>)
    requires i < |lines|
    ensures var rest, now := Scan(read, lines[i + 1..]).counted, read(lines[i].content);
      seen + Scan(read, lines[i..]).counted == (if now.Counted? then seen + [now.rec] else seen) + rest
  {
    assert lines[i..][1..] == lines[i + 1..];
    var rest, now := Scan(read, lines[i + 1..]).counted, read(lines[i].content);
    if now.Counted? {
      assert seen + ([now.rec] + rest) == seen + [now.rec] + rest;
    }
  }

  method CountLines(read: bytes -> Reading<bool>, lines: seq<RawLine>) returns (accepted: nat, metered: nat)
    ensures accepted == |Scan(read, lines).counted| && metered == Trues(Scan(read, lines).counted)
  {
    accepted, metered := 0, 0;
    ghost var seen: seq<bool> := [];
    var i := 0;
    assert lines[0..] == lines;
    while i < |lines|
      invariant 0 <= i <= |lines|
      invariant accepted == |seen| && metered == Trues(seen)
      invariant Scan(read, lines).counted == seen + Scan(read, lines[i..]).counted
    {
      ScanAt(read, lines, i, seen);
      match read(lines[i].content) {
        case Counted(m) =>
          assert (seen + [m])[..|seen|] == seen;
          accepted := accepted + 1;
          if m {
            metered := metered + 1;
          }
          seen := seen + [m];
        case Ignored =>
        case Unreadable =>
      }
      i := i + 1;
    }
    assert lines[i..] == [] && seen + [] == seen;
  }

  /** The second reader of the usage file. */
  method CountAudit(file: bytes) returns (r: Option<(nat, nat)>)
    ensures r == CountOf(CountLine, file)
  {
    if !Utf8.Valid(file) {
      return None;
    }
    var accepted, metered := CountLines(CountLine, Split([], file));
    return Some((accepted, metered));
  }

  /** Which lines count, and as what, by the names of the schema. */
  lemma CountsByName(v: Json)
    ensures CountValue(Some(v)).Counted? <==>
      && Get(v, "schema_version").Some? && AsU64(Get(v, "schema_version").value) == Some(1)
      && Get(v, "kind") == Some(Str("request"))
    ensures CountValue(Some(v)).Counted? ==>
      (CountValue(Some(v)).rec <==> Get(v, "usage").Some? && !Get(v, "usage").value.Null?)
  {
  }

  // ---------------------------------------------------------------- what it makes of record lines

  lemma RecordCounts(r: AuditRecord)
    requires r.schemaVersion == SCHEMA_VERSION && r.kind == KIND
    ensures CountValue(Some(Obj(RecordMembers(r)))) == Counted(r.usage.Some?)
  {
    RecordByName(r);
    NumReads(1, 255);
  }

  lemma TrimKeepsText(t: bytes)
    requires |t| > 1 && t[0] == '{' && t[|t| - 1] == '}'
    ensures Trim(t) == t
  {
  }

  lemma CutTorn(content: bytes, a: bytes, t: bytes, n: nat, m: nat)
    requires TornBy(content, a, t, n) && |a| < m <= |content|
    ensures TornBy(content[..m], a, t, m - |a|)
  {
    assert content[..m] == a + t[..m - |a|];
  }

  lemma BracesOf(content: bytes, a: bytes, t: bytes, n: nat)
    requires TornBy(content, a, t, n)
    ensures |a| < |content| && content[|a|] == '{' && content[0] == '{'
  {
    assert content[|a|] == t[..n][0];
  }

  lemma TrimFromBrace(content: bytes, i: nat)
    requires i < |content| && content[i] == '{' && content[0] == '{'
    ensures Trim(content) <= content && i < |Trim(content)|
  {
    assert TrimStart(content) == content;
    BraceStays(content, i);
  }

  /** Trimming a torn line leaves a torn line. */
  lemma TrimKeepsTorn(content: bytes)
    requires IsTorn(content)
    ensures IsTorn(Trim(content)) && Trim(content) != []
  {
    var a, t, n :| TornBy(content, a, t, n);
    BracesOf(content, a, t, n);
    TrimFromBrace(content, |a|);
    var m := |Trim(content)|;
    assert Trim(content) == content[..m];
    CutTorn(content, a, t, n, m);
  }

  lemma TornIsIgnored(content: bytes)
    requires IsTorn(content)
    ensures CountLine(content) == Ignored
  {
    TrimKeepsTorn(content);
    TornNeverParses(Trim(content));
  }

  lemma TextIsCounted(r: AuditRecord)
    requires IsTextRecord(r) && r.schemaVersion == SCHEMA_VERSION && r.kind == KIND
    ensures CountLine(Text(r)) == Counted(r.usage.Some?)
  {
    TextShape(r);
    TrimKeepsText(Text(r));
    TextParses(r);
    RecordCounts(r);
  }

  // ---------------------------------------------------------------- the load report

  const U64_SPAN: int := 0x1_0000_0000_0000_0000

  function WrappingAdd(a: u64, b: u64): u64 {
    if a + b <= U64_MAX then a + b else a + b - U64_SPAN
  }

  /** A status key as a 16-bit number, 0 if it is none. */
  function StatusCode(key: bytes): u16 {
    var digits := if key != [] && key[0] == '+' then key[1..] else key;
    if digits != [] && AllDigits(digits) && DecimalValue(digits) < 65536 then DecimalValue(digits) else 0
  }

  function CountOr0(v: Json): u64 {
    if AsU64(v).Some? then AsU64(v).value else 0
  }

  predicate Is2xx(code: int) {
    200 <= code < 300
  }

  function Completed(statuses: seq<Member>): u64 {
    if statuses == [] then 0
    else
      var m := statuses[|statuses| - 1];
      WrappingAdd(Completed(statuses[..|statuses| - 1]), if Is2xx(StatusCode(m.key)) then CountOr0(m.value) else 0)
  }

  function StatusErrors(statuses: seq<Member>): u64 {
    if statuses == [] then 0
    else
      var m := statuses[|statuses| - 1];
      WrappingAdd(StatusErrors(statuses[..|statuses| - 1]), if Is2xx(StatusCode(m.key)) then 0 else CountOr0(m.value))
  }

  function TransportErrors(errors: seq<Member>): u64 {
    if errors == [] then 0
    else WrappingAdd(TransportErrors(errors[..|errors| - 1]), CountOr0(errors[|errors| - 1].value))
  }

  /** Requests of a kind, as mathematical integers. */
  function Total(entries: seq<Member>, wanted: bool): nat {
    if entries == [] then 0
    else
      var m := entries[|entries| - 1];
      Total(entries[..|entries| - 1], wanted) + if (200 <= StatusCode(m.key) < 300) == wanted then CountOr0(m.value) else 0
  }

  /** A key that is a decimal number below 65536, with or without a plus sign, is
      that status; any other is status 0. */
  lemma StatusReads(n: nat, key: bytes)
    requires n < 65536
    ensures StatusCode(Decimal(n)) == n && StatusCode("+" + Decimal(n)) == n
    ensures StatusCode(key) != 0 ==>
      || (AllDigits(key) && DecimalValue(key) == StatusCode(key))
      || (key[0] == '+' && AllDigits(key[1..]) && DecimalValue(key[1..]) == StatusCode(key))
  {
    assert IsDigit(Decimal(n)[0]);
    assert ("+" + Decimal(n))[1..] == Decimal(n);
  }

  /** The two accounting loops over the status and error distributions. */
  method Account(statuses: seq<Member>, errors: seq<Member>) returns (completed: u64, failed: u64)
    ensures completed == Completed(statuses)
    ensures failed == WrappingAdd(StatusErrors(statuses), TransportErrors(errors))
  {
    completed, failed := 0, 0;
    var i := 0;
    while i < |statuses|
      invariant 0 <= i <= |statuses|
      invariant completed == Completed(statuses[..i]) && failed == StatusErrors(statuses[..i])
    {
      assert statuses[..i + 1][..i] == statuses[..i];
      var code, count := StatusCode(statuses[i].key), CountOr0(statuses[i].value);
      if Is2xx(code) {
        completed := WrappingAdd(completed, count);
      } else {
        failed := WrappingAdd(failed, count);
      }
      i := i + 1;
    }
    assert statuses[..i] == statuses;
    i := 0;
    while i < |errors|
      invariant 0 <= i <= |errors|
      invariant failed == WrappingAdd(StatusErrors(statuses), TransportErrors(errors[..i]))
    {
      assert errors[..i + 1][..i] == errors[..i];
      WrapAssociates(StatusErrors(statuses), TransportErrors(errors[..i]), CountOr0(errors[i].value));
      failed := WrappingAdd(failed, CountOr0(errors[i].value));
      i := i + 1;
    }
    assert errors[..i] == errors;
  }

  lemma WrapAssociates(a: u64, b: u64, c: u64)
    ensures WrappingAdd(WrappingAdd(a, b), c) == WrappingAdd(a, WrappingAdd(b, c))
  {
  }

  /** Requests that got no response, as a mathematical integer. */
  function ErrorTotal(errors: seq<Member>): nat {
    if errors == [] then 0 else ErrorTotal(errors[..|errors| - 1]) + CountOr0(errors[|errors| - 1].value)
  }

  lemma WrapIsModulo(n: nat, m: nat, a: u64, b: u64)
    requires a == n % U64_SPAN && b == m % U64_SPAN
    ensures WrappingAdd(a, b) == (n + m) % U64_SPAN
  {
    var p, q := n / U64_SPAN, m / U64_SPAN;
    assert n + m == (p + q) * U64_SPAN + (a + b);
    if a + b <= U64_MAX {
      Remainder(p + q, a + b);
    } else {
      Remainder(p + q + 1, a + b - U64_SPAN);
    }
  }

  /** One more count. */
  lemma WrapCounts(n: nat, a: u64, count: u64)
    requires a == n % U64_SPAN
    ensures WrappingAdd(a, count) == (n + count) % U64_SPAN
  {
    Remainder(0, count);
    WrapIsModulo(n, count, a, count);
  }

  lemma Remainder(k: nat, r: nat)
    requires r < U64_SPAN
    ensures (k * U64_SPAN + r) % U64_SPAN == r
  {
  }

  /** The completed count is the true number of 2xx responses modulo 2^64, hence
      exact whenever that number fits in 64 bits. */
  lemma {:induction false} CompletedIsExact(statuses: seq<Member>)
    ensures Completed(statuses) == Total(statuses, true) % U64_SPAN
    ensures Total(statuses, true) <= U64_MAX ==> Completed(statuses) == Total(statuses, true)
  {
    if statuses != [] {
      var n := |statuses| - 1;
      var count := if Is2xx(StatusCode(statuses[n].key)) then CountOr0(statuses[n].value) else 0;
      CompletedIsExact(statuses[..n]);
      WrapCounts(Total(statuses[..n], true), Completed(statuses[..n]), count);
    }
  }

  lemma {:induction false} StatusErrorsExact(statuses: seq<Member>)
    ensures StatusErrors(statuses) == Total(statuses, false) % U64_SPAN
  {
    if statuses != [] {
      var n := |statuses| - 1;
      var count := if Is2xx(StatusCode(statuses[n].key)) then 0 else CountOr0(statuses[n].value);
      StatusErrorsExact(statuses[..n]);
      WrapCounts(Total(statuses[..n], false), StatusErrors(statuses[..n]), count);
    }
  }

  lemma {:induction false} TransportErrorsExact(errors: seq<Member>)
    ensures TransportErrors(errors) == ErrorTotal(errors) % U64_SPAN
  {
    if errors != [] {
      var n := |errors| - 1;
      var count := CountOr0(errors[n].value);
      TransportErrorsExact(errors[..n]);
      WrapCounts(ErrorTotal(errors[..n]), TransportErrors(errors[..n]), count);
    }
  }

  /** The failed count is the true number of failures modulo 2^64: it is zero
      exactly when that number is a multiple of 2^64, and exact when it fits. */
  lemma {:induction false} FailedIsExact(statuses: seq<Member>, errors: seq<Member>)
    ensures var failed, truth := WrappingAdd(StatusErrors(statuses), TransportErrors(errors)), Total(statuses, false) + ErrorTotal(errors);
      && failed == truth % U64_SPAN
      && (failed == 0 <==> truth % U64_SPAN == 0)
      && (truth <= U64_MAX ==> failed == truth)
  {
    StatusErrorsExact(statuses);
    TransportErrorsExact(errors);
    SumIsExact(Total(statuses, false), ErrorTotal(errors), StatusErrors(statuses), TransportErrors(errors));
  }

  lemma SumIsExact(n: nat, m: nat, a: u64, b: u64)
    requires a == n % U64_SPAN && b == m % U64_SPAN
    ensures WrappingAdd(a, b) == (n + m) % U64_SPAN
    ensures WrappingAdd(a, b) == 0 <==> (n + m) % U64_SPAN == 0
    ensures n + m <= U64_MAX ==> WrappingAdd(a, b) == n + m
  {
    WrapIsModulo(n, m, a, b);
  }

  /** Two error counts that wrap to nothing, such as 2^64 - 1 and 1: zero failed does
      not mean no failure. */
  lemma WrapHidesErrors(n: u64)
    requires n > 0
    ensures var errors := [Member("a", Num(Decimal(n))), Member("b", Num(Decimal(U64_SPAN - n)))];
      WrappingAdd(StatusErrors([]), TransportErrors(errors)) == 0 && ErrorTotal(errors) == U64_SPAN
  {
    var a, b := Member("a", Num(Decimal(n))), Member("b", Num(Decimal(U64_SPAN - n)));
    assert [a, b][..1] == [a] && [a][..0] == [];
    assert CountOr0(a.value) == n && CountOr0(b.value) == U64_SPAN - n;
    assert ErrorTotal([a]) == n;
    FailedIsExact([], [a, b]);
  }

  // ---------------------------------------------------------------- the verdict

  datatype Verdict =
    | LoadErrors | Not2xx | CountMismatch | NotDrained | Unreadable | AcceptedMismatch | MeteringLoss
    | Pass(accepted: nat, metered: nat)

  /** The checks of one smoke run, in order; the first that fails decides. */
  method Judge(completed: u64, failed: u64, rateIsOne: bool, count: u64, drained: bool, file: Option<(nat, nat)>) returns (v: Verdict)
    ensures v.Pass? <==>
      failed == 0 && rateIsOne && completed == count && drained && file == Some((count, count))
    ensures v.Pass? ==> v.accepted == v.metered == completed == count
  {
    if failed > 0 {
      return LoadErrors;
    }
    if !(failed == 0 && rateIsOne) {
      return Not2xx;
    }
    if (if completed + failed <= U64_MAX then completed + failed else U64_MAX) != count {
      return CountMismatch;
    }
    if !drained {
      return NotDrained;
    }
    if file.None? {
      return Verdict.Unreadable;
    }
    var (accepted, metered) := file.value;
    if accepted != completed {
      return AcceptedMismatch;
    }
    if metered != accepted {
      return MeteringLoss;
    }
    return Pass(accepted, metered);
  }
}
