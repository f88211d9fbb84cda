# A model of the metering gateway

The gateway forwards provider requests, mirrors what passes, and keeps one audit
record per metered request in a JSONL file that a summary later totals. This
project models that chain from the upstream's bytes to the printed totals and
proves what holds on every input, every interleaving and every fault.

Three state machines carry the token facts:

1. **The response lifecycle** (`Lifecycle`): handler, pump, bounded channel,
   caller, drop notification and the request stream that may still be running.
   Every reachable state of every interleaving keeps one invariant; what the
   caller gets, when the record is offered and what it says follow from it.
2. **The usage observer** (`Sse`, `Observer`, over `Json` and `Utf8`): a byte-level
   event framer, the fold over events, the JSON fallback, counter extraction and
   the checked accounting. Framing never takes an event back, and no JSON document
   frames as an event.
3. **The audit store and its readers** (`Store`, `AuditWriter`, `Lines`, `Record`,
   `Summary`, `Smoke`): a bounded queue, a writer whose lines may land in part,
   crashes that truncate, restarts that append, and two independent readers.

`Wire` tells what a body says a second time, in the provider's own field names and
without the observer's functions, and proves that the observer reports just that;
`JsonGrammar`, `JsonSound` and `JsonComplete` do the same for the JSON parser against
the grammar of RFC 8259.

`Gateway` joins them: after every run, the summary reports exactly the records
whose lines survive whole on a clean line start (plus a complete unterminated
tail), each of them was offered by a lifecycle and is well formed, and each printed
counter is the capped exact sum over those records. `Headers` and `Effort` model
the header policies and the request-side observer.

## How the model is built

- A byte is a character below 256, so ASCII text can be written as a literal.
- JSON is read by a byte automaton with an explicit stack of open containers.
  Reading `a + b` is reading `b` from where `a` stopped, which is what the facts
  about cut and glued lines rest on: a cut record text leaves a container open, and
  nothing a record text can append ever closes it.
- Event framing follows sections 9.2.5 and 9.2.6 of the WHATWG HTML standard; it
  stops where a strict UTF-8 decoder would.
- Machine integers are mathematical integers with their bounds written out:
  checked, saturating and wrapping additions are separate functions.
- The concurrent parts are transition systems. `Lifecycle` takes its two observers
  as parameters, and `Store` the record type and its serialization; `Gateway` puts
  the real ones in. `AuditWriter` and `RequestEffort` are also given as classes
  that update their fields, each tied to its transition system.

## Where the code and its comments differ

- A preferred input or output counter that is present but no number hides the legacy
  member (src/usage.rs:565-568); `Observer.NullHidesLegacy` gives the input and
  `Wire.CountersAre` the exact rule.
- A valid model in the response header is said to win (src/usage.rs:519-523), but a body
  that neither frames as events nor is a JSON object is reported without any model
  (src/usage.rs:476-487); `Wire.HeaderModelIffBody` is the exact condition and
  `Wire.HeaderModelDropped` an input.
- An event with a data line of empty value is emitted, though the comment at
  src/usage.rs:365-370 reads as if it were dropped.

## Model

| member | source | states |
|---|---|---|
| `Gateway.SummaryIsExact` | src/summary.rs:111-167 | After every run of offers, whole and partial writes, crashes, truncations and restarts, the summary's tally of the file is the one told from the pieces that reached it; it misses at most as many whole lines as there are fragments |
| `Gateway.PrintedGroupsAreExact` | src/summary.rs:132-150 | After every run the report on the file has a row for every declared effort, and one for every machine and model, that a counted record with usage has; each row is the capped exact sum over exactly the records whose own fields say so; and none shows more uncached than input tokens |
| `Gateway.CountedIsGood` | src/summary.rs:127-150 | The records the summary counts after a run are a subsequence of the offers, in order and each offer at most once; each was offered by a lifecycle and is well formed |
| `Gateway.OfferedIsGood` | src/lib.rs:485-532 | Every record offered under any interleaving is well formed and text, so its line round-trips, and it tells what its own request came to |
| `Gateway.RecordTells` | src/lib.rs:485-532 | A record names its request's machine and operation and the upstream's status; of a 2xx response it carries the model, usage, quality and metering error that the body and the header say, told in the provider's field names; of any other nothing of the kind |
| `Gateway.OutcomeIsGrounded` | src/lib.rs:498-508 | Every outcome told from the upstream alone, with the status bounds and event names written out: `Completed` iff 2xx, a clean end and a body that is terminal and not incomplete; `Incomplete` iff 2xx, a clean end and a `response.incomplete` event or, without events, a top-level `status` of `incomplete`; `UpstreamInterrupted` iff 2xx and a broken stream, or a clean one with events and no terminal one; and so on for the other three |
| `Gateway.SummaryOfPieces` | src/summary.rs:111-167 | The summary of any file made of whole and partial gateway lines is the expected tally |
| `Gateway.ReadersAgree` | src/smoke.rs:648-673 | On any file the gateway can have left, the two independent readers report the same accepted and metered counts; the second refuses the file exactly when it is not UTF-8 |
| `Gateway.CutInsideModel` | src/smoke.rs:648-651 | The refusal happens: every line whose model name has a byte outside ASCII can be cut so that the second reader refuses the file |
| `Gateway.AccentedCut` | src/smoke.rs:648-651 | One such record, well formed, with a two-byte letter in its model name |
| `Gateway.WholeFilesAgree` | src/smoke.rs:648-673 | On a file of whole lines both readers count every line, and nothing is unparseable or left over |
| `Gateway.PassMatchesSummary` | src/smoke.rs:470-489 | When the smoke's reader finds the requested count accepted and metered, so does the summary |
| `Lifecycle.RunInv` | src/lib.rs:343-438 | Every step of every party keeps the flow, control, observer and ledger invariants, hence so does every run |
| `Lifecycle.PumpIsTransparent` | src/lib.rs:343-399 | In every reachable state delivered, queued and discarded chunks make up what was sent, that is a prefix of the upstream body, the mirror is what was sent plus at most the chunk in hand, and the channel holds at most 16 |
| `Lifecycle.EndOfBody` | src/lib.rs:401-412 | The caller sees the end of the body only after the pump has stopped and with everything sent delivered; after a clean upstream end that is the whole body. That this end comes is `Lifecycle.BodyArrives` |
| `Lifecycle.StayingGetsAll` | src/lib.rs:379-412 | If the upstream ends cleanly and the caller has stayed to the end it has received the whole body. That it gets there is `Lifecycle.StuckMeansServed` |
| `Lifecycle.BodyArrives` | src/lib.rs:379-438 | From every reachable state with the caller there and an upstream that ends its body or breaks off, the run can go on, nobody giving up, until the caller has seen the end with every chunk delivered and the record due has been offered |
| `Lifecycle.StuckMeansServed` | src/lib.rs:379-438 | A run with nothing left to happen but request chunks or a departure has served its caller in full |
| `Lifecycle.RunsEnd` | src/lib.rs:379-438 | Request chunks aside, every run of a request with `n` response chunks has at most `3 n + 7` steps, whatever the interleaving |
| `Lifecycle.AnyMoment` | src/lib.rs:379-407 | Departure, abandonment, send failure, chunks and the hand-over into a channel of fewer than 16 chunks are possible whenever the source allows them |
| `Lifecycle.OneRecord` | src/lib.rs:416-467 | At most one record per accepted request, exactly one when it is metered and its send failed or its task ran to the end, none for an abandoned or waiting handler |
| `Lifecycle.AdmitByName` | src/lib.rs:195-228 | A request is unauthorized iff it lacks exactly one readable, known key; rejected iff known but its target is not kept; and metered iff its path is one of the two |
| `Lifecycle.RecordIsStamped` | src/lib.rs:452-467 | A record carries the identity and the time of the step that offered it |
| `Lifecycle.OnlyAdmittedOffer` | src/lib.rs:195-228 | A record is offered exactly when the request has one readable, known meter key, a kept target and one of the two metered paths, and its send has failed or its task has ended; it carries that key's machine and that path's operation |
| `Lifecycle.OutcomeIsSound` | src/lib.rs:498-508 | Each recorded outcome is equivalent to how the lifecycle went: status, how the upstream was seen to end, whether the caller left, and what the body's events said |
| `Lifecycle.OfferedIsWellFormed` | src/lib.rs:485-532 | Status absent iff transport error, else the upstream's own; a 2xx record carries the observer's model, usage, quality and error; `UpstreamError` iff a status outside 2xx; usage only with 2xx and no error; 2xx without usage iff missing or malformed; quality follows usage and the derived counter; `EventTooLarge` never appears |
| `Lifecycle.StopBound` | src/lib.rs:379-404 | Once the caller's receiver is closed the pump takes at most one further chunk, over any continuation of the run |
| `Lifecycle.CanEndSilently` | src/lib.rs:401-438 | In every reachable state with the drop notification pending, whatever the task is doing, the lifecycle can end without any upstream step; a metered one then has one record, `UpstreamError` iff not 2xx, `ClientCancelled` iff 2xx and the pump was cut short, and otherwise the outcome the ended stream and the body call for |
| `Lifecycle.RecordedEffort` | src/lib.rs:559-581 | Whatever the interleaving, the request body is handed on unchanged and the recorded effort is the one declared by exactly the bytes forwarded before the step that read it |
| `Sse.CollectEvents` | src/usage.rs:371-382 | The collecting loop yields the events before the first framing error |
| `Sse.EventsMonotone` | src/usage.rs:371-382 | The events of a prefix are a prefix of the events of every extension |
| `Sse.JsonHasNoEvents` | src/usage.rs:365-382 | No JSON document, however laid out, frames to a data event |
| `Sse.FrameRendered` | src/usage.rs:371-382 | Framing gives back every event written as data lines with LF, CR or CRLF line ends |
| `Sse.RenderedEvents` | src/usage.rs:371-382 | The same for a whole body as the observer frames it |
| `Sse.DataByName` | src/usage.rs:371-382 | A data field's value is what follows its colon, less one space; a bare name has an empty value; no other line is a data field |
| `Sse.BomIsSkipped` | src/usage.rs:371-382 | A leading byte order mark changes nothing |
| `Utf8.ValidPrefixMonotone` | src/usage.rs:377-380 | Where a strict decoder stops on a prefix lies within what it accepts of any extension |
| `Utf8.EncodedIsValid` | src/usage.rs:377-380 | Every text of scalar values encodes to a well-formed byte string |
| `Utf8.ValidIsEncoded` | src/usage.rs:377-380 | Every well-formed byte string encodes some scalar values: no surrogate, overlong form or code point beyond the last |
| `Json.WhiteSpaceInsertion` | src/usage.rs:475-484 | Any white space, blank lines included, may stand between two tokens without changing the value |
| `Json.FindIsLast` | src/usage.rs:414-419 | Member lookup finds the last member with the key, and nothing exactly when there is none |
| `JsonSound.ParsedIsText` | src/usage.rs:475-484 | Whatever parses is a JSON text, by the grammar, of the value it parses to |
| `JsonComplete.TextIsParsed` | src/usage.rs:475-484 | Every JSON text parses to its value |
| `JsonComplete.ParsesTheGrammar` | src/usage.rs:475-484 | Parsing is exactly the grammar of RFC 8259, white space, escapes, surrogate pairs and number forms included |
| `Observer.FoldEvents` | src/usage.rs:384-424 | The event loop computes the fold of the events' facts |
| `Observer.FoldIsDeclarative` | src/usage.rs:391-424 | The fold says: seen, incomplete and malformed iff some event is; usage and model are those of the last event that has one |
| `Observer.ParseBody` | src/usage.rs:384-469 | The whole parse computes the terminal, interrupted or JSON result |
| `Observer.JsonTakesJsonBranch` | src/usage.rs:461-468 | On a JSON document the parse always takes its JSON branch |
| `Observer.LongerMirrorKeepsTerminal` | src/usage.rs:371-442 | Once a terminal event lies wholly in the mirror, every longer mirror is terminal too, keeps an incomplete mark, and has usage and a model if the shorter one had |
| `Observer.ParsedIsSound` | src/usage.rs:425-517 | Usage and a metering error exclude each other, the accounting identity holds, and neither the unparsed default nor `EventTooLarge` is ever reported |
| `Observer.FirstOfFound` | src/usage.rs:565-602 | A chain of alternatives yields the number at the first place holding one, and nothing exactly when no place does |
| `Observer.ExtractedIsGrounded` | src/usage.rs:552-608 | For any lists of places, extraction takes each counter from the first place that holds a number, and input and output from the preferred member if it is there at all; the places themselves are named by `Wire.ExtractsByName` |
| `Observer.GroundedIsUnique` | src/usage.rs:552-608 | For any lists of places, no two extractions are so grounded in the same object |
| `Observer.NullHidesLegacy` | src/usage.rs:565-568 | A preferred input or output member that is null hides a number in the legacy member: on `{"input_tokens":null,"prompt_tokens":5}` no input is recorded |
| `Observer.CanonicalIsBalanced` | src/usage.rs:615-640 | `Complete` iff all three inputs are present and read plus write fit in the input as mathematical integers, also where the 64-bit sum overflows; then input is uncached plus read plus write; reported counters stay as they were |
| `Wire.ExtractsByName` | src/usage.rs:552-608 | Every counter is read from the member of its name, falling back in the stated order, with all names written out |
| `Wire.FactByName` | src/usage.rs:391-423 | An event is terminal iff its `type` is `response.completed` or `response.incomplete`, incomplete iff the second; its model and usage are those at `response.model` and `response.usage` |
| `Wire.ReportsByName` | src/usage.rs:384-517 | On every body the observer reports what the body says: terminal events, interrupted stream, JSON document or neither, in the provider's names |
| `Wire.SaysOneThing` | src/usage.rs:384-517 | That account leaves nothing open: a body and a header say one report |
| `Wire.BodyState` | src/usage.rs:444-492 | A body lacks a terminal state exactly when it framed as events and none is terminal; it is incomplete exactly when such an event or, without events, the top-level status says so |
| `Wire.HeaderModelIffBody` | src/usage.rs:475-492 | The model of the response header is reported exactly when the body framed as events or is a JSON object |
| `Wire.HeaderModelDropped` | src/usage.rs:475-487 | On the body `x` the header's model is not reported |
| `Wire.DetailsExample` | src/usage.rs:569-580 | Cached and written tokens of one object, each under its own name |
| `Observer.ModelIsText` | src/usage.rs:524-535 | A reported model is well-formed text if the response header is |
| `Observer.StreamUsageParser.constructor` | src/usage.rs:319-325 | A new observer has an empty mirror and no result |
| `Observer.StreamUsageParser.Push` | src/usage.rs:328-330 | The mirror grows by exactly the chunk |
| `Observer.StreamUsageParser.Finalize` | src/usage.rs:333-338 | The first call parses the mirror, later calls change nothing |
| `Record.RecordRoundTrip` | src/usage.rs:115-135 | Decoding the text of a record gives the record back |
| `Record.NoPrefixDecodes` | src/usage.rs:713-719 | No proper prefix of a record text decodes |
| `Record.TextParses` | src/usage.rs:713-717 | A record text is UTF-8 and parses to the record's members |
| `Record.TextShape` | src/usage.rs:713-719 | A record text is one object on one line, free of control bytes |
| `Record.StringsByName` | src/usage.rs:115-135 | The text fields of a written record, under their names |
| `Record.EnumsByName` | src/usage.rs:54-98 | Operation, outcome, quality and error of a written record, with every name written out |
| `Record.RecordByName` | src/usage.rs:100-135 | Version, kind, status and the seven usage counters of a written record, under their names |
| `Record.DecodeByName` | src/summary.rs:127 | A line reads as a record exactly when it is one JSON object whose members say that record: required members present once, optional ones missing, null or present once, others ignored |
| `Record.FieldMeans` | src/summary.rs:127 | A field is missing iff no member has its name, and has a value iff exactly one does |
| `JsonText.RoundTrip` | src/usage.rs:713-717 | Parsing a serialized object gives the object back |
| `JsonStrings.PrintedText` | src/usage.rs:713-719 | Serialized text has no control byte, hence no newline, and is UTF-8 if its strings are |
| `JsonStrings.ParsedStringsClean` | src/usage.rs:475-492 | Every string taken from a JSON document is well-formed UTF-8 |
| `JsonFragments.NoProperPrefixParses` | src/summary.rs:152-161 | No proper prefix of an object text parses |
| `JsonFragments.GluedInside` | src/summary.rs:152-161 | Any part of a record text after an open container leaves it open or has failed |
| `Lines.TornNeverParses` | src/summary.rs:152-161 | A line holding a cut text, or anything glued to an earlier text or fragment, never parses |
| `Lines.ReaderIsExact` | src/summary.rs:111-167 | A reader that counts record texts and rejects torn lines counts exactly the whole lines on a clean line start plus a complete tail, and finds unparseable exactly the whole lines glued to a fragment |
| `Lines.CutIsTruncation` | src/usage.rs:660-666 | Cutting the pieces is truncating the file |
| `Lines.CleanIsLineStart` | src/usage.rs:713-719 | A line start is clean exactly when the file is empty or ends in a newline |
| `Lines.ExpectedCounts` | src/summary.rs:127-161 | Every whole line is counted or unparseable, each unparseable one has its own fragment, and the tail is counted or reported, never both |
| `Lines.CountedAtLeast` | src/summary.rs:127-161 | Counted lines are at least the whole lines minus the fragments |
| `Lines.WholeFile` | src/summary.rs:127-150 | Without fragments the counted records are the written ones, in order |
| `Lines.ScanIgnoresOrder` | src/summary.rs:111-167 | Permuting the lines leaves the counted records the same up to order, and the unparseable and tail marks unchanged |
| `Store.RunInv` | src/usage.rs:660-732 | Every run of offers, writes, faults, crashes and restarts keeps conservation, order, faithfulness of the file, and the bounds |
| `Store.StepConserves` | src/usage.rs:670-722 | Offered = attempted + in flight + queued + dropped + lost, and every offer has a place |
| `Store.NowhereTwice` | src/usage.rs:670-722 | No offer is in two places |
| `Store.StepOrders` | src/usage.rs:695-722 | Attempted writes, then the one in flight, then the queue are a subsequence of the offers in order |
| `Store.StepFaithful` | src/usage.rs:708-722 | The file is made of pieces, each of the line of the offer whose number it carries |
| `Store.StepFiled` | src/usage.rs:708-722 | The numbers of the pieces in the file, in flight and queued stay strictly increasing through writes, deaths and crashes |
| `Store.CountedOnce` | src/usage.rs:708-722 | What a file counts is a subsequence of the offers in order, so no offer is counted twice |
| `Store.StepBounded` | src/usage.rs:695-732 | At most 2048 records queued, and each warning printed once per process at most |
| `Store.DropReason` | src/usage.rs:670-680 | On every run each offer gets the next number, and it is among the dropped at the end exactly when at its own step the queue was full or the sender or writer gone |
| `Store.DrainProgress` | src/usage.rs:683-722 | Once the sender is closed no step adds to the backlog, the writer always has a step that shrinks it, and with none left it can end |
| `Store.AnyFault` | src/usage.rs:708-722 | A line may land in any part, the writer may die, the process may crash leaving any prefix of the file, and it can be started again, at any time |
| `AuditWriter.AuditWriter.constructor` | src/usage.rs:660-706 | Starting appends to what is there, with fresh warning flags: a restart of the store |
| `AuditWriter.AuditWriter.TryRecord` | src/usage.rs:670-680 | Offers one record without blocking: it is queued, or dropped with one warning at most |
| `AuditWriter.AuditWriter.Drop` | src/usage.rs:683-693 | Closes the sender and touches nothing else |
| `AuditWriter.AuditWriter.WriteLine` | src/usage.rs:713-721 | Appends as much of the oldest line as lands; a short write warns once |
| `AuditWriter.AuditWriter.WriteLoop` | src/usage.rs:708-722 | Beside any schedule of offers, and until the handle is dropped and the queue is empty: the loop takes an ordinary run of the store, attempts what was waiting and what was accepted in order, loses nothing, and the file grows by what landed of each line |
| `AuditWriter.AllAccounted` | src/usage.rs:708-722 | When the writer of a process has drained and ended, every offer was attempted, dropped, or lost to an earlier death |
| `AuditWriter.LineIsTwoSteps` | src/usage.rs:713-721 | Writing one line is the store's take step followed by its write step |
| `Summary.ReadUntil` | src/summary.rs:111-121 | Reading up to a newline yields the first of the remaining lines |
| `Summary.TakeRecord` | src/summary.rs:132-150 | A counted record turns the report on a tally into the report on the tally with it, whose rows are told by the records' own machine, model and effort |
| `Summary.ReadWith` | src/summary.rs:104-168 | The line loop computes the report on the tally of all lines |
| `Summary.ReadUsageFile` | src/summary.rs:92-169 | Reading a file yields the report on its tally: a row for every effort, and for every machine and model, that a counted record with usage has, over exactly those records, and the coverage |
| `Summary.ReportIsOver` | src/summary.rs:132-150 | The report on any tally is the one over its counted records, with the fields written out |
| `Summary.ReadsCanonical` | src/summary.rs:127-152 | A line counts iff it decodes to a record of version 1 and kind `request`; another record is passed over; the rest is no record |
| `Summary.CarriageReturnIsStripped` | src/summary.rs:124-126 | A carriage return before the newline changes nothing |
| `Summary.TailIsReported` | src/summary.rs:153-161 | An unreadable tail is reported exactly when it holds something besides ASCII white space |
| `Summary.GroupsAreExact` | src/summary.rs:171-186 | A group exists iff some record under its key has usage; each counter is absent iff no record carried it, else the exact sum capped at the 64-bit maximum |
| `Summary.GroupsIgnoreOrder` | src/summary.rs:139-149 | The groups are the same for any order of the counted records |
| `Summary.ReportIgnoresOrder` | src/summary.rs:111-167 | Permuting the lines of the file leaves the whole report unchanged: both tables, accepted, metered and the warnings |
| `Summary.PermutedFile` | src/summary.rs:111-167 | The same on bytes: two files of the same lines in any order, whatever the lines hold, get the same report |
| `Summary.AllRecordsIsMetered` | src/summary.rs:132-150 | The record counts of a view add up to the metered count |
| `Summary.GrandTotalIsExact` | src/summary.rs:171-186 | The capped total over a view's groups is the capped exact sum over all records, even where groups saturated |
| `Summary.ViewsAgree` | src/summary.rs:139-149 | Both views total the same records, at most the accepted ones, and the same amount of every counter |
| `Summary.CompleteGroupBalances` | src/summary.rs:171-186 | In a group of complete records the printed input is the saturating sum of the printed uncached, read and write totals |
| `Summary.UncachedWithinInput` | src/summary.rs:171-186 | A group of gateway records never shows more uncached than input tokens |
| `Sums.WeighPermutation` | src/summary.rs:139-149 | A sum does not depend on the order of its terms |
| `Sums.CapAfterSum` | src/summary.rs:182-186 | Capping the groups before adding them up changes nothing once the total is capped |
| `Smoke.CountLines` | src/smoke.rs:653-672 | The counting loop computes accepted and metered over all lines |
| `Smoke.CountAudit` | src/smoke.rs:648-673 | The second reader refuses a file that is not text and otherwise counts it |
| `Smoke.CountsByName` | src/smoke.rs:659-671 | A line counts iff its `schema_version` is 1 and its `kind` is `request`, and is metered iff its `usage` is there and not null |
| `Smoke.HeadSpaceByCode` | src/smoke.rs:654 | A character is trimmed from the front exactly when it is white space, by code point |
| `Smoke.TailSpaceByCode` | src/smoke.rs:654 | And so it is from the end |
| `Smoke.TextIsCounted` | src/smoke.rs:654-671 | A record text counts, and is metered iff the record has usage |
| `Smoke.TornIsIgnored` | src/smoke.rs:654-661 | A torn line is never counted |
| `Smoke.Account` | src/smoke.rs:700-722 | The two accounting loops compute completed and failed, wrapping at 64 bits |
| `Smoke.StatusReads` | src/smoke.rs:706 | A status key is its decimal number below 65536, with or without a plus sign, and any other key is status 0 |
| `Smoke.CompletedIsExact` | src/smoke.rs:700-714 | The completed count is the true number of responses with a status from 200 to 299 modulo 2^64, and equal to it when that fits |
| `Smoke.FailedIsExact` | src/smoke.rs:700-722 | The failed count is the true number of failed requests modulo 2^64: zero iff that is a multiple of 2^64, and equal to it when it fits |
| `Smoke.WrapHidesErrors` | src/smoke.rs:700-722 | Any two error counts adding up to 2^64 wrap to zero failed |
| `Smoke.Judge` | src/smoke.rs:565-584 | A run passes iff the failed count is zero, the rate one, the requested count completed, the audit drained and the file shows exactly that count accepted and metered |
| `Headers.Copy` | src/lib.rs:297-303 | The copying loop keeps exactly what the policy keeps |
| `Headers.KeepIsFaithful` | src/lib.rs:334-341 | Filtering keeps order, and each kept field exactly as often as it came |
| `Headers.NoHopCrosses` | src/lib.rs:119-169 | No standard or nominated hop header crosses in either direction, and what crosses nominates nothing |
| `Headers.CrossesByName` | src/lib.rs:119-169 | Each field crosses exactly as often as it came unless its name is nominated, one of the nine hop-by-hop names or, towards the upstream, a private one; all names written out |
| `Headers.NominatedByName` | src/lib.rs:161-169 | A name is nominated iff it is, trimmed and in lower case, a comma-separated token of a `connection` field that is text |
| `HeaderText.TokensAreCut` | src/lib.rs:165-166 | The tokens are the value cut at its commas |
| `HeaderText.NormalIs` | src/lib.rs:167 | A token's normal form is what stands between its blanks, in lower case |
| `Headers.PoliciesAreIdempotent` | src/lib.rs:119-169 | Applying either policy again changes nothing |
| `Headers.RequestWithinResponse` | src/lib.rs:136-157 | The request policy keeps a subsequence of what the response policy keeps |
| `Effort.FirstFinishDecides` | src/usage.rs:197-223 | For every interleaving of observe and finish the first finish decides: the effort of the bytes before it, and nothing later changes effort or mirror |
| `Effort.EffortByName` | src/usage.rs:255-283 | The effort is the string at `reasoning.effort`, each member present once |
| `Effort.KindByName` | src/usage.rs:236-251 | No encoding, no named token or `identity` alone is read plainly, `zstd` alone through the decoder, anything else not at all |
| `Effort.DeclaredByName` | src/usage.rs:269-283 | What is read, plainly or through the decoder, is the effort the body says |
| `Effort.DeclaredIsText` | src/usage.rs:269-279 | A declared effort is well-formed text |
| `Effort.RequestEffort.constructor` | src/usage.rs:185-192 | A new observer is empty and unread |
| `Effort.RequestEffort.Observe` | src/usage.rs:197-202 | Mirrors the chunk unless the effort has been read |
| `Effort.RequestEffort.FinishOnce` | src/usage.rs:209-216 | Reads the mirror once and empties it; later calls change nothing |

## Left out

- The HTTP, TLS and async runtime internals: they appear only as the steps of the transition systems. A handler dropped before the response head is the step `HandlerAbandoned`.
- Upstream URL building and normalization: whether the target stays under the fixed base is a flag of `Lifecycle.Admit`.
- SHA-256 and zstd are function parameters (`digest`, `unzip`); event ids and timestamps are opaque text.
- Configuration, command line, the mock upstream and scripts: short validations and I/O.
- Table rendering, the coverage percentage and all log text beyond the one-shot warnings.
- Smoke process handling, memory sampling and latency; polling for the audit to drain and the floating-point success rate are flags of `Smoke.Judge`.
- The framing crate's own code is not part of this model: framing follows the WHATWG standard. A carriage return at the end of the body ends its line; event types, ids and retry times have no effect.
- JSON library details: the nesting limit, rejection of numbers beyond the floating-point range, structs written as arrays and enums written as maps.
- Serialization never fails for these records, so the skip branch of the write loop (src/usage.rs:714-716) has no step.
- Record and coverage counters are unbounded: the 64-bit wrap of counting lines one by one is not modelled.
- Header names are taken in lower case, as the HTTP stack keeps them, and a nominated token that is no field name is kept in the set, where it matches no field.
- A crash truncates the file to a prefix of what was appended; other damage to the medium is not modelled.
- Smoke.Account: wraps on overflow as a release build does, where a debug build would panic, and takes the distributions as member lists without repeated keys being merged.
- Effort.DeclaredIsText: the typed reading behind it refuses a lone surrogate or malformed UTF-8 anywhere in the text. The source's typed readers (src/usage.rs:271-275, src/summary.rs:127) skip the strings of members they ignore without decoding them, so a request whose ignored members hold such strings still yields its effort there and none in `Effort.Declared`; the gateway's own lines never hold any.
- Summary.TakeRecord: returns a new report rather than updating map entries in place.
