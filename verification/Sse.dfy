/** Server-sent-event framing at byte level, after sections 9.2.5 and 9.2.6 of the
    WHATWG HTML standard. Only the data of an event matters to the observer, so the
    event type, id and retry fields are read as fields with no effect. */
module Sse {
  import opened Bytes
  import Utf8
  import opened Json

  /** Progress through a stream: the line being read, whether a carriage return
      has just ended one, the data lines of the event so far (each with a line
      feed behind it) and the events dispatched. */
  datatype Framer = Framer(line: bytes, cr: bool, data: bytes, events: seq<bytes>)

  const Start: Framer := Framer([], false, [], [])

  const DATA: bytes := "data"

  /** The value of a `data` field line; other fields and comments have none. */
  function DataValue(line: bytes): Option<bytes> {
    if line == DATA then Some([])
    else if DATA + [':'] <= line then
      var value := line[5..];
      Some(if value != [] && value[0] == ' ' then value[1..] else value)
    else None
  }

  /** A blank line dispatches the event, unless it has no data at all. */
  function EndLine(f: Framer): Framer {
    if f.line == [] then
      if f.data == [] then f
      else f.(data := [], events := f.events + [f.data[..|f.data| - 1]])
    else
      var value := DataValue(f.line);
      f.(line := [], data := if value.Some? then f.data + value.value + [LF] else f.data)
  }

  /** Lines end in CR LF, LF or CR. */
  function Feed(f: Framer, b: byte): Framer {
    if b == LF then
      if f.cr then f.(cr := false) else EndLine(f)
    else if b == CR then EndLine(f).(cr := true)
    else f.(line := f.line + [b], cr := false)
  }

  function FeedAll(f: Framer, text: bytes): Framer
    decreases text
  {
    if text == [] then f else FeedAll(Feed(f, text[0]), text[1..])
  }

  const BOM: bytes := [0xEF as char, 0xBB as char, 0xBF as char]

  function StripBom(text: bytes): bytes {
    if BOM <= text then text[3..] else text
  }

  /** What the framing library yields for one body: the events of its longest
      well-formed UTF-8 prefix, then an error if anything is left. */
  datatype Item = Event(data: bytes) | Error

  function Items(body: bytes): seq<Item> {
    var good := Utf8.ValidPrefix(body);
    var events := FeedAll(Start, StripBom(good)).events;
    seq(|events|, i requires 0 <= i < |events| => Event(events[i])) + (if good == body then [] else [Error])
  }

  /** The data of the events before the first error. */
  function Events(body: bytes): seq<bytes> {
    FeedAll(Start, StripBom(Utf8.ValidPrefix(body))).events
  }

  /** The collecting loop: push events until the stream ends or reports an error. */
  method CollectEvents(body: bytes) returns (events: seq<bytes>)
    ensures events == Events(body)
  {
    var items := Items(body);
    events := [];
    var i := 0;
    while i < |items| && items[i].Event?
      invariant 0 <= i <= |items|
      invariant i <= |Events(body)| && events == Events(body)[..i]
    {
      events := events + [items[i].data];
      i := i + 1;
    }
  }

  // ---------------------------------------------------------------- monotonicity

  lemma {:induction false} FeedAllAppend(f: Framer, a: bytes, b: bytes)
    ensures FeedAll(f, a + b) == FeedAll(FeedAll(f, a), b)
    decreases a
  {
    if a == [] {
      assert a + b == b;
    } else {
      assert (a + b)[1..] == a[1..] + b;
      FeedAllAppend(Feed(f, a[0]), a[1..], b);
    }
  }

  lemma {:induction false} EventsGrow(f: Framer, text: bytes)
    ensures f.events <= FeedAll(f, text).events
    decreases text
  {
    if text != [] {
      EventsGrow(Feed(f, text[0]), text[1..]);
    }
  }

  /** A well-formed text that is not empty holds a byte order mark wholly or not at all. */
  lemma BomIsWhole(p: bytes, q: bytes)
    requires Utf8.Valid(p) && p != [] && p <= q && BOM <= q
    ensures BOM <= p
  {
    if |p| < 3 {
      assert p[0] == q[0] == BOM[0];
      if |p| == 1 {
        assert p == [BOM[0]] + [];
        Utf8.RunCons(Utf8.Boundary, BOM[0], []);
        assert false;
      } else {
        assert p[1] == q[1] == BOM[1];
        assert p == [BOM[0]] + ([BOM[1]] + []);
        Utf8.RunCons(Utf8.Boundary, BOM[0], [BOM[1]] + []);
        Utf8.RunCons(Utf8.Step(Utf8.Boundary, BOM[0]), BOM[1], []);
        assert false;
      }
    } else {
      assert forall i :: 0 <= i < 3 ==> p[i] == q[i] == BOM[i];
    }
  }

  /** Framing is prefix-monotone: more bytes never change the events already framed. */
  lemma EventsMonotone(a: bytes, b: bytes)
    ensures Events(a) <= Events(a + b)
  {
    var p, q := Utf8.ValidPrefix(a), Utf8.ValidPrefix(a + b);
    Utf8.ValidPrefixMonotone(a, b);
    if p == [] {
      assert StripBom(p) == [];
    } else {
      if BOM <= q {
        BomIsWhole(p, q);
      } else {
        assert !(BOM <= p);
      }
      var sp, sq := StripBom(p), StripBom(q);
      assert sp <= sq;
      assert sq == sp + sq[|sp|..];
      FeedAllAppend(Start, sp, sq[|sp|..]);
      EventsGrow(FeedAll(Start, sp), sq[|sp|..]);
    }
  }

  lemma BomIsValid()
    ensures Utf8.Valid(BOM)
  {
    assert BOM == [BOM[0]] + ([BOM[1]] + [BOM[2]]);
    Utf8.ThreeBytes(BOM[0], BOM[1], BOM[2]);
  }

  lemma ValidBehindBom(body: bytes)
    ensures Utf8.ValidPrefix(BOM + body) == BOM + Utf8.ValidPrefix(body)
  {
    var p, q := Utf8.ValidPrefix(body), Utf8.ValidPrefix(BOM + body);
    BomIsValid();
    Utf8.ValidAppend(BOM, p);
    Utf8.ValidPrefixLongest(BOM + body, BOM + p);
    var rest := q[3..];
    assert q == BOM + rest;
    Utf8.RunAppend(Utf8.Boundary, BOM, rest);
    Utf8.ValidPrefixLongest(body, rest);
  }

  /** A leading byte order mark changes nothing. */
  lemma BomIsSkipped(body: bytes)
    requires !(BOM <= body)
    ensures Events(BOM + body) == Events(body)
  {
    ValidBehindBom(body);
    assert (BOM + Utf8.ValidPrefix(body))[3..] == Utf8.ValidPrefix(body);
  }

  // ---------------------------------------------------------------- JSON documents

  /** No event yet, and the line being read is not a data field. */
  predicate Quiet(f: Framer) {
    f.data == [] && f.events == [] && (f.line != [] ==> f.line[0] != 'd')
  }

  /** The framer beside the JSON parser: at a line start the parser is between tokens. */
  lemma {:induction false} QuietBesideJson(f: Framer, s: State, text: bytes)
    requires Quiet(f) && (f.line == [] ==> BetweenTokens(s))
    requires Run(s, text) != Fail
    ensures Quiet(FeedAll(f, text))
    decreases text
  {
    if text != [] {
      var b := text[0];
      if Step(s, b).Fail? {
        FailStays(text[1..]);
      }
      if b == LF || b == CR {
        LineBreakStep(s, b);
      } else if f.line == [] {
        assert Step(s, 'd') == Fail;
      }
      QuietBesideJson(Feed(f, b), Step(s, b), text[1..]);
    }
  }

  /** A JSON document never frames as a data event, however it is laid out. */
  lemma JsonHasNoEvents(body: bytes)
    requires FromSlice(body).Some?
    ensures Events(body) == []
  {
    assert body != [];
    if BOM <= body {
      assert body == [body[0]] + body[1..];
      RunCons(Init, body[0], body[1..]);
      FailStays(body[1..]);
    }
    QuietBesideJson(Start, Init, body);
  }

  /** A data field's value is what follows its colon, less one space; the bare name
      has an empty value, and no other line is a data field. */
  lemma DataByName(line: bytes, value: bytes)
    ensures DataValue("data") == Some([])
    ensures DataValue("data: " + value) == Some(value)
    ensures value == [] || value[0] != ' ' ==> DataValue("data:" + value) == Some(value)
    ensures DataValue(line).Some? <==> line == "data" || "data:" <= line
  {
    DataLineValue(value);
    var t: bytes := "data:" + value;
    assert t[..5] == "data:" && t[5..] == value;
    assert DATA + [':'] == "data:";
  }

  // ---------------------------------------------------------------- writing events

  datatype LineEnd = EndLf | EndCr | EndCrLf

  function Eol(e: LineEnd): bytes {
    match e case EndLf => [LF] case EndCr => [CR] case EndCrLf => [CR, LF]
  }

  /** The data of one event as field lines: one per line of the payload. */
  function DataLines(e: LineEnd, lines: seq<bytes>): bytes {
    if lines == [] then [] else DATA + ": " + lines[0] + Eol(e) + DataLines(e, lines[1..])
  }

  function Render(e: LineEnd, payloads: seq<seq<bytes>>): bytes {
    if payloads == [] then [] else DataLines(e, payloads[0]) + Eol(e) + Render(e, payloads[1..])
  }

  /** The payload an event of these lines carries: the lines, joined by line feeds. */
  function Joined(lines: seq<bytes>): bytes {
    if lines == [] then [] else lines[0] + [LF] + Joined(lines[1..])
  }

  predicate NoBreak(t: bytes) {
    forall i :: 0 <= i < |t| ==> t[i] != LF && t[i] != CR
  }

  lemma {:induction false} FeedText(f: Framer, t: bytes)
    requires NoBreak(t)
    ensures FeedAll(f, t) == if t == [] then f else f.(line := f.line + t, cr := false)
    decreases t
  {
    if t != [] {
      FeedText(Feed(f, t[0]), t[1..]);
      assert f.line + [t[0]] + t[1..] == f.line + t;
    }
  }

  /** The framer at a line start, after any line end. */
  predicate Fresh(f: Framer, e: LineEnd) {
    f.line == [] && (f.cr ==> e.EndCr?)
  }

  lemma FeedEol(f: Framer, e: LineEnd)
    requires f.cr ==> e.EndCr?
    ensures FeedAll(f, Eol(e)) == EndLine(f).(cr := e.EndCr?)
  {
    if e.EndCrLf? {
      assert Eol(e) == [CR] + [LF];
      FeedAllAppend(f, [CR], [LF]);
      assert FeedAll(f, [CR]) == Feed(f, CR);
    }
  }

  lemma FeedDataLine(f: Framer, e: LineEnd, line: bytes)
    requires Fresh(f, e) && NoBreak(line)
    ensures FeedAll(f, DATA + ": " + line + Eol(e)) == f.(cr := e.EndCr?, data := f.data + line + [LF])
  {
    var t := DATA + ": " + line;
    FeedAllAppend(f, t, Eol(e));
    FeedText(f, t);
    var g := f.(line := t, cr := false);
    assert f.line + t == t;
    DataLineValue(line);
    FeedEol(g, e);
  }

  lemma DataLineValue(line: bytes)
    ensures DataValue(DATA + ": " + line) == Some(line)
  {
    var t := DATA + ": " + line;
    assert t[5..] == [' '] + line && DATA + [':'] == t[..5];
  }

  lemma Regrouped(a: bytes, b: bytes, c: bytes)
    ensures a + b + [LF] + c == a + (b + [LF] + c)
  {
  }

  lemma {:induction false} FeedDataLines(f: Framer, e: LineEnd, lines: seq<bytes>)
    requires Fresh(f, e) && forall i :: 0 <= i < |lines| ==> NoBreak(lines[i])
    ensures Fresh(FeedAll(f, DataLines(e, lines)), e)
    ensures FeedAll(f, DataLines(e, lines)).data == f.data + Joined(lines)
    ensures FeedAll(f, DataLines(e, lines)).events == f.events
    decreases lines
  {
    if lines == [] {
      assert f.data + Joined(lines) == f.data;
    } else {
      var first := DATA + ": " + lines[0] + Eol(e);
      FeedDataLine(f, e, lines[0]);
      FeedAllAppend(f, first, DataLines(e, lines[1..]));
      FeedDataLines(FeedAll(f, first), e, lines[1..]);
      Regrouped(f.data, lines[0], Joined(lines[1..]));
    }
  }

  function Payloads(payloads: seq<seq<bytes>>): seq<bytes>
    requires forall i :: 0 <= i < |payloads| ==> payloads[i] != []
  {
    if payloads == [] then []
    else
      var j := Joined(payloads[0]);
      [j[..|j| - 1]] + Payloads(payloads[1..])
  }

  lemma FrameOne(f: Framer, e: LineEnd, lines: seq<bytes>)
    requires Fresh(f, e) && f.data == [] && Joined(lines) != [] && forall i :: 0 <= i < |lines| ==> NoBreak(lines[i])
    ensures var g, j := FeedAll(f, DataLines(e, lines) + Eol(e)), Joined(lines);
      Fresh(g, e) && g.data == [] && g.events == f.events + [j[..|j| - 1]]
  {
    FeedDataLines(f, e, lines);
    assert [] + Joined(lines) == Joined(lines);
    FeedBlank(f, DataLines(e, lines), e);
  }

  lemma FeedBlank(f: Framer, t: bytes, e: LineEnd)
    requires Fresh(FeedAll(f, t), e) && FeedAll(f, t).data != []
    ensures var g, h := FeedAll(f, t), FeedAll(f, t + Eol(e));
      Fresh(h, e) && h.data == [] && h.events == g.events + [g.data[..|g.data| - 1]]
  {
    FeedAllAppend(f, t, Eol(e));
    FeedEol(FeedAll(f, t), e);
  }

  /** Framing gives back every event written with any of the three line ends. */
  lemma {:induction false} FrameRendered(f: Framer, e: LineEnd, payloads: seq<seq<bytes>>)
    requires Fresh(f, e) && f.data == []
    requires forall i :: 0 <= i < |payloads| ==> payloads[i] != [] && forall j :: 0 <= j < |payloads[i]| ==> NoBreak(payloads[i][j])
    ensures FeedAll(f, Render(e, payloads)).events == f.events + Payloads(payloads)
    decreases payloads
  {
    if payloads == [] {
      assert f.events + Payloads(payloads) == f.events;
    } else {
      FeedAllAppend(f, DataLines(e, payloads[0]) + Eol(e), Render(e, payloads[1..]));
      FrameOne(f, e, payloads[0]);
      FrameRendered(FeedAll(f, DataLines(e, payloads[0]) + Eol(e)), e, payloads[1..]);
      var j := Joined(payloads[0]);
      assert f.events + [j[..|j| - 1]] + Payloads(payloads[1..]) == f.events + ([j[..|j| - 1]] + Payloads(payloads[1..]));
    }
  }

  /** The same for a whole body, as the observer frames it. */
  lemma RenderedEvents(e: LineEnd, payloads: seq<seq<bytes>>)
    requires forall i :: 0 <= i < |payloads| ==> payloads[i] != [] && forall j :: 0 <= j < |payloads[i]| ==> NoBreak(payloads[i][j])
    requires Utf8.Valid(Render(e, payloads))
    ensures Events(Render(e, payloads)) == Payloads(payloads)
  {
    var body := Render(e, payloads);
    if payloads != [] {
      assert body[0] == DataLines(e, payloads[0])[0] == 'd';
    }
    assert StripBom(body) == body;
    FrameRendered(Start, e, payloads);
  }
}
