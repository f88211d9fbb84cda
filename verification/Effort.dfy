/** The request-side observer (src/usage.rs, src/lib.rs): a mirror of the forwarded
    request body shared by the forwarding stream and the lifecycle, read once for
    the declared reasoning effort. Decompression is a parameter. */
module Effort {
  import opened Bytes
  import opened Json
  import opened JsonStrings
  import opened Observer
  import opened Record
  import opened HeaderText

  datatype EncodingKind = Identity | Zstd | Unsupported

  /** The trimmed, lower-cased tokens that are not empty. */
  function Named(tokens: seq<bytes>): seq<bytes> {
    if tokens == [] then []
    else
      var t := Normal(tokens[0]);
      (if t == [] then [] else [t]) + Named(tokens[1..])
  }

  function KindOfTokens(tokens: seq<bytes>): EncodingKind {
    if tokens == [] then Identity
    else if tokens == ["identity"] then Identity
    else if tokens == ["zstd"] then Zstd
    else Unsupported
  }

  /** The observation encodings: none, `identity` and `zstd`; anything else or
      anything layered is left unobserved. */
  function KindOf(encoding: Option<bytes>): EncodingKind {
    if encoding.None? then Identity else KindOfTokens(Named(Tokens(encoding.value)))
  }

  /** `reasoning.effort` of a typed reading: a missing or null step gives nothing,
      and so does any step of another type or a repeated field. */
  function EffortOf(root: Option<Json>): Option<bytes> {
    if root.None? || !root.value.Obj? then None
    else
      var reasoning := FieldOf(root.value.members, "reasoning");
      if !reasoning.One? || !reasoning.v.Obj? then None
      else
        var effort := ReadOptStr(FieldOf(reasoning.v.members, "effort"));
        if effort.Some? then effort.value else None
  }

  type Unzip = bytes -> Option<bytes>

  function Declared(unzip: Unzip, raw: bytes, encoding: Option<bytes>): Option<bytes> {
    match KindOf(encoding)
    case Identity => EffortOf(FromSlice(raw))
    case Zstd => if unzip(raw).Some? then EffortOf(FromSlice(unzip(raw).value)) else None
    case Unsupported => None
  }

  lemma {:induction false} FieldFound(ms: seq<Member>, key: bytes)
    ensures FieldOf(ms, key).One? ==> exists i :: 0 <= i < |ms| && ms[i] == Member(key, FieldOf(ms, key).v)
  {
    if ms != [] {
      var n := |ms| - 1;
      FieldFound(ms[..n], key);
      assert forall i :: 0 <= i < n ==> ms[..n][i] == ms[i];
      assert ms[n] == Member(ms[n].key, ms[n].value);
    }
  }

  lemma CleanField(ms: seq<Member>, key: bytes)
    requires Clean(Obj(ms))
    ensures FieldOf(ms, key).One? ==> Clean(FieldOf(ms, key).v)
  {
    FieldFound(ms, key);
  }

  lemma EffortIsText(root: Option<Json>)
    requires root.Some? ==> Clean(root.value)
    ensures IsText(EffortOf(root))
  {
    if root.Some? && root.value.Obj? {
      CleanField(root.value.members, "reasoning");
      var reasoning := FieldOf(root.value.members, "reasoning");
      if reasoning.One? && reasoning.v.Obj? {
        CleanField(reasoning.v.members, "effort");
      }
    }
  }

  lemma ParsedEffortIsText(body: bytes)
    ensures IsText(EffortOf(FromSlice(body)))
  {
    if FromSlice(body).Some? {
      ParsedStringsClean(body);
    }
    EffortIsText(FromSlice(body));
  }

  /** A recorded effort is well-formed text. */
  lemma DeclaredIsText(unzip: Unzip, raw: bytes, encoding: Option<bytes>)
    ensures IsText(Declared(unzip, raw, encoding))
  {
    ParsedEffortIsText(raw);
    if unzip(raw).Some? {
      ParsedEffortIsText(unzip(raw).value);
    }
  }

  // ---------------------------------------------------------------- by name

  /** The body says `{"reasoning": {"effort": e}}`, among other members. */
  predicate SaysEffort(root: Option<Json>, e: bytes) {
    && root.Some? && root.value.Obj?
    && var reasoning := FieldOf(root.value.members, "reasoning");
       reasoning.One? && reasoning.v.Obj? && FieldOf(reasoning.v.members, "effort") == One(Str(e))
  }

  lemma EffortByName(root: Option<Json>, e: bytes)
    ensures EffortOf(root) == Some(e) <==> SaysEffort(root, e)
  {
  }

  /** The comma-separated tokens of a header value that are not blank. */
  predicate TokensAre(value: bytes, names: seq<bytes>) {
    Named(Tokens(value)) == names
  }

  lemma KindByName(encoding: Option<bytes>)
    ensures KindOf(encoding) == Identity <==>
      encoding.None? || TokensAre(encoding.value, []) || TokensAre(encoding.value, ["identity"])
    ensures KindOf(encoding) == Zstd <==> encoding.Some? && TokensAre(encoding.value, ["zstd"])
  {
  }

  /** What is read, plainly or through the decoder, is the effort the body says. */
  lemma DeclaredByName(unzip: Unzip, raw: bytes, encoding: Option<bytes>, e: bytes)
    ensures Declared(unzip, raw, encoding) == Some(e) <==>
      || ((encoding.None? || TokensAre(encoding.value, []) || TokensAre(encoding.value, ["identity"])) && SaysEffort(FromSlice(raw), e))
      || (encoding.Some? && TokensAre(encoding.value, ["zstd"]) && unzip(raw).Some? && SaysEffort(FromSlice(unzip(raw).value), e))
  {
    KindByName(encoding);
    EffortByName(FromSlice(raw), e);
    if unzip(raw).Some? {
      EffortByName(FromSlice(unzip(raw).value), e);
    }
  }

  /** The tokens named are the lower-cased, trimmed ones that are not empty. */
  lemma {:induction false} NamedAre(tokens: seq<bytes>, name: bytes)
    ensures name in Named(tokens) <==> name != [] && exists i :: 0 <= i < |tokens| && Normal(tokens[i]) == name
  {
    if tokens != [] {
      NamedAre(tokens[1..], name);
      if i :| 0 <= i < |tokens| && Normal(tokens[i]) == name {
        assert i > 0 ==> Normal(tokens[1..][i - 1]) == name;
      }
      if i :| 0 <= i < |tokens| - 1 && Normal(tokens[1..][i]) == name {
        assert Normal(tokens[i + 1]) == name;
      }
    }
  }

  // ---------------------------------------------------------------- the shared observer

  datatype Watch = Watch(encoding: Option<bytes>, mirror: bytes, effort: Option<bytes>, parsed: bool)

  function New(encoding: Option<bytes>): Watch {
    Watch(encoding, [], None, false)
  }

  function Mirror(o: Watch, chunk: bytes): Watch {
    if o.parsed then o else o.(mirror := o.mirror + chunk)
  }

  /** Reads the mirror once and releases it. */
  function ReadOnce(declared: (bytes, Option<bytes>) -> Option<bytes>, o: Watch): Watch {
    if o.parsed then o else o.(mirror := [], effort := declared(o.mirror, o.encoding), parsed := true)
  }

  /** The same object as code: the mutex makes each call one step. */
  class RequestEffort {
    const encoding: Option<bytes>
    var mirror: bytes
    var effort: Option<bytes>
    var parsed: bool

    function State(): Watch
      reads this
    {
      Watch(encoding, mirror, effort, parsed)
    }

    constructor (encoding: Option<bytes>)
      ensures State() == New(encoding)
    {
      this.encoding := encoding;
      mirror, effort, parsed := [], None, false;
    }

    method Observe(chunk: bytes)
      modifies this
      ensures State() == Mirror(old(State()), chunk)
    {
      if parsed {
        return;
      }
      mirror := mirror + chunk;
    }

    method FinishOnce(declared: (bytes, Option<bytes>) -> Option<bytes>)
      modifies this
      ensures State() == ReadOnce(declared, old(State()))
    {
      if parsed {
        return;
      }
      parsed := true;
      var taken := mirror;
      mirror := [];
      effort := declared(taken, encoding);
    }
  }

  // ---------------------------------------------------------------- the race

  /** What the two sides do to the shared observer, in the order the mutex gives. */
  datatype Call = Chunk(data: bytes) | Done

  function Apply(declared: (bytes, Option<bytes>) -> Option<bytes>, o: Watch, calls: seq<Call>): Watch {
    if calls == [] then o
    else
      var before := Apply(declared, o, calls[..|calls| - 1]);
      match calls[|calls| - 1]
      case Chunk(data) => Mirror(before, data)
      case Done => ReadOnce(declared, before)
  }

  /** The request bytes handed on: every chunk, whether observed or not. */
  function Forwarded(calls: seq<Call>): bytes {
    if calls == [] then []
    else
      Forwarded(calls[..|calls| - 1]) + if calls[|calls| - 1].Chunk? then calls[|calls| - 1].data else []
  }

  /** The first `finish`, or the end of the run. */
  function FirstDone(calls: seq<Call>): (i: nat)
    ensures i <= |calls|
    ensures forall j :: 0 <= j < i ==> calls[j].Chunk?
    ensures i < |calls| ==> calls[i].Done?
  {
    if calls == [] then 0
    else
      var i := FirstDone(calls[..|calls| - 1]);
      if i < |calls| - 1 then i
      else if calls[|calls| - 1].Done? then |calls| - 1
      else |calls|
  }

  /** On every interleaving the first finish decides: the effort is that of the
      bytes forwarded before it, and nothing later changes effort or mirror. */
  lemma {:induction false} FirstFinishDecides(declared: (bytes, Option<bytes>) -> Option<bytes>, encoding: Option<bytes>, calls: seq<Call>)
    ensures var o := Apply(declared, New(encoding), calls); var i := FirstDone(calls);
      if i == |calls| then o == Watch(encoding, Forwarded(calls), None, false)
      else o == Watch(encoding, [], declared(Forwarded(calls[..i]), encoding), true)
  {
    if calls != [] {
      var n := |calls| - 1;
      var rest := calls[..n];
      FirstFinishDecides(declared, encoding, rest);
      var i := FirstDone(rest);
      if i < n {
        assert rest[..i] == calls[..i];
      } else {
        assert calls[..n] == rest;
      }
    }
  }
}
