/** The header policies (src/lib.rs): which request and response headers cross the
    gateway (section 7.6.1 of RFC 9110). */
module Headers {
  import opened Bytes
  import opened HeaderText

  /** A header field; the name is in lower case, as the HTTP stack keeps it. */
  datatype Header = Header(name: bytes, value: bytes)

  const CONNECTION: bytes := "connection"

  const HOP_NAMES: seq<bytes> := [
    "connection", "keep-alive", "proxy-connection", "proxy-authenticate", "proxy-authorization", "te", "trailer",
    "transfer-encoding", "upgrade"]

  const PRIVATE_NAMES: seq<bytes> := ["host", "cookie", "forwarded", "via", "x-real-ip"]

  predicate IsText(value: bytes) {
    forall i :: 0 <= i < |value| ==> value[i] == '\t' || 32 <= value[i] as int < 127
  }

  /** The names a list of tokens nominates; a token that is no field name matches no field. */
  function Names(tokens: seq<bytes>): set<bytes> {
    if tokens == [] then {} else {Normal(tokens[0])} + Names(tokens[1..])
  }

  /** The names nominated by `Connection` headers whose value is text. */
  function Nominated(headers: seq<Header>): set<bytes> {
    if headers == [] then {}
    else
      (if headers[0].name == CONNECTION && IsText(headers[0].value) then Names(Tokens(headers[0].value)) else {})
      + Nominated(headers[1..])
  }

  predicate HopByHop(name: bytes, nominated: set<bytes>) {
    name in nominated || name in HOP_NAMES
  }

  predicate Private(name: bytes) {
    name in PRIVATE_NAMES || "x-meter-" <= name || "x-forwarded-" <= name
  }

  predicate StripRequest(name: bytes, nominated: set<bytes>) {
    HopByHop(name, nominated) || Private(name)
  }

  predicate StripResponse(name: bytes, nominated: set<bytes>) {
    HopByHop(name, nominated)
  }

  /** The headers a policy keeps, in order. */
  function Keep(headers: seq<Header>, strip: bytes -> bool): seq<Header> {
    if headers == [] then []
    else if strip(headers[|headers| - 1].name) then Keep(headers[..|headers| - 1], strip)
    else Keep(headers[..|headers| - 1], strip) + [headers[|headers| - 1]]
  }

  function RequestPolicy(headers: seq<Header>): bytes -> bool {
    var nominated := Nominated(headers);
    (name: bytes) => StripRequest(name, nominated)
  }

  function ResponsePolicy(headers: seq<Header>): bytes -> bool {
    var nominated := Nominated(headers);
    (name: bytes) => StripResponse(name, nominated)
  }

  function ForwardedRequest(headers: seq<Header>): seq<Header> {
    Keep(headers, RequestPolicy(headers))
  }

  function ForwardedResponse(headers: seq<Header>): seq<Header> {
    Keep(headers, ResponsePolicy(headers))
  }

  /** The copying loop. */
  method Copy(headers: seq<Header>, strip: bytes -> bool) returns (kept: seq<Header>)
    ensures kept == Keep(headers, strip)
  {
    kept := [];
    var i := 0;
    while i < |headers|
      invariant 0 <= i <= |headers|
      invariant kept == Keep(headers[..i], strip)
    {
      assert headers[..i + 1][..i] == headers[..i];
      if !strip(headers[i].name) {
        kept := kept + [headers[i]];
      }
      i := i + 1;
    }
    assert headers[..i] == headers;
  }

  // ---------------------------------------------------------------- order and multiplicity

  /** `a` is `b` with some elements left out. */
  predicate IsSubsequence(a: seq<Header>, b: seq<Header>)
    decreases b
  {
    if a == [] then true
    else if b == [] then false
    else if a[|a| - 1] == b[|b| - 1] then IsSubsequence(a[..|a| - 1], b[..|b| - 1])
    else IsSubsequence(a, b[..|b| - 1])
  }

  lemma {:induction false} DropLast(a: seq<Header>, b: seq<Header>, h: Header)
    requires IsSubsequence(a, b)
    ensures IsSubsequence(a, b + [h])
    decreases b, 1
  {
    assert (b + [h])[..|b|] == b;
    if a != [] && a[|a| - 1] == h {
      Shorter(a, b);
    }
  }

  lemma {:induction false} Shorter(a: seq<Header>, b: seq<Header>)
    requires a != [] && IsSubsequence(a, b)
    ensures IsSubsequence(a[..|a| - 1], b)
    decreases b, 0
  {
    var n := |b| - 1;
    assert b == b[..n] + [b[n]];
    if a[|a| - 1] == b[n] {
      DropLast(a[..|a| - 1], b[..n], b[n]);
    } else {
      Shorter(a, b[..n]);
      DropLast(a[..|a| - 1], b[..n], b[n]);
    }
  }

  lemma {:induction false} KeepInOrder(headers: seq<Header>, strip: bytes -> bool)
    ensures IsSubsequence(Keep(headers, strip), headers)
  {
    if headers != [] {
      var n := |headers| - 1;
      KeepInOrder(headers[..n], strip);
      var k := Keep(headers[..n], strip);
      if strip(headers[n].name) {
        DropLast(k, headers[..n], headers[n]);
        assert headers == headers[..n] + [headers[n]];
      } else {
        assert (k + [headers[n]])[..|k|] == k;
      }
    }
  }

  lemma CountSnoc(s: seq<Header>, x: Header, h: Header)
    ensures multiset(s + [x])[h] == multiset(s)[h] + if x == h then 1 else 0
  {
    assert multiset(s + [x]) == multiset(s) + multiset{x};
  }

  lemma {:induction false} KeepCounts(headers: seq<Header>, strip: bytes -> bool, h: Header)
    ensures multiset(Keep(headers, strip))[h] == if strip(h.name) then 0 else multiset(headers)[h]
  {
    if headers != [] {
      var n := |headers| - 1;
      var x := headers[n];
      KeepCounts(headers[..n], strip, h);
      assert headers == headers[..n] + [x];
      CountSnoc(headers[..n], x, h);
      CountSnoc(Keep(headers[..n], strip), x, h);
    }
  }

  /** Filtering keeps order, and every kept field exactly as often as it came. */
  lemma KeepIsFaithful(headers: seq<Header>, strip: bytes -> bool, h: Header)
    ensures IsSubsequence(Keep(headers, strip), headers)
    ensures multiset(Keep(headers, strip))[h] == if strip(h.name) then 0 else multiset(headers)[h]
  {
    KeepInOrder(headers, strip);
    KeepCounts(headers, strip, h);
  }

  lemma {:induction false} KeptNames(headers: seq<Header>, strip: bytes -> bool)
    ensures forall i :: 0 <= i < |Keep(headers, strip)| ==> !strip(Keep(headers, strip)[i].name)
  {
    if headers != [] {
      KeptNames(headers[..|headers| - 1], strip);
    }
  }

  lemma {:induction false} KeepAll(headers: seq<Header>, strip: bytes -> bool)
    requires forall i :: 0 <= i < |headers| ==> !strip(headers[i].name)
    ensures Keep(headers, strip) == headers
  {
    if headers != [] {
      KeepAll(headers[..|headers| - 1], strip);
    }
  }

  /** Keeping by one policy and then by another is keeping by both. */
  lemma {:induction false} KeepTwice(headers: seq<Header>, p: bytes -> bool, q: bytes -> bool, both: bytes -> bool)
    requires forall name :: both(name) == (p(name) || q(name))
    ensures Keep(Keep(headers, p), q) == Keep(headers, both)
  {
    if headers != [] {
      var n := |headers| - 1;
      KeepTwice(headers[..n], p, q, both);
      var k := Keep(headers[..n], p);
      if !p(headers[n].name) {
        assert (k + [headers[n]])[..|k|] == k;
      }
    }
  }

  // ---------------------------------------------------------------- policies

  lemma {:induction false} NobodyNominates(headers: seq<Header>)
    requires forall i :: 0 <= i < |headers| ==> headers[i].name != CONNECTION
    ensures Nominated(headers) == {}
  {
    if headers != [] {
      NobodyNominates(headers[1..]);
    }
  }

  /** No hop-by-hop header, standard or nominated, crosses the gateway in either
      direction, and what crosses nominates nothing. */
  lemma NoHopCrosses(headers: seq<Header>)
    ensures forall i :: 0 <= i < |ForwardedResponse(headers)| ==> !HopByHop(ForwardedResponse(headers)[i].name, Nominated(headers))
    ensures forall i :: 0 <= i < |ForwardedRequest(headers)| ==> !StripRequest(ForwardedRequest(headers)[i].name, Nominated(headers))
    ensures Nominated(ForwardedResponse(headers)) == {} && Nominated(ForwardedRequest(headers)) == {}
  {
    KeptNames(headers, ResponsePolicy(headers));
    KeptNames(headers, RequestPolicy(headers));
    assert HOP_NAMES[0] == CONNECTION;
    NobodyNominates(ForwardedResponse(headers));
    NobodyNominates(ForwardedRequest(headers));
  }

  /** Passing the policies again changes nothing. */
  lemma PoliciesAreIdempotent(headers: seq<Header>)
    ensures ForwardedResponse(ForwardedResponse(headers)) == ForwardedResponse(headers)
    ensures ForwardedRequest(ForwardedRequest(headers)) == ForwardedRequest(headers)
  {
    NoHopCrosses(headers);
    KeepAll(ForwardedResponse(headers), ResponsePolicy(ForwardedResponse(headers)));
    KeepAll(ForwardedRequest(headers), RequestPolicy(ForwardedRequest(headers)));
  }

  /** The request policy keeps part of what the response policy keeps. */
  lemma RequestWithinResponse(headers: seq<Header>)
    ensures ForwardedRequest(headers) == Keep(ForwardedResponse(headers), Private)
    ensures IsSubsequence(ForwardedRequest(headers), ForwardedResponse(headers))
  {
    KeepTwice(headers, ResponsePolicy(headers), Private, RequestPolicy(headers));
    KeepInOrder(ForwardedResponse(headers), Private);
  }

  // ---------------------------------------------------------------- by name

  /** Some `Connection` header, being text, has the name among its tokens. */
  predicate IsNominated(headers: seq<Header>, name: bytes) {
    exists i, j :: 0 <= i < |headers| && 0 <= j < |Tokens(headers[i].value)|
                   && headers[i].name == "connection" && IsText(headers[i].value) && Normal(Tokens(headers[i].value)[j]) == name
  }

  lemma {:induction false} NamesAre(tokens: seq<bytes>, name: bytes)
    ensures name in Names(tokens) <==> exists j :: 0 <= j < |tokens| && Normal(tokens[j]) == name
  {
    if tokens != [] {
      NamesAre(tokens[1..], name);
      if j :| 0 <= j < |tokens| && Normal(tokens[j]) == name {
        assert j > 0 ==> Normal(tokens[1..][j - 1]) == name;
      }
      if j :| 0 <= j < |tokens| - 1 && Normal(tokens[1..][j]) == name {
        assert Normal(tokens[j + 1]) == name;
      }
    }
  }

  lemma {:induction false} NominatedByName(headers: seq<Header>, name: bytes)
    ensures name in Nominated(headers) <==> IsNominated(headers, name)
  {
    if headers != [] {
      var h, rest := headers[0], headers[1..];
      NominatedByName(rest, name);
      NamesAre(Tokens(h.value), name);
      if i, j :| 0 <= i < |headers| && 0 <= j < |Tokens(headers[i].value)|
                 && headers[i].name == "connection" && IsText(headers[i].value) && Normal(Tokens(headers[i].value)[j]) == name {
        if i > 0 {
          assert rest[i - 1] == headers[i];
          assert IsNominated(rest, name);
        }
      }
      if i, j :| 0 <= i < |rest| && 0 <= j < |Tokens(rest[i].value)|
                 && rest[i].name == "connection" && IsText(rest[i].value) && Normal(Tokens(rest[i].value)[j]) == name {
        assert headers[i + 1] == rest[i];
      }
    }
  }

  predicate IsHop(name: bytes) {
    || name == "connection" || name == "keep-alive" || name == "proxy-connection" || name == "proxy-authenticate"
    || name == "proxy-authorization" || name == "te" || name == "trailer" || name == "transfer-encoding" || name == "upgrade"
  }

  predicate IsPrivate(name: bytes) {
    || name == "host" || name == "cookie" || name == "forwarded" || name == "via" || name == "x-real-ip"
    || "x-meter-" <= name || "x-forwarded-" <= name
  }

  lemma HopByName(name: bytes)
    ensures name in HOP_NAMES <==> IsHop(name)
    ensures Private(name) <==> IsPrivate(name)
  {
    if IsHop(name) {
      assert name == HOP_NAMES[0] || name == HOP_NAMES[1] || name == HOP_NAMES[2] || name == HOP_NAMES[3] || name == HOP_NAMES[4]
          || name == HOP_NAMES[5] || name == HOP_NAMES[6] || name == HOP_NAMES[7] || name == HOP_NAMES[8];
    }
  }

  /** Which fields cross, and how often: all and only those with no hop-by-hop name,
      standard or nominated, and towards the upstream no private one either. */
  lemma CrossesByName(headers: seq<Header>, h: Header)
    ensures multiset(ForwardedResponse(headers))[h]
         == if IsNominated(headers, h.name) || IsHop(h.name) then 0 else multiset(headers)[h]
    ensures multiset(ForwardedRequest(headers))[h]
         == if IsNominated(headers, h.name) || IsHop(h.name) || IsPrivate(h.name) then 0 else multiset(headers)[h]
  {
    NominatedByName(headers, h.name);
    HopByName(h.name);
    KeepCounts(headers, ResponsePolicy(headers), h);
    KeepCounts(headers, RequestPolicy(headers), h);
  }
}
