/** Comma-separated header values. */
module HeaderText {
  import opened Bytes

  /** Splits at commas. */
  function Tokens(value: bytes): (r: seq<bytes>)
    ensures r != []
  {
    if value == [] then [[]]
    else
      var rest := Tokens(value[1..]);
      if value[0] == ',' then [[]] + rest
      else [[value[0]] + rest[0]] + rest[1..]
  }

  predicate IsBlank(b: byte) {
    b == ' ' || 9 <= b as int <= 13
  }

  function TrimStart(t: bytes): bytes {
    if t != [] && IsBlank(t[0]) then TrimStart(t[1..]) else t
  }

  function TrimEnd(t: bytes): bytes {
    if t != [] && IsBlank(t[|t| - 1]) then TrimEnd(t[..|t| - 1]) else t
  }

  function Lower(t: bytes): bytes {
    if t == [] then [] else [if 'A' <= t[0] <= 'Z' then Byte(t[0] as int + 32) else t[0]] + Lower(t[1..])
  }

  function Normal(token: bytes): bytes {
    Lower(TrimEnd(TrimStart(token)))
  }

  // ---------------------------------------------------------------- what these mean

  function Commas(tokens: seq<bytes>): bytes {
    if tokens == [] then []
    else if |tokens| == 1 then tokens[0]
    else tokens[0] + [','] + Commas(tokens[1..])
  }

  lemma CommasCons(b: byte, t: bytes, rest: seq<bytes>)
    ensures Commas([[b] + t] + rest) == [b] + Commas([t] + rest)
  {
    assert ([[b] + t] + rest)[1..] == rest && ([t] + rest)[1..] == rest;
    if rest != [] {
      assert ([b] + t) + [','] + Commas(rest) == [b] + (t + [','] + Commas(rest));
    }
  }

  /** The tokens are the value cut at its commas. */
  lemma {:induction false} TokensAreCut(value: bytes)
    ensures Commas(Tokens(value)) == value
    ensures forall i :: 0 <= i < |Tokens(value)| ==> ',' !in Tokens(value)[i]
  {
    if value != [] {
      var rest := Tokens(value[1..]);
      TokensAreCut(value[1..]);
      if value[0] == ',' {
        assert Tokens(value)[1..] == rest;
        assert [] + [','] + Commas(rest) == [','] + Commas(rest);
      } else {
        assert rest == [rest[0]] + rest[1..];
        CommasCons(value[0], rest[0], rest[1..]);
      }
    }
  }

  predicate Blanks(t: bytes) {
    forall i :: 0 <= i < |t| ==> IsBlank(t[i])
  }

  lemma {:induction false} TrimStartCuts(t: bytes) returns (lead: bytes)
    ensures t == lead + TrimStart(t) && Blanks(lead)
    ensures TrimStart(t) != [] ==> !IsBlank(TrimStart(t)[0])
  {
    lead := [];
    if t != [] && IsBlank(t[0]) {
      lead := TrimStartCuts(t[1..]);
      lead := [t[0]] + lead;
    }
  }

  lemma {:induction false} TrimEndCuts(t: bytes) returns (tail: bytes)
    ensures t == TrimEnd(t) + tail && Blanks(tail)
    ensures TrimEnd(t) != [] ==> !IsBlank(TrimEnd(t)[|TrimEnd(t)| - 1])
  {
    tail := [];
    if t != [] && IsBlank(t[|t| - 1]) {
      tail := TrimEndCuts(t[..|t| - 1]);
      tail := tail + [t[|t| - 1]];
    }
  }

  lemma {:induction false} LowerAt(t: bytes)
    ensures |Lower(t)| == |t|
    ensures forall i :: 0 <= i < |t| ==> Lower(t)[i] as int == t[i] as int + if 'A' <= t[i] <= 'Z' then 32 else 0
  {
    if t != [] {
      LowerAt(t[1..]);
    }
  }

  /** A token's normal form is what stands between its blanks, in lower case. */
  lemma NormalIs(token: bytes) returns (lead: bytes, core: bytes, tail: bytes)
    ensures token == lead + core + tail && Blanks(lead) && Blanks(tail)
    ensures core != [] ==> !IsBlank(core[0]) && !IsBlank(core[|core| - 1])
    ensures |Normal(token)| == |core|
    ensures forall i :: 0 <= i < |core| ==> Normal(token)[i] as int == core[i] as int + if 'A' <= core[i] <= 'Z' then 32 else 0
  {
    lead := TrimStartCuts(token);
    tail := TrimEndCuts(TrimStart(token));
    core := TrimEnd(TrimStart(token));
    LowerAt(core);
    assert core != [] ==> core[0] == TrimStart(token)[0];
  }
}
