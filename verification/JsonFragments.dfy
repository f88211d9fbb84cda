/** Object texts that are cut short, and texts appended to such a cut. */
module JsonFragments {
  import opened Bytes
  import opened Json

  /** Inside at least one open container. */
  predicate Inside(s: State) {
    s.At? && s.stack != Bottom
  }

  predicate IsDone(s: State) {
    s.At? && s.stack == Bottom && s.mode.Done?
  }

  lemma InsideStep(s: State, b: byte)
    requires s.Fail? || Inside(s) || IsDone(s)
    ensures Step(s, b).Fail? || Inside(Step(s, b)) || IsDone(Step(s, b))
  {
  }

  lemma {:induction false} InsideRun(s: State, text: bytes)
    requires s.Fail? || Inside(s) || IsDone(s)
    ensures Run(s, text).Fail? || Inside(Run(s, text)) || IsDone(Run(s, text))
    decreases text
  {
    if text != [] {
      InsideStep(s, text[0]);
      InsideRun(Step(s, text[0]), text[1..]);
    }
  }

  /** Once the top-level value has ended, only white space may follow. */
  lemma {:induction false} DoneRun(s: State, text: bytes)
    requires IsDone(s) && text != [] && !IsSpace(text[|text| - 1])
    ensures Run(s, text) == Fail
    decreases text
  {
    if IsSpace(text[0]) {
      DoneRun(s, text[1..]);
    } else {
      FailStays(text[1..]);
    }
  }

  /** The text of one object, without white space around it. */
  predicate IsObjectText(t: bytes) {
    |t| > 1 && t[0] == '{' && t[|t| - 1] == '}' && IsDone(Run(Init, t))
  }

  /** A proper prefix of an object text leaves a container open. */
  lemma ProperPrefixInside(t: bytes, n: nat)
    requires IsObjectText(t) && 0 < n < |t|
    ensures Inside(Run(Init, t[..n]))
  {
    var a, b := t[..n], t[n..];
    assert t == a + b;
    RunAppend(Init, a, b);
    assert a == [t[0]] + a[1..];
    RunCons(Init, t[0], a[1..]);
    InsideRun(Step(Init, t[0]), a[1..]);
    if Run(Init, a).Fail? {
      FailStays(b);
    } else if IsDone(Run(Init, a)) {
      DoneRun(Run(Init, a), b);
    }
  }

  lemma NoProperPrefixParses(t: bytes, n: nat)
    requires IsObjectText(t) && n < |t|
    ensures Parse(t[..n]) == None
  {
    if n > 0 {
      ProperPrefixInside(t, n);
    }
  }

  // ---------------------------------------------------------------- lifting

  function LiftStack(k: Stack, base: Stack): Stack {
    match k
    case Bottom => base
    case ArrFrame(items, below) => ArrFrame(items, LiftStack(below, base))
    case ObjFrame(members, key, below) => ObjFrame(members, key, LiftStack(below, base))
  }

  /** The same progress made where a value was due inside the containers `base`. */
  function Lift(s: State, base: Stack): State {
    if s.Fail? then Fail
    else if IsDone(s) then Close(base, s.mode.v)
    else At(LiftStack(s.stack, base), s.mode)
  }

  lemma LiftClose(k: Stack, v: Json, base: Stack)
    ensures Close(LiftStack(k, base), v) == Lift(Close(k, v), base)
  {
  }

  lemma LiftAfter(k: Stack, base: Stack, b: byte)
    requires k != Bottom
    ensures StepAfter(LiftStack(k, base), b) == Lift(StepAfter(k, b), base)
  {
    if k.ArrFrame? {
      LiftClose(k.below, Arr(k.items), base);
    } else {
      LiftClose(k.below, Obj(k.members), base);
    }
  }

  lemma LiftStep(s: State, base: Stack, b: byte)
    requires Inside(s)
    ensures Step(Lift(s, base), b) == Lift(Step(s, b), base)
  {
    var k := s.stack;
    match s.mode {
      case InStr(_, acc, _) => LiftClose(k, Str(acc), base);
      case InNum(raw, _) =>
        LiftClose(k, Num(raw), base);
        LiftAfter(Close(k, Num(raw)).stack, base, b);
      case InLit(_, v) => LiftClose(k, v, base);
      case FirstItem =>
        if k.ArrFrame? {
          LiftClose(k.below, Arr(k.items), base);
        }
      case FirstKey =>
        if k.ObjFrame? {
          LiftClose(k.below, Obj(k.members), base);
        }
      case After => LiftAfter(k, base, b);
      case _ =>
    }
  }

  lemma {:induction false} LiftRun(s: State, base: Stack, t: bytes)
    requires Inside(s)
    requires forall n :: 0 <= n < |t| ==> Inside(Run(s, t[..n]))
    ensures Run(Lift(s, base), t) == Lift(Run(s, t), base)
    decreases t
  {
    if t != [] {
      LiftStep(s, base, t[0]);
      var s1 := Step(s, t[0]);
      if |t| > 1 {
        assert t[..1] == [t[0]] && Run(s, t[..1]) == s1 by {
          RunCons(s, t[0], []);
          assert [t[0]] + [] == [t[0]];
        }
        forall n | 0 <= n < |t| - 1 ensures Inside(Run(s1, t[1..][..n])) {
          assert t[..n + 1] == [t[0]] + t[1..][..n];
          RunCons(s, t[0], t[1..][..n]);
        }
        LiftRun(s1, base, t[1..]);
      }
    }
  }

  // ---------------------------------------------------------------- gluing

  /** A record text opens with a brace, a quote and a letter that starts no token. */
  predicate OpensLikeRecord(t: bytes) {
    |t| > 2 && t[0] == '{' && t[1] == '"' && t[2] == 's'
  }

  lemma InsideString(s: State, g: bytes)
    requires Inside(s) && s.mode.InStr? && g != []
    requires g[0] == '{' && (|g| > 1 ==> g[1] == '"') && (|g| > 2 ==> g[2] == 's')
    ensures Run(s, g).Fail? || Inside(Run(s, g))
  {
    var s1 := Step(s, g[0]);
    assert g == [g[0]] + g[1..];
    RunCons(s, g[0], g[1..]);
    if s1.Fail? {
      FailStays(g[1..]);
    } else if |g| > 1 {
      assert s1.mode.InStr? && s1.mode.str.Plain?;
      var s2 := Step(s1, g[1]);
      assert g[1..] == [g[1]] + g[2..];
      RunCons(s1, g[1], g[2..]);
      assert Inside(s2);
      if |g| > 2 {
        assert g[2..] == [g[2]] + g[3..];
        RunCons(s2, g[2], g[3..]);
        assert Step(s2, g[2]) == Fail;
        FailStays(g[3..]);
      }
    }
  }

  /** Whatever part of a record text follows an open container, the container
      stays open or the parse has failed. */
  lemma GluedInside(s: State, t: bytes, n: nat)
    requires Inside(s) && IsObjectText(t) && OpensLikeRecord(t) && n <= |t|
    ensures Run(s, t[..n]).Fail? || Inside(Run(s, t[..n]))
  {
    var g := t[..n];
    if n > 0 {
      if s.mode.InStr? {
        InsideString(s, g);
      } else {
        assert g == [t[0]] + g[1..];
        RunCons(s, t[0], g[1..]);
        if Step(s, t[0]).Fail? {
          FailStays(g[1..]);
        } else {
          var entered := Step(Init, t[0]);
          assert entered == At(ObjFrame([], [], Bottom), FirstKey);
          assert s.mode.Value? || s.mode.FirstItem?;
          assert Lift(entered, s.stack) == At(ObjFrame([], [], LiftStack(Bottom, s.stack)), FirstKey);
          forall i | 0 <= i < |g[1..]| ensures Inside(Run(entered, g[1..][..i])) {
            ProperPrefixInside(t, i + 1);
            assert t[..i + 1] == [t[0]] + g[1..][..i];
            RunCons(Init, t[0], g[1..][..i]);
          }
          LiftRun(entered, s.stack, g[1..]);
          InsideRun(entered, g[1..]);
          LiftInside(Run(entered, g[1..]), s.stack);
        }
      }
    }
  }

  lemma LiftInside(s: State, base: Stack)
    requires base != Bottom && (s.Fail? || Inside(s) || IsDone(s))
    ensures Lift(s, base).Fail? || Inside(Lift(s, base))
  {
  }

  /** Any part of a record text after a complete one is an error at once. */
  lemma GluedAfterDone(s: State, t: bytes, n: nat)
    requires IsDone(s) && OpensLikeRecord(t) && 0 < n <= |t|
    ensures Run(s, t[..n]) == Fail
  {
    FailStays(t[..n][1..]);
  }
}
