/** Sums over records and over groups of records. */
module Sums {

  /** The total weight of a sequence. */
  function Weigh<T>(w: T -> nat, xs: seq<T>): nat {
    if xs == [] then 0 else Weigh(w, xs[..|xs| - 1]) + w(xs[|xs| - 1])
  }

  lemma WeighSnoc<T>(w: T -> nat, xs: seq<T>, x: T)
    ensures Weigh(w, xs + [x]) == Weigh(w, xs) + w(x)
  {
    assert (xs + [x])[..|xs|] == xs;
  }

  lemma {:induction false} WeighAppend<T>(w: T -> nat, a: seq<T>, b: seq<T>)
    ensures Weigh(w, a + b) == Weigh(w, a) + Weigh(w, b)
    decreases b
  {
    if b == [] {
      assert a + b == a;
    } else {
      var n := |b| - 1;
      WeighAppend(w, a, b[..n]);
      assert (a + b)[..|a + b| - 1] == a + b[..n];
    }
  }

  lemma Without<T>(xs: seq<T>, i: nat)
    requires i < |xs|
    ensures multiset(xs[..i] + xs[i + 1..]) == multiset(xs) - multiset{xs[i]}
  {
    assert xs == xs[..i] + ([xs[i]] + xs[i + 1..]);
    assert multiset(xs) == multiset(xs[..i]) + multiset([xs[i]] + xs[i + 1..]);
    assert multiset([xs[i]] + xs[i + 1..]) == multiset{xs[i]} + multiset(xs[i + 1..]);
  }

  lemma Occurs<T>(x: T, xs: seq<T>) returns (i: nat)
    requires x in multiset(xs)
    ensures i < |xs| && xs[i] == x
  {
    i :| 0 <= i < |xs| && xs[i] == x;
  }

  /** Where the first element of `a` stands in a permutation of it. */
  lemma FirstElsewhere<T>(a: seq<T>, b: seq<T>) returns (i: nat)
    requires multiset(a) == multiset(b) && a != []
    ensures i < |b| && b[i] == a[0] && multiset(a[1..]) == multiset(b[..i] + b[i + 1..])
  {
    Tail(a);
    i := Occurs(a[0], b);
    Without(b, i);
  }

  lemma Tail<T>(xs: seq<T>)
    requires xs != []
    ensures xs[0] in multiset(xs) && multiset(xs[1..]) == multiset(xs) - multiset{xs[0]}
  {
    assert xs == [xs[0]] + xs[1..];
    assert multiset(xs) == multiset{xs[0]} + multiset(xs[1..]);
  }

  lemma {:induction false} WeighWithout<T>(w: T -> nat, xs: seq<T>, i: nat)
    requires i < |xs|
    ensures Weigh(w, xs) == Weigh(w, xs[..i] + xs[i + 1..]) + w(xs[i])
  {
    var a, b := xs[..i], xs[i + 1..];
    assert xs == (a + [xs[i]]) + b;
    WeighAppend(w, a + [xs[i]], b);
    WeighSnoc(w, a, xs[i]);
    WeighAppend(w, a, b);
  }

  /** Order does not matter. */
  lemma {:induction false} WeighPermutation<T>(w: T -> nat, a: seq<T>, b: seq<T>)
    requires multiset(a) == multiset(b)
    ensures Weigh(w, a) == Weigh(w, b)
    decreases |a|
  {
    if a == [] {
      assert |multiset(b)| == |b|;
    } else {
      var i := FirstElsewhere(a, b);
      WeighPermutation(w, a[1..], b[..i] + b[i + 1..]);
      assert a[..0] + a[1..] == a[1..];
      WeighWithout(w, a, 0);
      WeighWithout(w, b, i);
    }
  }

  /** Weights that agree on every element give the same total. */
  lemma {:induction false} WeighSame<T>(v: T -> nat, w: T -> nat, xs: seq<T>)
    requires forall i :: 0 <= i < |xs| ==> v(xs[i]) == w(xs[i])
    ensures Weigh(v, xs) == Weigh(w, xs)
  {
    if xs != [] {
      WeighSame(v, w, xs[..|xs| - 1]);
    }
  }

  lemma {:induction false} WeighAtMost<T>(v: T -> nat, w: T -> nat, xs: seq<T>)
    requires forall i :: 0 <= i < |xs| ==> v(xs[i]) <= w(xs[i])
    ensures Weigh(v, xs) <= Weigh(w, xs)
  {
    if xs != [] {
      WeighAtMost(v, w, xs[..|xs| - 1]);
    }
  }

  lemma {:induction false} WeighSplit<T>(v: T -> nat, a: T -> nat, b: T -> nat, c: T -> nat, xs: seq<T>)
    requires forall i :: 0 <= i < |xs| ==> v(xs[i]) == a(xs[i]) + b(xs[i]) + c(xs[i])
    ensures Weigh(v, xs) == Weigh(a, xs) + Weigh(b, xs) + Weigh(c, xs)
  {
    if xs != [] {
      WeighSplit(v, a, b, c, xs[..|xs| - 1]);
    }
  }

  lemma {:induction false} WeighPositive<T>(w: T -> nat, xs: seq<T>)
    ensures Weigh(w, xs) > 0 <==> exists i :: 0 <= i < |xs| && w(xs[i]) > 0
  {
    if xs != [] {
      var n := |xs| - 1;
      WeighPositive(w, xs[..n]);
      assert forall i :: 0 <= i < n ==> xs[..n][i] == xs[i];
    }
  }

  // ---------------------------------------------------------------- over keys

  ghost function SumKeys<K(!new)>(ks: set<K>, f: K -> nat): nat {
    if ks == {} then 0
    else
      var k :| k in ks;
      f(k) + SumKeys(ks - {k}, f)
  }

  lemma {:induction false} SumKeysRemove<K(!new)>(ks: set<K>, k: K, f: K -> nat)
    requires k in ks
    ensures SumKeys(ks, f) == f(k) + SumKeys(ks - {k}, f)
    decreases ks
  {
    var p :| p in ks && SumKeys(ks, f) == f(p) + SumKeys(ks - {p}, f);
    if p != k {
      SumKeysRemove(ks - {p}, k, f);
      SumKeysRemove(ks - {k}, p, f);
      assert ks - {p} - {k} == ks - {k} - {p};
    }
  }

  lemma {:induction false} SumKeysSame<K(!new)>(ks: set<K>, f: K -> nat, g: K -> nat)
    requires forall k :: k in ks ==> f(k) == g(k)
    ensures SumKeys(ks, f) == SumKeys(ks, g)
    decreases ks
  {
    if ks != {} {
      var k :| k in ks;
      SumKeysRemove(ks, k, f);
      SumKeysRemove(ks, k, g);
      SumKeysSame(ks - {k}, f, g);
    }
  }

  /** Changing one key's value by `d` changes the sum by `d`. */
  lemma SumKeysBump<K(!new)>(ks: set<K>, k: K, f: K -> nat, g: K -> nat, d: nat)
    requires k in ks && g(k) == f(k) + d && forall j :: j in ks && j != k ==> f(j) == g(j)
    ensures SumKeys(ks, g) == SumKeys(ks, f) + d
  {
    SumKeysRemove(ks, k, f);
    SumKeysRemove(ks, k, g);
    SumKeysSame(ks - {k}, f, g);
  }

  function Min(a: nat, b: nat): nat {
    if a <= b then a else b
  }

  /** Capping every group before adding does not change the capped total. */
  lemma {:induction false} CapAfterSum<K(!new)>(ks: set<K>, f: K -> nat, cap: nat)
    ensures Min(cap, SumKeys(ks, k => Min(cap, f(k)))) == Min(cap, SumKeys(ks, f))
    decreases ks
  {
    if ks != {} {
      var k :| k in ks;
      SumKeysRemove(ks, k, f);
      SumKeysRemove(ks, k, k => Min(cap, f(k)));
      CapAfterSum(ks - {k}, f, cap);
    }
  }

  /** Grouping by any key: the groups' weights add up to the whole. */
  lemma {:induction false} GroupedWeight<T(!new), K(!new)>(ks: set<K>, key: T -> K, w: T -> nat, xs: seq<T>)
    requires forall i :: 0 <= i < |xs| && w(xs[i]) > 0 ==> key(xs[i]) in ks
    ensures SumKeys(ks, k => Weigh(Under(key, k, w), xs)) == Weigh(w, xs)
    decreases xs
  {
    if xs == [] {
      AllZero(ks, k => Weigh(Under(key, k, w), xs));
    } else {
      var n := |xs| - 1;
      var x, rest := xs[n], xs[..n];
      GroupedWeight(ks, key, w, rest);
      var f := k => Weigh(Under(key, k, w), rest);
      var g := k => Weigh(Under(key, k, w), xs);
      if w(x) == 0 {
        SumKeysSame(ks, f, g);
      } else {
        SumKeysBump(ks, key(x), f, g, w(x));
      }
    }
  }

  lemma {:induction false} AllZero<K(!new)>(ks: set<K>, f: K -> nat)
    requires forall k :: k in ks ==> f(k) == 0
    ensures SumKeys(ks, f) == 0
    decreases ks
  {
    if ks != {} {
      var k :| k in ks;
      SumKeysRemove(ks, k, f);
      AllZero(ks - {k}, f);
    }
  }

  /** The weight of an element if it falls under a key, else nothing. */
  ghost function Under<T(!new), K(!new)>(key: T -> K, k: K, w: T -> nat): T -> nat {
    x => if key(x) == k then w(x) else 0
  }
}
