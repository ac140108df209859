/** Sequences as multisets: taking one element out, and repetitions. */
module Sequences {
  function Without<T>(xs: seq<T>, i: nat): seq<T>
    requires i < |xs|
  {
    xs[..i] + xs[i + 1..]
  }

  lemma WithoutOne<T>(xs: seq<T>, i: nat)
    requires i < |xs|
    ensures multiset(Without(xs, i)) == multiset(xs) - multiset{xs[i]}
    ensures xs == xs[..i] + [xs[i]] + xs[i + 1..]
  {
    assert xs == xs[..i] + ([xs[i]] + xs[i + 1..]);
  }

  /** The same elements with the last of one removed from both. */
  lemma MatchLast<T>(xs: seq<T>, ys: seq<T>) returns (i: nat)
    requires multiset(xs) == multiset(ys) && xs != []
    ensures i < |ys| && ys[i] == xs[|xs| - 1] && multiset(xs[..|xs| - 1]) == multiset(Without(ys, i))
    ensures xs == xs[..|xs| - 1] + [ys[i]] && ys == ys[..i] + [ys[i]] + ys[i + 1..]
  {
    var n := |xs| - 1;
    assert xs[n] in multiset(xs) && xs[n] in ys;
    i :| 0 <= i < |ys| && ys[i] == xs[n];
    WithoutOne(ys, i);
    WithoutOne(xs, n);
    assert Without(xs, n) == xs[..n];
  }

  lemma EmptyMatch<T>(ys: seq<T>)
    requires multiset(ys) == multiset{}
    ensures ys == []
  {
    assert |multiset(ys)| == |ys|;
  }

  predicate NoRepeats<T(==)>(xs: seq<T>) {
    forall i, j | 0 <= i < j < |xs| :: xs[i] != xs[j]
  }

  lemma DistinctByMembers<T>(xs: seq<T>, ys: seq<T>)
    requires forall i, j | 0 <= i < j < |xs| :: xs[i] != xs[j]
    requires forall i, j | 0 <= i < j < |ys| :: ys[i] != ys[j]
    requires forall x :: x in xs <==> x in ys
    ensures multiset(xs) == multiset(ys)
  {
    AtMostOnce(xs);
    AtMostOnce(ys);
    forall x ensures multiset(xs)[x] == multiset(ys)[x] {
      assert x in multiset(xs) <==> x in xs;
      assert x in multiset(ys) <==> x in ys;
    }
  }

  lemma {:induction false} AtMostOnce<T>(xs: seq<T>)
    requires forall i, j | 0 <= i < j < |xs| :: xs[i] != xs[j]
    ensures forall x :: multiset(xs)[x] <= 1
    decreases |xs|
  {
    if xs != [] {
      var n := |xs| - 1;
      AtMostOnce(xs[..n]);
      assert xs == xs[..n] + [xs[n]];
      assert xs[n] !in xs[..n];
      assert xs[n] !in multiset(xs[..n]);
    }
  }

  lemma RepeatIsSeen<T>(xs: seq<T>)
    ensures (forall i, j | 0 <= i < j < |xs| :: xs[i] != xs[j]) <==> forall x :: multiset(xs)[x] <= 1
  {
    if forall i, j | 0 <= i < j < |xs| :: xs[i] != xs[j] { AtMostOnce(xs); }
    forall i, j | 0 <= i < j < |xs| && xs[i] == xs[j] ensures multiset(xs)[xs[i]] > 1 {
      WithoutOne(xs, j);
      assert Without(xs, j)[i] == xs[i];
      assert xs[i] in multiset(Without(xs, j));
    }
  }

  lemma NoRepeatsPermutes<T>(xs: seq<T>, ys: seq<T>)
    requires multiset(xs) == multiset(ys)
    ensures NoRepeats(xs) <==> NoRepeats(ys)
  {
    RepeatIsSeen(xs);
    RepeatIsSeen(ys);
  }
}
