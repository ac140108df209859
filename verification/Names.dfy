/** Sorting names, as Python's sorted does: by code points. */
module Names {
  import opened Json
  import opened Canonical
  import opened Sequences

  function InsertName(n: string, ns: seq<string>): seq<string> {
    if ns == [] then [n] else if KeyLess(ns[0], n) then [ns[0]] + InsertName(n, ns[1..]) else [n] + ns
  }

  function SortNames(ns: seq<string>): seq<string> {
    if ns == [] then [] else InsertName(ns[0], SortNames(ns[1..]))
  }

  lemma {:induction false} InsertKeepsNames(n: string, ns: seq<string>)
    ensures multiset(InsertName(n, ns)) == multiset(ns) + multiset{n}
  {
    hide KeyLess;
    if ns != [] {
      assert ns == [ns[0]] + ns[1..];
      InsertKeepsNames(n, ns[1..]);
    }
  }

  lemma {:induction false} SortKeepsNames(ns: seq<string>)
    ensures multiset(SortNames(ns)) == multiset(ns)
  {
    if ns != [] {
      assert ns == [ns[0]] + ns[1..];
      SortKeepsNames(ns[1..]);
      InsertKeepsNames(ns[0], SortNames(ns[1..]));
    }
  }

  /** Which of two names is inserted first makes no difference. */
  lemma {:induction false} InsertsCommute(m: string, n: string, ns: seq<string>)
    ensures InsertName(m, InsertName(n, ns)) == InsertName(n, InsertName(m, ns))
  {
    KeyLessTotal(m, n);
    KeyLessIrreflexive(m);
    if KeyLess(m, n) && KeyLess(n, m) { KeyLessTransitive(m, n, m); }
    if ns != [] {
      Trichotomy(m, n, ns[0]);
      InsertsCommute(m, n, ns[1..]);
      hide KeyLess;
      assert forall x: string, r: seq<string> :: ([x] + r)[1..] == r;
    }
  }

  /** How two names can lie around a third. */
  lemma Trichotomy(m: string, n: string, x: string)
    ensures KeyLess(x, m) && !KeyLess(x, n) ==> KeyLess(n, m) || n == m
    ensures KeyLess(x, n) && !KeyLess(x, m) ==> KeyLess(m, n) || n == m
    ensures KeyLess(x, m) && KeyLess(m, n) ==> KeyLess(x, n)
    ensures KeyLess(x, n) && KeyLess(n, m) ==> KeyLess(x, m)
    ensures KeyLess(m, n) ==> !KeyLess(n, m)
  {
    KeyLessTotal(x, n);
    KeyLessTotal(x, m);
    KeyLessTotal(m, n);
    KeyLessIrreflexive(m);
    if KeyLess(x, m) && KeyLess(m, n) { KeyLessTransitive(x, m, n); }
    if KeyLess(x, n) && KeyLess(n, m) { KeyLessTransitive(x, n, m); }
    if KeyLess(n, x) && KeyLess(x, m) { KeyLessTransitive(n, x, m); }
    if KeyLess(m, x) && KeyLess(x, n) { KeyLessTransitive(m, x, n); }
    if KeyLess(m, n) && KeyLess(n, m) { KeyLessTransitive(m, n, m); }
  }

  lemma {:induction false} SortMiddle(a: seq<string>, n: string, b: seq<string>)
    ensures SortNames(a + [n] + b) == InsertName(n, SortNames(a + b))
    decreases |a|
  {
    if a == [] {
      assert a + [n] + b == [n] + b && a + b == b;
    } else {
      assert (a + [n] + b)[1..] == a[1..] + [n] + b && (a + b)[1..] == a[1..] + b;
      SortMiddle(a[1..], n, b);
      InsertsCommute(a[0], n, SortNames(a[1..] + b));
    }
  }

  /** Sorting forgets the order: two lists sort alike exactly when they hold the same names equally often. */
  lemma {:induction false} SortForgetsOrder(xs: seq<string>, ys: seq<string>)
    ensures SortNames(xs) == SortNames(ys) <==> multiset(xs) == multiset(ys)
    decreases |xs|
  {
    SortKeepsNames(xs);
    SortKeepsNames(ys);
    hide SortNames, InsertName;
    if multiset(xs) == multiset(ys) {
      if xs == [] {
        EmptyMatch(ys);
      } else {
        var i := MatchLast(xs, ys);
        SortForgetsOrder(xs[..|xs| - 1], Without(ys, i));
        SortMiddle(xs[..|xs| - 1], ys[i], []);
        SortMiddle(ys[..i], ys[i], ys[i + 1..]);
        assert xs[..|xs| - 1] + [ys[i]] + [] == xs && xs[..|xs| - 1] + [] == xs[..|xs| - 1];
      }
    }
  }
}
