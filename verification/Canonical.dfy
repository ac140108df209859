/** Two values have one canonical text exactly when they mean the same. */
module Canonical {
  import opened Json

  lemma KeyLessIrreflexive(a: string)
    ensures !KeyLess(a, a)
  {
  }

  lemma {:induction false} KeyLessTotal(a: string, b: string)
    ensures a == b || KeyLess(a, b) || KeyLess(b, a)
  {
    if a != "" && b != "" && a[0] == b[0] {
      KeyLessTotal(a[1..], b[1..]);
      assert a == [a[0]] + a[1..] && b == [b[0]] + b[1..];
    }
  }

  lemma {:induction false} KeyLessTransitive(a: string, b: string, c: string)
    requires KeyLess(a, b) && KeyLess(b, c)
    ensures KeyLess(a, c)
  {
    if a != "" && a[0] == b[0] == c[0] { KeyLessTransitive(a[1..], b[1..], c[1..]); }
  }

  predicate Sorted(ms: seq<Member>) {
    forall i, j | 0 <= i < j < |ms| :: KeyLess(ms[i].key, ms[j].key)
  }

  function Elements(ms: seq<Member>): set<Member> {
    set m | m in ms
  }

  lemma ElementsOfCons(m: Member, ms: seq<Member>)
    ensures Elements([m] + ms) == {m} + Elements(ms)
  {
    forall x ensures x in Elements([m] + ms) <==> x in {m} + Elements(ms) {
      if x in ms { assert x in [m] + ms; }
    }
  }

  lemma SortedCons(m: Member, ms: seq<Member>)
    requires Sorted(ms) && forall x | x in ms :: KeyLess(m.key, x.key)
    ensures Sorted([m] + ms)
  {
    hide KeyLess;
  }

  lemma SortedRest(ms: seq<Member>)
    requires Sorted(ms) && ms != []
    ensures Sorted(ms[1..]) && forall x | x in ms[1..] :: KeyLess(ms[0].key, x.key)
  {
    hide KeyLess;
    assert forall i | 0 <= i < |ms[1..]| :: ms[1..][i] == ms[i + 1];
  }

  lemma {:induction false} InsertKeepsSorted(m: Member, ms: seq<Member>)
    requires Sorted(ms) && (forall x | x in ms :: x.key != m.key)
    ensures Sorted(Insert(m, ms)) && Elements(Insert(m, ms)) == {m} + Elements(ms)
  {
    hide KeyLess, Sorted, Elements;
    ElementsOfCons(m, ms);
    if ms == [] {
      SortedCons(m, ms);
    } else {
      SortedRest(ms);
      ElementsOfCons(ms[0], ms[1..]);
      assert ms == [ms[0]] + ms[1..];
      if KeyLess(m.key, ms[0].key) {
        forall x | x in ms ensures KeyLess(m.key, x.key) {
          if x != ms[0] { KeyLessTransitive(m.key, ms[0].key, x.key); }
        }
        SortedCons(m, ms);
      } else {
        var r := Insert(m, ms[1..]);
        KeyLessTotal(m.key, ms[0].key);
        InsertKeepsSorted(m, ms[1..]);
        ElementsOfCons(ms[0], r);
        forall x | x in r ensures KeyLess(ms[0].key, x.key) { InElements(x, r); InElements(x, ms[1..]); }
        SortedCons(ms[0], r);
      }
    }
  }

  lemma InElements(x: Member, ms: seq<Member>)
    ensures x in Elements(ms) <==> x in ms
  {
  }

  lemma {:induction false} SortSorts(ms: seq<Member>)
    requires DistinctKeys(ms)
    ensures Sorted(Sort(ms)) && Elements(Sort(ms)) == Elements(ms)
  {
    if ms != [] {
      SortSorts(ms[1..]);
      forall x | x in Sort(ms[1..]) ensures x.key != ms[0].key { assert x in Elements(ms[1..]); }
      InsertKeepsSorted(ms[0], Sort(ms[1..]));
      assert ms == [ms[0]] + ms[1..];
    }
  }

  lemma SortedIsDistinct(ms: seq<Member>)
    requires Sorted(ms)
    ensures DistinctKeys(ms)
  {
    forall i, j | 0 <= i < j < |ms| ensures ms[i].key != ms[j].key { KeyLessIrreflexive(ms[i].key); }
  }

  /** A sorted sequence is determined by its elements. */
  lemma {:induction false} SortedIsUnique(xs: seq<Member>, ys: seq<Member>)
    requires Sorted(xs) && Sorted(ys) && Elements(xs) == Elements(ys)
    ensures xs == ys
  {
    assert xs != [] ==> xs[0] in Elements(xs);
    assert ys != [] ==> ys[0] in Elements(ys);
    if xs != [] {
      SortedHeads(xs, ys);
      SortedTail(xs);
      SortedTail(ys);
      SortedIsUnique(xs[1..], ys[1..]);
      assert xs == [xs[0]] + xs[1..] && ys == [ys[0]] + ys[1..];
    }
  }

  lemma SortedHeads(xs: seq<Member>, ys: seq<Member>)
    requires Sorted(xs) && Sorted(ys) && Elements(xs) == Elements(ys) && xs != [] && ys != []
    ensures xs[0] == ys[0]
  {
    assert ys[0] in Elements(xs) && xs[0] in Elements(ys);
    var i :| 0 <= i < |xs| && xs[i] == ys[0];
    var j :| 0 <= j < |ys| && ys[j] == xs[0];
    if i > 0 && j > 0 {
      KeyLessTransitive(xs[0].key, ys[0].key, xs[0].key);
      KeyLessIrreflexive(xs[0].key);
    }
  }

  lemma SortedTail(xs: seq<Member>)
    requires Sorted(xs) && xs != []
    ensures Sorted(xs[1..]) && Elements(xs[1..]) == Elements(xs) - {xs[0]}
  {
    SortedRest(xs);
    KeyLessIrreflexive(xs[0].key);
    ElementsOfCons(xs[0], xs[1..]);
    InElements(xs[0], xs[1..]);
    assert xs == [xs[0]] + xs[1..];
    hide Sorted, Elements, KeyLess;
  }

  /** What distinct members mean depends only on which members there are. */
  lemma {:induction false} MeaningOfMembers(ms: seq<Member>)
    requires DistinctKeys(ms)
    ensures forall m | m in ms :: m.key in DenoteMembers(ms) && DenoteMembers(ms)[m.key] == Denote(m.value)
    ensures forall k | k in DenoteMembers(ms) :: exists m :: m in ms && m.key == k
  {
    hide Denote;
    if ms != [] {
      MeaningOfMembers(ms[1..]);
      assert ms == [ms[0]] + ms[1..];
      var f := DenoteMembers(ms[1..]);
      forall k | k in f ensures k != ms[0].key { var m :| m in ms[1..] && m.key == k; }
      forall k | k in DenoteMembers(ms) ensures exists m :: m in ms && m.key == k {
        if k == ms[0].key { assert ms[0] in ms; } else { var m :| m in ms[1..] && m.key == k; assert m in ms; }
      }
    }
  }

  /** The pairs of key and meaning: the graph of what distinct members mean. */
  function Graph(ms: seq<Member>): set<(string, Value)> {
    set m | m in ms :: (m.key, Denote(m.value))
  }

  lemma MeaningIsGraph(ms: seq<Member>)
    requires DistinctKeys(ms)
    ensures forall k, v :: (k, v) in Graph(ms) <==> k in DenoteMembers(ms) && DenoteMembers(ms)[k] == v
  {
    hide Denote, DenoteMembers;
    MeaningOfMembers(ms);
    var f := DenoteMembers(ms);
    forall k, v ensures (k, v) in Graph(ms) <==> k in f && f[k] == v {
      if k in f && f[k] == v { var m :| m in ms && m.key == k; assert (m.key, Denote(m.value)) in Graph(ms); }
    }
  }

  lemma SameGraphSameMeaning(xs: seq<Member>, ys: seq<Member>)
    requires DistinctKeys(xs) && DistinctKeys(ys)
    ensures Graph(xs) == Graph(ys) <==> DenoteMembers(xs) == DenoteMembers(ys)
  {
    MeaningIsGraph(xs);
    MeaningIsGraph(ys);
    hide Graph, Denote, DenoteMembers, DistinctKeys;
    var f, g := DenoteMembers(xs), DenoteMembers(ys);
    if Graph(xs) == Graph(ys) {
      forall k | k in f ensures k in g && f[k] == g[k] { assert (k, f[k]) in Graph(xs); }
      forall k | k in g ensures k in f { assert (k, g[k]) in Graph(ys); }
    } else if f == g {
      forall p ensures p in Graph(xs) <==> p in Graph(ys) { assert p == (p.0, p.1); }
    }
  }

  lemma CanonMembersAreDistinct(ms: seq<Member>)
    requires DistinctKeys(ms)
    ensures DistinctKeys(CanonMembers(ms))
  {
  }

  /** Sorting keys keeps the meaning, and no key appears twice afterwards. */
  lemma {:induction false} CanonKeepsMeaning(v: Json)
    requires WellFormed(v)
    ensures Denote(Canon(v)) == Denote(v) && WellFormed(Canon(v))
    decreases v
  {
    match v
    case Arr(items) =>
      forall i | 0 <= i < |items| ensures Denote(Canon(items[i])) == Denote(items[i]) && WellFormed(Canon(items[i])) {
        CanonKeepsMeaning(items[i]);
      }
      assert DenoteItems(CanonItems(items)) == DenoteItems(items);
    case Obj(ms) =>
      var cs := CanonMembers(ms);
      forall i | 0 <= i < |ms| ensures Denote(cs[i].value) == Denote(ms[i].value) && WellFormed(cs[i].value) {
        CanonKeepsMeaning(ms[i].value);
      }
      CanonMembersMeaning(ms);
    case _ =>
  }

  lemma CanonMembersMeaning(ms: seq<Member>)
    requires DistinctKeys(ms)
    requires forall i | 0 <= i < |ms| :: Denote(CanonMembers(ms)[i].value) == Denote(ms[i].value) && WellFormed(CanonMembers(ms)[i].value)
    ensures DenoteMembers(Sort(CanonMembers(ms))) == DenoteMembers(ms) && WellFormed(Obj(Sort(CanonMembers(ms))))
  {
    var cs := CanonMembers(ms);
    var ss := Sort(cs);
    CanonMembersAreDistinct(ms);
    SortSorts(cs);
    SortedIsDistinct(ss);
    forall x | x in ss ensures WellFormed(x.value) { assert x in Elements(cs); }
    CanonGraph(ms);
    SameElementsSameGraph(ss, cs);
    SameGraphSameMeaning(ss, ms);
    hide Denote, DenoteMembers, Sort, Graph, Elements, Sorted;
  }

  lemma SameElementsSameGraph(xs: seq<Member>, ys: seq<Member>)
    requires Elements(xs) == Elements(ys)
    ensures Graph(xs) == Graph(ys)
  {
    hide Denote;
    forall p | p in Graph(xs) ensures p in Graph(ys) { var m :| m in xs && p == (m.key, Denote(m.value)); assert m in Elements(ys); }
    forall p | p in Graph(ys) ensures p in Graph(xs) { var m :| m in ys && p == (m.key, Denote(m.value)); assert m in Elements(xs); }
  }

  lemma InGraph(ms: seq<Member>, i: nat)
    requires i < |ms|
    ensures (ms[i].key, Denote(ms[i].value)) in Graph(ms)
  {
    assert ms[i] in ms;
  }

  lemma GraphIndex(ms: seq<Member>, p: (string, Value)) returns (i: nat)
    requires p in Graph(ms)
    ensures i < |ms| && p == (ms[i].key, Denote(ms[i].value))
  {
    i :| 0 <= i < |ms| && p == (ms[i].key, Denote(ms[i].value));
  }

  lemma CanonGraph(ms: seq<Member>)
    requires forall i | 0 <= i < |ms| :: Denote(CanonMembers(ms)[i].value) == Denote(ms[i].value)
    ensures Graph(CanonMembers(ms)) == Graph(ms)
  {
    hide Denote, Canon, Graph, CanonMembers;
    var cs := CanonMembers(ms);
    forall p ensures p in Graph(cs) <==> p in Graph(ms) {
      if p in Graph(cs) { var i := GraphIndex(cs, p); InGraph(ms, i); }
      if p in Graph(ms) { var i := GraphIndex(ms, p); InGraph(cs, i); }
    }
  }

  /** Values that mean the same become identical once their keys are sorted. */
  lemma {:induction false} MeaningFixesCanon(v: Json, w: Json)
    requires WellFormed(v) && WellFormed(w) && Denote(v) == Denote(w)
    ensures Canon(v) == Canon(w)
    decreases v
  {
    match v
    case Arr(items) =>
      assert |items| == |DenoteItems(items)| == |w.items|;
      forall i | 0 <= i < |items| ensures Canon(items[i]) == Canon(w.items[i]) {
        assert DenoteItems(items)[i] == DenoteItems(w.items)[i];
        MeaningFixesCanon(items[i], w.items[i]);
      }
      assert CanonItems(items) == CanonItems(w.items);
    case Obj(ms) =>
      var ns := w.members;
      forall x, y | x in ms && y in ns && Denote(x.value) == Denote(y.value) ensures Canon(x.value) == Canon(y.value) {
        MeaningFixesCanon(x.value, y.value);
      }
      SameGraphSameMeaning(ms, ns);
      CanonOfMembers(ms, ns);
      CanonOfMembers(ns, ms);
      CanonMembersAreDistinct(ms);
      CanonMembersAreDistinct(ns);
      SortSorts(CanonMembers(ms));
      SortSorts(CanonMembers(ns));
      SortedIsUnique(Sort(CanonMembers(ms)), Sort(CanonMembers(ns)));
    case _ =>
  }

  lemma CanonOfMembers(ms: seq<Member>, ns: seq<Member>)
    requires Graph(ms) == Graph(ns)
    requires forall x, y | x in ms && y in ns && Denote(x.value) == Denote(y.value) :: Canon(x.value) == Canon(y.value)
    ensures Elements(CanonMembers(ms)) <= Elements(CanonMembers(ns))
  {
    hide Denote, Canon, Graph, CanonMembers;
    var cs, ds := CanonMembers(ms), CanonMembers(ns);
    forall c | c in Elements(cs) ensures c in Elements(ds) {
      var i :| 0 <= i < |cs| && cs[i] == c;
      InGraph(ms, i);
      var j := GraphIndex(ns, (ms[i].key, Denote(ms[i].value)));
      assert ms[i] in ms && ns[j] in ns;
      assert ds[j] == c && ds[j] in ds;
    }
  }

  /** The canonical text is unambiguous: texts agree if and only if meanings agree. */
  lemma SameTextIffSameMeaning(v: Json, w: Json)
    requires WellFormed(v) && WellFormed(w)
    ensures CanonicalText(v) == CanonicalText(w) <==> Denote(v) == Denote(w)
  {
    if CanonicalText(v) == CanonicalText(w) {
      LoadsCanonicalText(v);
      LoadsCanonicalText(w);
      CanonKeepsMeaning(v);
      CanonKeepsMeaning(w);
    } else if Denote(v) == Denote(w) {
      MeaningFixesCanon(v, w);
    }
  }

  /** Reading the canonical text gives back a value of the same meaning and the same text. */
  lemma LoadsKeepsMeaning(v: Json)
    requires WellFormed(v)
    ensures
      var r := Loads(CanonicalText(v));
      r.Some? && WellFormed(r.value) && Denote(r.value) == Denote(v) && CanonicalText(r.value) == CanonicalText(v)
  {
    LoadsCanonicalText(v);
    CanonKeepsMeaning(v);
    SameTextIffSameMeaning(Canon(v), v);
  }
}
