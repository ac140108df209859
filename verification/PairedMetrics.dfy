/** Offline comparison of frozen runs, paired by every declared field. */
module PairedMetrics {
  import opened Json
  import opened Sealing
  import opened Records
  import opened Numbers
  import opened Sequences

  datatype Metric =
    | Quality | DuplicateWork | BlockRate | Coordination | InputTokens | OutputTokens | TotalTokens
    | Cost | Latency | Completeness | NetValue

  const ALL: set<Metric> := {
    Quality, DuplicateWork, BlockRate, Coordination, InputTokens, OutputTokens, TotalTokens, Cost, Latency, Completeness,
    NetValue
  }
  const TOKENS: set<Metric> := {InputTokens, OutputTokens, TotalTokens}
  const RATIOS: set<Metric> := {Quality, DuplicateWork, BlockRate, Completeness}
  const AMOUNTS: set<Metric> := {Coordination, Cost, Latency}

  lemma AllMetrics(k: Metric)
    ensures k in ALL
  {
  }

  /** A supplied metric: absent, null and NOT_AVAILABLE are one case; Junk is any non-number. */
  datatype Raw = Absent | Number(num: Num) | Junk

  type RawMetrics = map<Metric, Raw>
  type Metrics = map<Metric, Obs>

  function At(m: Metrics, k: Metric): Obs {
    if k in m then m[k] else None
  }

  function Supplied(m: RawMetrics, k: Metric): Raw {
    if k in m then m[k] else Absent
  }

  /** The range checks every supplied metric must pass; None means the code raises. */
  function Checked(k: Metric, r: Raw): Option<Obs> {
    match r
    case Absent => Some(None)
    case Junk => None
    case Number(num) =>
      if k in TOKENS then if num.IntNum? && num.n >= 0 then Some(Some(num)) else None
      else if k in RATIOS && !(0.0 <= num.Val() <= 1.0) then None
      else if k in AMOUNTS && num.Val() < 0.0 then None
      else Some(Some(num))
  }

  /** Metrics other than token counts are turned into floats. */
  function NormalizeMetric(k: Metric, r: Raw): Option<Obs> {
    match Checked(k, r)
    case None => None
    case Some(None) => Some(None)
    case Some(Some(num)) => Some(Some(if k in TOKENS then num else RealNum(num.Val())))
  }

  function NormalizeMetrics(m: RawMetrics): Option<Metrics> {
    if exists k: Metric :: NormalizeMetric(k, Supplied(m, k)).None? then None
    else
      var n: Metrics := map k: Metric | k in ALL :: NormalizeMetric(k, Supplied(m, k)).value;
      var sum, total := Plus(At(n, InputTokens), At(n, OutputTokens)), At(n, TotalTokens);
      if total.None? then Some(n[TotalTokens := sum])
      else if sum.Some? && !Same(total.value, sum.value) then None
      else Some(n)
  }

  /** The pairing fields. */
  datatype Key = Key(
    caseId: string, inputHash: string, goldenRevision: string, budgetHash: string, environmentHash: string, repetition: int)

  datatype Identity = Identity(
    runId: string, profile: string, receipt: Reference, manifest: Reference, oracles: seq<Reference>)

  datatype Run = Run(key: Key, id: Identity, frozen: bool, metrics: RawMetrics)

  /** A validated run. */
  datatype Normal = Normal(key: Key, id: Identity, metrics: Metrics)

  predicate Opaque(c: Scheme, s: string) {
    s != "" && forall i | 0 <= i < |s| :: !c.space(s[i])
  }

  predicate RefOk(c: Scheme, r: Reference) {
    Opaque(c, r.ref) && c.isHash(r.contentHash)
  }

  predicate FieldsOk(c: Scheme, key: Key, id: Identity) {
    && Opaque(c, id.runId) && Opaque(c, key.caseId) && c.isHash(key.inputHash) && Opaque(c, key.goldenRevision)
    && c.isHash(key.budgetHash) && c.isHash(key.environmentHash) && Opaque(c, id.profile) && key.repetition >= 1
    && RefOk(c, id.receipt) && RefOk(c, id.manifest)
    && id.oracles != [] && forall r | r in id.oracles :: RefOk(c, r)
  }

  function ValidateRun(c: Scheme, r: Run): Option<Normal> {
    if !FieldsOk(c, r.key, r.id) || !r.frozen then None
    else match NormalizeMetrics(r.metrics)
      case None => None
      case Some(m) => Some(Normal(r.key, r.id, m))
  }

  predicate HasKey(ns: seq<Normal>, key: Key) {
    exists n | n in ns :: n.key == key
  }

  /** Validated runs in order; None if any run is invalid or any key repeats. */
  function IndexRuns(c: Scheme, runs: seq<Run>): Option<seq<Normal>> {
    if runs == [] then Some([])
    else match IndexRuns(c, runs[..|runs| - 1])
      case None => None
      case Some(ns) =>
        match ValidateRun(c, runs[|runs| - 1])
        case None => None
        case Some(n) => if HasKey(ns, n.key) then None else Some(ns + [n])
  }

  datatype Delta = Delta(baseline: Obs, treatment: Obs, delta: Obs)

  datatype Pair = Pair(key: Key, baseline: Identity, treatment: Identity, metrics: map<Metric, Delta>)

  function CompareMetric(b: Obs, t: Obs): Delta {
    Delta(b, t, if b.Some? && t.Some? then Some(Sub(t.value, b.value)) else None)
  }

  function PairOf(b: Normal, t: Normal): Pair {
    Pair(b.key, b.id, t.id, map k: Metric | k in ALL :: CompareMetric(At(b.metrics, k), At(t.metrics, k)))
  }

  function ByKey(ns: seq<Normal>, key: Key): (n: Normal)
    requires HasKey(ns, key)
    ensures n in ns && n.key == key
  {
    if ns[0].key == key then ns[0] else ByKey(ns[1..], key)
  }

  predicate SameKeys(bs: seq<Normal>, ts: seq<Normal>) {
    (forall b | b in bs :: HasKey(ts, b.key)) && (forall t | t in ts :: HasKey(bs, t.key))
  }

  function Pairs(bs: seq<Normal>, ts: seq<Normal>): (ps: seq<Pair>)
    requires forall b | b in bs :: HasKey(ts, b.key)
    ensures |ps| == |bs| && forall i | 0 <= i < |bs| :: ps[i] == PairOf(bs[i], ByKey(ts, bs[i].key))
  {
    seq(|bs|, i requires 0 <= i < |bs| => PairOf(bs[i], ByKey(ts, bs[i].key)))
  }

  datatype Side = Baseline | Treatment | Difference

  function Get(d: Delta, side: Side): Obs {
    match side
    case Baseline => d.baseline
    case Treatment => d.treatment
    case Difference => d.delta
  }

  function Seen(p: Pair, k: Metric, side: Side): Obs {
    if k in p.metrics then Get(p.metrics[k], side) else None
  }

  /** The values of one metric that are available, in the order of the pairs. */
  function Available(ps: seq<Pair>, k: Metric, side: Side): seq<Num> {
    if ps == [] then []
    else
      var p := ps[|ps| - 1];
      var rest := Available(ps[..|ps| - 1], k, side);
      var o := Seen(p, k, side);
      if o.Some? then rest + [o.value] else rest
  }

  function Mean(vs: seq<Num>): Option<real> {
    if vs == [] then None else Some(Sum(vs).Val() / |vs| as real)
  }

  function Aggregate(ps: seq<Pair>, k: Metric, side: Side): Option<real> {
    Mean(Available(ps, k, side))
  }

  function ComparePairedRuns(c: Scheme, baselines: seq<Run>, treatments: seq<Run>): Option<seq<Pair>> {
    match (IndexRuns(c, baselines), IndexRuns(c, treatments))
    case (Some(bs), Some(ts)) => if SameKeys(bs, ts) then Some(Pairs(bs, ts)) else None
    case _ => None
  }

  function ComparePair(c: Scheme, b: Run, t: Run): Option<Pair> {
    match (ValidateRun(c, b), ValidateRun(c, t))
    case (Some(n), Some(m)) => if n.key == m.key then Some(PairOf(n, m)) else None
    case _ => None
  }

  /******* Indexing *******/

  predicate DistinctKeys(ns: seq<Normal>) {
    forall i, j | 0 <= i < j < |ns| :: ns[i].key != ns[j].key
  }

  lemma {:induction false} IndexKeepsRuns(c: Scheme, runs: seq<Run>)
    requires IndexRuns(c, runs).Some?
    ensures var ns := IndexRuns(c, runs).value;
            DistinctKeys(ns) && |ns| == |runs| && forall i | 0 <= i < |runs| :: ValidateRun(c, runs[i]) == Some(ns[i])
  {
    hide ValidateRun;
    if runs != [] { IndexKeepsRuns(c, runs[..|runs| - 1]); }
  }

  lemma IndexStep(c: Scheme, runs: seq<Run>)
    requires runs != []
    ensures
      var before, last := IndexRuns(c, runs[..|runs| - 1]), runs[|runs| - 1];
      IndexRuns(c, runs).Some? <==>
        before.Some? && ValidateRun(c, last).Some? && forall i | 0 <= i < |runs| - 1 :: runs[i].key != last.key
  {
    var before, last, n := IndexRuns(c, runs[..|runs| - 1]), runs[|runs| - 1], |runs| - 1;
    if before.Some? {
      var ns := before.value;
      IndexKeepsRuns(c, runs[..n]);
      ValidKeepsKey(c, last);
      forall i | 0 <= i < n ensures ns[i].key == runs[i].key { ValidKeepsKey(c, runs[i]); }
      assert HasKey(ns, last.key) <==> exists i :: 0 <= i < n && runs[i].key == last.key by {
        if i :| 0 <= i < n && runs[i].key == last.key { assert ns[i] in ns; }
      }
    }
    hide ValidateRun, DistinctKeys, HasKey;
  }

  /** Indexing succeeds exactly when every run is valid and no two share a key. */
  lemma {:induction false} IndexSucceedsWhen(c: Scheme, runs: seq<Run>)
    ensures IndexRuns(c, runs).Some? <==>
              && (forall r | r in runs :: ValidateRun(c, r).Some?)
              && (forall i, j | 0 <= i < j < |runs| :: runs[i].key != runs[j].key)
  {
    if runs != [] {
      IndexStep(c, runs);
      IndexSucceedsWhen(c, runs[..|runs| - 1]);
      hide IndexRuns, ValidateRun;
      assert runs == runs[..|runs| - 1] + [runs[|runs| - 1]];
    }
  }

  lemma ValidKeepsKey(c: Scheme, r: Run)
    ensures ValidateRun(c, r).Some? ==> ValidateRun(c, r).value.key == r.key
  {
    hide NormalizeMetrics, FieldsOk;
  }

  /******* Pairing is a bijection *******/

  lemma DistinctKeyIsFound(ns: seq<Normal>, i: nat)
    requires DistinctKeys(ns) && i < |ns|
    ensures HasKey(ns, ns[i].key) && ByKey(ns, ns[i].key) == ns[i]
  {
    assert ns[i] in ns;
    var n := ByKey(ns, ns[i].key);
    var j :| 0 <= j < |ns| && ns[j] == n;
  }

  /** The position of the run with this key. */
  function Place(ns: seq<Normal>, key: Key): (i: nat)
    requires HasKey(ns, key)
    ensures i < |ns| && ns[i].key == key
  {
    if ns[0].key == key then 0 else 1 + Place(ns[1..], key)
  }

  /** A pair holds what its two runs say, each on its own side. */
  predicate Joins(p: Pair, b: Normal, t: Normal) {
    && p.key == b.key == t.key && p.baseline == b.id && p.treatment == t.id
    && forall k :: Seen(p, k, Baseline) == At(b.metrics, k) && Seen(p, k, Treatment) == At(t.metrics, k)
  }

  lemma PairJoins(b: Normal, t: Normal)
    requires b.key == t.key
    ensures Joins(PairOf(b, t), b, t)
  {
    forall k ensures k in ALL { AllMetrics(k); }
  }

  /**
   An accepted comparison uses every baseline run once, in order, and every treatment run
   once: pair i joins baseline i to the treatment at Place, and Place is one to one and onto.
   */
  lemma PairingIsABijection(c: Scheme, baselines: seq<Run>, treatments: seq<Run>)
    requires ComparePairedRuns(c, baselines, treatments).Some?
    ensures
      var ps := ComparePairedRuns(c, baselines, treatments).value;
      var bs, ts := IndexRuns(c, baselines).value, IndexRuns(c, treatments).value;
      && |ps| == |baselines| == |treatments| == |bs| == |ts|
      && (forall i | 0 <= i < |bs| :: HasKey(ts, bs[i].key) && Joins(ps[i], bs[i], ts[Place(ts, bs[i].key)]))
      && (forall i, j | 0 <= i < j < |bs| :: Place(ts, bs[i].key) != Place(ts, bs[j].key))
      && (forall j | 0 <= j < |ts| :: HasKey(bs, ts[j].key) && Place(ts, bs[Place(bs, ts[j].key)].key) == j)
  {
    hide *;
    var bs, ts := Accepted(c, baselines, treatments);
    IndexKeepsRuns(c, treatments);
    PlacesMatch(bs, ts);
    PairsJoin(bs, ts);
    SameKeysSameLength(bs, ts);
  }

  lemma PairsJoin(bs: seq<Normal>, ts: seq<Normal>)
    requires DistinctKeys(ts) && forall b | b in bs :: HasKey(ts, b.key)
    ensures forall i | 0 <= i < |bs| :: HasKey(ts, bs[i].key) && Joins(Pairs(bs, ts)[i], bs[i], ts[Place(ts, bs[i].key)])
  {
    hide PairOf, DistinctKeys, HasKey, Joins;
    forall i | 0 <= i < |bs| ensures HasKey(ts, bs[i].key) && Joins(Pairs(bs, ts)[i], bs[i], ts[Place(ts, bs[i].key)]) {
      assert bs[i] in bs;
      var j := Place(ts, bs[i].key);
      DistinctKeyIsFound(ts, j);
      PairJoins(bs[i], ts[j]);
    }
  }

  lemma PlacesMatch(bs: seq<Normal>, ts: seq<Normal>)
    requires DistinctKeys(bs) && DistinctKeys(ts)
    requires (forall b | b in bs :: HasKey(ts, b.key)) && (forall t | t in ts :: HasKey(bs, t.key))
    ensures forall i | 0 <= i < |bs| :: HasKey(ts, bs[i].key)
    ensures forall i, j | 0 <= i < j < |bs| :: Place(ts, bs[i].key) != Place(ts, bs[j].key)
    ensures forall j | 0 <= j < |ts| :: HasKey(bs, ts[j].key) && Place(ts, bs[Place(bs, ts[j].key)].key) == j
  {
    hide HasKey;
    forall i | 0 <= i < |bs| ensures HasKey(ts, bs[i].key) { assert bs[i] in bs; }
    forall j | 0 <= j < |ts| ensures HasKey(bs, ts[j].key) && Place(ts, bs[Place(bs, ts[j].key)].key) == j { assert ts[j] in ts; }
  }

  function KeySet(ns: seq<Normal>): set<Key> {
    set n | n in ns :: n.key
  }

  lemma {:induction false} KeySetSize(ns: seq<Normal>)
    requires DistinctKeys(ns)
    ensures |KeySet(ns)| == |ns|
    decreases |ns|
  {
    if ns != [] {
      var n := |ns| - 1;
      KeySetSize(ns[..n]);
      assert ns == ns[..n] + [ns[n]];
      assert KeySet(ns) == KeySet(ns[..n]) + {ns[n].key};
    }
  }

  lemma SameKeysSameLength(bs: seq<Normal>, ts: seq<Normal>)
    requires DistinctKeys(bs) && DistinctKeys(ts) && SameKeys(bs, ts)
    ensures |bs| == |ts|
  {
    KeySetSize(bs);
    KeySetSize(ts);
    assert KeySet(bs) == KeySet(ts);
  }

  /** The keys of some runs. */
  function RunKeys(runs: seq<Run>): set<Key> {
    set r | r in runs :: r.key
  }

  lemma IndexKeys(c: Scheme, runs: seq<Run>, key: Key)
    requires IndexRuns(c, runs).Some?
    ensures HasKey(IndexRuns(c, runs).value, key) <==> key in RunKeys(runs)
  {
    var ns := IndexRuns(c, runs).value;
    IndexKeepsRuns(c, runs);
    forall i | 0 <= i < |runs| ensures ns[i].key == runs[i].key { ValidKeepsKey(c, runs[i]); }
    hide IndexRuns, ValidateRun;
    if n :| n in ns && n.key == key { var i :| 0 <= i < |ns| && ns[i] == n; assert runs[i] in runs; }
    if r :| r in runs && r.key == key { var i :| 0 <= i < |runs| && runs[i] == r; assert ns[i] in ns; }
  }

  /** A comparison is accepted exactly when all runs are valid, no side repeats a key, and both sides have the same keys. */
  lemma ComparedExactlyWhen(c: Scheme, baselines: seq<Run>, treatments: seq<Run>)
    ensures ComparePairedRuns(c, baselines, treatments).Some? <==>
              && (forall r | r in baselines + treatments :: ValidateRun(c, r).Some?)
              && NoRepeats(KeysOf(baselines)) && NoRepeats(KeysOf(treatments))
              && RunKeys(baselines) == RunKeys(treatments)
  {
    hide ValidateRun, IndexRuns, SameKeys;
    IndexSucceedsWhen(c, baselines);
    IndexSucceedsWhen(c, treatments);
    Opened(c, baselines, treatments);
    if IndexRuns(c, baselines).Some? && IndexRuns(c, treatments).Some? {
      forall key ensures HasKey(IndexRuns(c, baselines).value, key) <==> key in RunKeys(baselines)
                 ensures HasKey(IndexRuns(c, treatments).value, key) <==> key in RunKeys(treatments)
      {
        IndexKeys(c, baselines, key);
        IndexKeys(c, treatments, key);
      }
      SameKeysBySets(IndexRuns(c, baselines).value, IndexRuns(c, treatments).value, RunKeys(baselines), RunKeys(treatments));
    }
    hide ComparePairedRuns;
  }

  lemma SameKeysBySets(bs: seq<Normal>, ts: seq<Normal>, x: set<Key>, y: set<Key>)
    requires forall key :: (HasKey(bs, key) <==> key in x) && (HasKey(ts, key) <==> key in y)
    ensures SameKeys(bs, ts) <==> x == y
  {
    if SameKeys(bs, ts) {
      forall key ensures key in x <==> key in y {
        if HasKey(bs, key) { var b :| b in bs && b.key == key; }
        if HasKey(ts, key) { var t :| t in ts && t.key == key; }
      }
    }
    forall b | b in bs ensures HasKey(bs, b.key) {}
    forall t | t in ts ensures HasKey(ts, t.key) {}
  }

  /** Normalizing keeps every available value, and makes the three token counts agree. */
  lemma NormalizedMetricsKeepValues(m: RawMetrics, k: Metric)
    requires NormalizeMetrics(m).Some?
    ensures
      var n := NormalizeMetrics(m).value;
      && (Supplied(m, k).Number? ==> At(n, k).Some? && Same(At(n, k).value, Supplied(m, k).num))
      && (!Supplied(m, k).Number? && k != TotalTokens ==> At(n, k).None?)
      && (At(n, InputTokens).Some? && At(n, OutputTokens).Some? ==>
            At(n, TotalTokens).Some?
            && At(n, TotalTokens).value.Val() == At(n, InputTokens).value.Val() + At(n, OutputTokens).value.Val())
  {
    AllMetrics(k);
    AllMetrics(TotalTokens);
    NormalizedValue(k, Supplied(m, k));
    assert NormalizeMetric(k, Supplied(m, k)).Some?;
    hide NormalizeMetric, Supplied, Num.Val;
    var sum := Plus(At(NormalizeMetrics(m).value, InputTokens), At(NormalizeMetrics(m).value, OutputTokens));
    if sum.Some? { AddLaws(At(NormalizeMetrics(m).value, InputTokens).value, At(NormalizeMetrics(m).value, OutputTokens).value, sum.value); }
  }

  lemma NormalizedValue(k: Metric, r: Raw)
    requires NormalizeMetric(k, r).Some?
    ensures var o := NormalizeMetric(k, r).value; if r.Number? then o.Some? && Same(o.value, r.num) else o.None?
  {
  }

  /******* The order of the runs *******/

  lemma PairsAreDistinct(bs: seq<Normal>, ts: seq<Normal>)
    requires DistinctKeys(bs) && forall b | b in bs :: HasKey(ts, b.key)
    ensures var ps := Pairs(bs, ts); forall i, j | 0 <= i < j < |ps| :: ps[i].key != ps[j].key
  {
    var ps := Pairs(bs, ts);
    forall i | 0 <= i < |ps| ensures ps[i].key == bs[i].key {}
  }

  /** Membership in an index, seen from the runs. */
  lemma IndexMembers(c: Scheme, runs: seq<Run>, n: Normal)
    requires IndexRuns(c, runs).Some?
    ensures n in IndexRuns(c, runs).value <==> exists r | r in runs :: ValidateRun(c, r) == Some(n)
  {
    IndexKeepsRuns(c, runs);
    var ns := IndexRuns(c, runs).value;
    hide IndexRuns, ValidateRun;
    if n in ns {
      var i :| 0 <= i < |ns| && ns[i] == n;
      assert runs[i] in runs;
    }
    if r :| r in runs && ValidateRun(c, r) == Some(n) {
      var i :| 0 <= i < |runs| && runs[i] == r;
      assert ns[i] == n;
    }
  }

  function KeysOf(runs: seq<Run>): (ks: seq<Key>)
    ensures |ks| == |runs| && forall i | 0 <= i < |runs| :: ks[i] == runs[i].key
  {
    seq(|runs|, i requires 0 <= i < |runs| => runs[i].key)
  }

  lemma {:induction false} KeysPermute(xs: seq<Run>, ys: seq<Run>)
    requires multiset(xs) == multiset(ys)
    ensures multiset(KeysOf(xs)) == multiset(KeysOf(ys))
    decreases |xs|
  {
    if xs == [] {
      EmptyMatch(ys);
    } else {
      var i := MatchLast(xs, ys);
      KeysPermute(xs[..|xs| - 1], Without(ys, i));
      assert KeysOf(xs) == KeysOf(xs[..|xs| - 1]) + [ys[i].key];
      assert KeysOf(Without(ys, i)) == Without(KeysOf(ys), i);
      WithoutOne(KeysOf(ys), i);
    }
  }

  /** Whether runs can be indexed does not depend on their order, nor does what the index holds. */
  lemma IndexPermutes(c: Scheme, xs: seq<Run>, ys: seq<Run>)
    requires multiset(xs) == multiset(ys)
    ensures IndexRuns(c, xs).Some? <==> IndexRuns(c, ys).Some?
    ensures IndexRuns(c, xs).Some? ==> SameMembers(IndexRuns(c, xs).value, IndexRuns(c, ys).value)
  {
    hide IndexRuns, ValidateRun;
    assert forall r :: r in xs <==> r in ys by { forall r ensures r in xs <==> r in ys { InMultiset(r, xs); InMultiset(r, ys); } }
    IndexSucceedsWhen(c, xs);
    IndexSucceedsWhen(c, ys);
    KeysPermute(xs, ys);
    KeysAreDistinct(xs);
    KeysAreDistinct(ys);
    if IndexRuns(c, xs).Some? && IndexRuns(c, ys).Some? {
      forall n ensures n in IndexRuns(c, xs).value <==> n in IndexRuns(c, ys).value {
        IndexMembers(c, xs, n);
        IndexMembers(c, ys, n);
      }
    }
  }

  lemma InMultiset<T>(x: T, xs: seq<T>)
    ensures x in xs <==> x in multiset(xs)
  {
  }

  lemma KeysAreDistinct(runs: seq<Run>)
    ensures (forall i, j | 0 <= i < j < |runs| :: runs[i].key != runs[j].key) <==> forall k :: multiset(KeysOf(runs))[k] <= 1
  {
    RepeatIsSeen(KeysOf(runs));
  }

  lemma SameMembersSameLookup(ts: seq<Normal>, us: seq<Normal>, key: Key)
    requires DistinctKeys(us) && (forall n :: n in ts <==> n in us)
    ensures HasKey(ts, key) <==> HasKey(us, key)
    ensures HasKey(ts, key) ==> ByKey(ts, key) == ByKey(us, key)
  {
    if HasKey(ts, key) {
      var t := ByKey(ts, key);
      var i :| 0 <= i < |us| && us[i] == t;
      DistinctKeyIsFound(us, i);
    }
  }

  /** The comparison, seen from the two indices. */
  lemma Opened(c: Scheme, baselines: seq<Run>, treatments: seq<Run>)
    ensures
      ComparePairedRuns(c, baselines, treatments) ==
      if IndexRuns(c, baselines).None? || IndexRuns(c, treatments).None? then None
      else Compared(IndexRuns(c, baselines).value, IndexRuns(c, treatments).value)
  {
    hide IndexRuns, Pairs;
  }

  function Compared(bs: seq<Normal>, ts: seq<Normal>): Option<seq<Pair>> {
    if SameKeys(bs, ts) then Some(Pairs(bs, ts)) else None
  }

  ghost predicate SameMembers(xs: seq<Normal>, ys: seq<Normal>) {
    forall n :: n in xs <==> n in ys
  }

  lemma TreatmentsByMembers(bs: seq<Normal>, ts: seq<Normal>, us: seq<Normal>)
    requires DistinctKeys(us) && SameMembers(ts, us)
    ensures Compared(bs, ts) == Compared(bs, us)
  {
    forall key ensures HasKey(ts, key) <==> HasKey(us, key)
               ensures HasKey(ts, key) ==> ByKey(ts, key) == ByKey(us, key) { SameMembersSameLookup(ts, us, key); }
    hide HasKey, PairOf, ByKey, DistinctKeys;
    if SameKeys(bs, ts) { assert Pairs(bs, ts) == Pairs(bs, us); }
  }

  /** Reordering the treatments changes nothing at all. */
  lemma TreatmentOrderIsIrrelevant(c: Scheme, baselines: seq<Run>, ts: seq<Run>, us: seq<Run>)
    requires multiset(ts) == multiset(us)
    ensures ComparePairedRuns(c, baselines, ts) == ComparePairedRuns(c, baselines, us)
  {
    hide *;
    IndexPermutes(c, ts, us);
    Opened(c, baselines, ts);
    Opened(c, baselines, us);
    if IndexRuns(c, ts).Some? && IndexRuns(c, baselines).Some? {
      IndexKeepsRuns(c, us);
      TreatmentsByMembers(IndexRuns(c, baselines).value, IndexRuns(c, ts).value, IndexRuns(c, us).value);
    }
  }

  predicate Joined(p: Pair, bs: seq<Normal>, ts: seq<Normal>) {
    exists b | b in bs :: HasKey(ts, b.key) && p == PairOf(b, ByKey(ts, b.key))
  }

  lemma PairMembers(bs: seq<Normal>, ts: seq<Normal>, p: Pair)
    requires forall b | b in bs :: HasKey(ts, b.key)
    ensures p in Pairs(bs, ts) <==> Joined(p, bs, ts)
  {
    hide PairOf, HasKey;
    var ps := Pairs(bs, ts);
    if p in ps { var i :| 0 <= i < |ps| && ps[i] == p; assert bs[i] in bs; }
    if b :| b in bs && HasKey(ts, b.key) && p == PairOf(b, ByKey(ts, b.key)) {
      var i :| 0 <= i < |bs| && bs[i] == b;
      assert ps[i] == p;
    }
  }

  /** Reordering the baselines reorders the pairs and leaves every aggregate as it is. */
  lemma BaselineOrderOnlyReorders(c: Scheme, bs: seq<Run>, others: seq<Run>, treatments: seq<Run>)
    requires multiset(bs) == multiset(others)
    ensures
      var l, r := ComparePairedRuns(c, bs, treatments), ComparePairedRuns(c, others, treatments);
      && (l.Some? <==> r.Some?)
      && (l.Some? ==> multiset(l.value) == multiset(r.value)
                      && forall k, side :: Aggregate(l.value, k, side) == Aggregate(r.value, k, side))
  {
    hide *;
    IndexPermutes(c, bs, others);
    Opened(c, bs, treatments);
    Opened(c, others, treatments);
    if IndexRuns(c, bs).Some? && IndexRuns(c, treatments).Some? {
      IndexKeepsRuns(c, bs);
      IndexKeepsRuns(c, others);
      BaselinesByMembers(IndexRuns(c, bs).value, IndexRuns(c, others).value, IndexRuns(c, treatments).value);
    }
  }

  lemma SameMembersSameKeys(xs: seq<Normal>, ys: seq<Normal>, ts: seq<Normal>)
    requires DistinctKeys(xs) && DistinctKeys(ys) && SameMembers(xs, ys)
    ensures SameKeys(xs, ts) <==> SameKeys(ys, ts)
    ensures SameKeys(xs, ts) ==> forall p :: Joined(p, xs, ts) <==> Joined(p, ys, ts)
  {
    forall key ensures HasKey(xs, key) <==> HasKey(ys, key) { SameMembersSameLookup(xs, ys, key); }
    hide HasKey, PairOf, ByKey, DistinctKeys;
  }

  lemma KeysOfDistinctPairs(ps: seq<Pair>)
    requires forall i, j | 0 <= i < j < |ps| :: ps[i].key != ps[j].key
    ensures NoRepeats(ps)
  {
  }

  lemma BaselinesByMembers(xs: seq<Normal>, ys: seq<Normal>, ts: seq<Normal>)
    requires DistinctKeys(xs) && DistinctKeys(ys) && SameMembers(xs, ys)
    ensures
      var l, r := Compared(xs, ts), Compared(ys, ts);
      && (l.Some? <==> r.Some?)
      && (l.Some? ==> multiset(l.value) == multiset(r.value)
                      && forall k, side :: Aggregate(l.value, k, side) == Aggregate(r.value, k, side))
  {
    SameMembersSameKeys(xs, ys, ts);
    if SameKeys(xs, ts) {
      var ps, qs := Pairs(xs, ts), Pairs(ys, ts);
      PairsAreDistinct(xs, ts);
      PairsAreDistinct(ys, ts);
      forall p ensures p in ps <==> p in qs { PairMembers(xs, ts, p); PairMembers(ys, ts, p); }
      hide Pairs, SameKeys, Joined, Aggregate, DistinctKeys, HasKey, PairOf;
      KeysOfDistinctPairs(ps);
      KeysOfDistinctPairs(qs);
      DistinctByMembers(ps, qs);
      forall k, side ensures Aggregate(ps, k, side) == Aggregate(qs, k, side) { AggregatePermutes(ps, qs, k, side); }
    }
  }

  /******* Aggregates *******/

  lemma AvailableStep(ps: seq<Pair>, p: Pair, k: Metric, side: Side)
    ensures Available(ps + [p], k, side) ==
              Available(ps, k, side) + if Seen(p, k, side).Some? then [Seen(p, k, side).value] else []
  {
    assert (ps + [p])[..|ps|] == ps;
    hide Seen;
  }

  lemma {:induction false} AvailableConcat(ps: seq<Pair>, qs: seq<Pair>, k: Metric, side: Side)
    ensures Available(ps + qs, k, side) == Available(ps, k, side) + Available(qs, k, side)
    decreases |qs|
  {
    hide Seen, Available;
    if qs == [] {
      assert ps + qs == ps;
      NothingAvailable(k, side);
    } else {
      var n := |qs| - 1;
      AvailableConcat(ps, qs[..n], k, side);
      AvailableStep(ps + qs[..n], qs[n], k, side);
      AvailableStep(qs[..n], qs[n], k, side);
      assert qs == qs[..n] + [qs[n]] && ps + qs == ps + qs[..n] + [qs[n]];
    }
  }

  lemma NothingAvailable(k: Metric, side: Side)
    ensures Available([], k, side) == []
  {
  }

  lemma {:induction false} AvailablePermutes(ps: seq<Pair>, qs: seq<Pair>, k: Metric, side: Side)
    requires multiset(ps) == multiset(qs)
    ensures multiset(Available(ps, k, side)) == multiset(Available(qs, k, side))
    decreases |ps|
  {
    hide Seen, Available;
    if ps == [] {
      EmptyMatch(qs);
    } else {
      var i := MatchLast(ps, qs);
      AvailablePermutes(ps[..|ps| - 1], Without(qs, i), k, side);
      AvailableConcat(ps[..|ps| - 1], [qs[i]], k, side);
      AvailableConcat(qs[..i] + [qs[i]], qs[i + 1..], k, side);
      AvailableConcat(qs[..i], [qs[i]], k, side);
      AvailableConcat(qs[..i], qs[i + 1..], k, side);
    }
  }

  lemma AggregatePermutes(ps: seq<Pair>, qs: seq<Pair>, k: Metric, side: Side)
    requires multiset(ps) == multiset(qs)
    ensures Aggregate(ps, k, side) == Aggregate(qs, k, side)
  {
    var vs, ws := Available(ps, k, side), Available(qs, k, side);
    AvailablePermutes(ps, qs, k, side);
    SumPermutes(vs, ws);
    assert |multiset(vs)| == |vs| && |multiset(ws)| == |ws|;
    hide Available, Sum;
  }

  /** The deltas of a pair are its own treatment minus its own baseline. */
  predicate Fair(p: Pair) {
    forall k :: k in p.metrics && p.metrics[k] == CompareMetric(p.metrics[k].baseline, p.metrics[k].treatment)
  }

  lemma PairIsFair(b: Normal, t: Normal)
    ensures Fair(PairOf(b, t))
  {
    var p := PairOf(b, t);
    forall k ensures k in p.metrics && p.metrics[k] == CompareMetric(p.metrics[k].baseline, p.metrics[k].treatment) {
      AllMetrics(k);
    }
  }

  lemma PairsAreFair(bs: seq<Normal>, ts: seq<Normal>)
    requires forall b | b in bs :: HasKey(ts, b.key)
    ensures forall p | p in Pairs(bs, ts) :: Fair(p)
  {
    hide PairOf, Fair;
    forall i | 0 <= i < |bs| ensures Fair(Pairs(bs, ts)[i]) {
      assert bs[i] in bs;
      PairIsFair(bs[i], ByKey(ts, bs[i].key));
    }
  }

  /** An accepted comparison, opened up. */
  lemma Accepted(c: Scheme, baselines: seq<Run>, treatments: seq<Run>) returns (bs: seq<Normal>, ts: seq<Normal>)
    requires ComparePairedRuns(c, baselines, treatments).Some?
    ensures IndexRuns(c, baselines) == Some(bs) && IndexRuns(c, treatments) == Some(ts)
    ensures DistinctKeys(bs) && DistinctKeys(ts) && SameKeys(bs, ts) && |bs| == |baselines|
    ensures forall b | b in bs :: HasKey(ts, b.key)
    ensures forall t | t in ts :: HasKey(bs, t.key)
    ensures ComparePairedRuns(c, baselines, treatments) == Some(Pairs(bs, ts))
  {
    bs, ts := IndexRuns(c, baselines).value, IndexRuns(c, treatments).value;
    IndexKeepsRuns(c, baselines);
    IndexKeepsRuns(c, treatments);
    hide IndexRuns, Pairs, DistinctKeys, HasKey;
  }

  /** When a metric is available on both sides of every pair, its mean delta is the difference of the means. */
  lemma MeanDeltaIsDifferenceOfMeans(c: Scheme, baselines: seq<Run>, treatments: seq<Run>, k: Metric)
    requires ComparePairedRuns(c, baselines, treatments).Some? && baselines != []
    requires forall p | p in ComparePairedRuns(c, baselines, treatments).value ::
               Seen(p, k, Baseline).Some? && Seen(p, k, Treatment).Some?
    ensures
      var ps := ComparePairedRuns(c, baselines, treatments).value;
      && Aggregate(ps, k, Difference).Some? && Aggregate(ps, k, Treatment).Some? && Aggregate(ps, k, Baseline).Some?
      && Aggregate(ps, k, Difference).value == Aggregate(ps, k, Treatment).value - Aggregate(ps, k, Baseline).value
  {
    hide *;
    var bs, ts := Accepted(c, baselines, treatments);
    var ps := Pairs(bs, ts);
    PairsAreFair(bs, ts);
    SumOfDeltas(ps, k);
    MeanOfDeltas(Available(ps, k, Baseline), Available(ps, k, Treatment), Available(ps, k, Difference));
    AggregateIsMean(ps, k);
  }

  lemma AggregateIsMean(ps: seq<Pair>, k: Metric)
    ensures forall side :: Aggregate(ps, k, side) == Mean(Available(ps, k, side))
  {
    hide Mean, Available;
  }

  lemma MeanOfDeltas(bs: seq<Num>, ts: seq<Num>, ds: seq<Num>)
    requires |bs| == |ts| == |ds| > 0 && Sum(ds).Val() == Sum(ts).Val() - Sum(bs).Val()
    ensures Mean(ds).Some? && Mean(ts).Some? && Mean(bs).Some? && Mean(ds).value == Mean(ts).value - Mean(bs).value
  {
    hide Sum, Num.Val;
    Quotients(Sum(ts).Val(), Sum(bs).Val(), |bs|);
  }

  lemma Quotients(a: real, b: real, n: nat)
    requires n > 0
    ensures (a - b) / n as real == a / n as real - b / n as real
  {
  }

  lemma SumStep(vs: seq<Num>, v: Num)
    ensures Sum(vs + [v]).Val() == Sum(vs).Val() + v.Val()
  {
    assert (vs + [v])[..|vs|] == vs;
    AddLaws(Sum(vs), v, v);
  }

  lemma FairSeen(p: Pair, k: Metric)
    requires Fair(p)
    ensures
      var b, t, d := Seen(p, k, Baseline), Seen(p, k, Treatment), Seen(p, k, Difference);
      d == if b.Some? && t.Some? then Some(Sub(t.value, b.value)) else None
  {
  }

  lemma {:induction false} SumOfDeltas(ps: seq<Pair>, k: Metric)
    requires forall p | p in ps :: Fair(p) && Seen(p, k, Baseline).Some? && Seen(p, k, Treatment).Some?
    ensures |Available(ps, k, Baseline)| == |Available(ps, k, Treatment)| == |Available(ps, k, Difference)| == |ps|
    ensures Sum(Available(ps, k, Difference)).Val() ==
              Sum(Available(ps, k, Treatment)).Val() - Sum(Available(ps, k, Baseline)).Val()
    decreases |ps|
  {
    if ps == [] {
      NothingAvailable(k, Baseline);
      NothingAvailable(k, Treatment);
      NothingAvailable(k, Difference);
    } else {
      hide Seen, Available, Fair, Sum, Num.Val;
      var n := |ps| - 1;
      var p := ps[n];
      assert ps == ps[..n] + [p];
      SumOfDeltas(ps[..n], k);
      FairSeen(p, k);
      var b, t := Seen(p, k, Baseline).value, Seen(p, k, Treatment).value;
      AvailableStep(ps[..n], p, k, Baseline);
      AvailableStep(ps[..n], p, k, Treatment);
      AvailableStep(ps[..n], p, k, Difference);
      SumStep(Available(ps[..n], k, Baseline), b);
      SumStep(Available(ps[..n], k, Treatment), t);
      SumStep(Available(ps[..n], k, Difference), Sub(t, b));
      AddLaws(t, b, b);
    }
  }

  /******* Swapping the sides *******/

  function SwapPair(p: Pair): Pair {
    Pair(p.key, p.treatment, p.baseline, map k | k in p.metrics :: CompareMetric(p.metrics[k].treatment, p.metrics[k].baseline))
  }

  function SwapAll(ps: seq<Pair>): (qs: seq<Pair>)
    ensures |qs| == |ps| && forall i | 0 <= i < |ps| :: qs[i] == SwapPair(ps[i])
  {
    seq(|ps|, i requires 0 <= i < |ps| => SwapPair(ps[i]))
  }

  lemma SwapOfPair(b: Normal, t: Normal)
    requires b.key == t.key
    ensures PairOf(t, b) == SwapPair(PairOf(b, t))
  {
  }

  lemma SwappedMembers(bs: seq<Normal>, ts: seq<Normal>, p: Pair)
    requires DistinctKeys(bs) && DistinctKeys(ts) && SameKeys(bs, ts)
    ensures p in SwapAll(Pairs(bs, ts)) ==> p in Pairs(ts, bs)
  {
    hide PairOf, SwapPair, ByKey;
    var ps := SwapAll(Pairs(bs, ts));
    if p in ps {
      var i :| 0 <= i < |ps| && ps[i] == p;
      assert bs[i] in bs;
      var t := ByKey(ts, bs[i].key);
      SwapOfPair(bs[i], t);
      DistinctKeyIsFound(bs, i);
      var j :| 0 <= j < |ts| && ts[j] == t;
      assert p == Pairs(ts, bs)[j];
    }
  }

  lemma SwapTwice(ps: seq<Pair>)
    requires forall p | p in ps :: Fair(p)
    ensures SwapAll(SwapAll(ps)) == ps
  {
    forall i | 0 <= i < |ps| ensures SwapPair(SwapPair(ps[i])) == ps[i] { assert ps[i] in ps; }
  }

  lemma SwapKeepsDistinct(ps: seq<Pair>)
    requires forall i, j | 0 <= i < j < |ps| :: ps[i].key != ps[j].key
    ensures forall i, j | 0 <= i < j < |ps| :: SwapAll(ps)[i] != SwapAll(ps)[j]
  {
    forall i | 0 <= i < |ps| ensures SwapAll(ps)[i].key == ps[i].key {}
    hide SwapPair;
  }

  lemma SwappedConverse(bs: seq<Normal>, ts: seq<Normal>, p: Pair)
    requires DistinctKeys(bs) && DistinctKeys(ts) && SameKeys(bs, ts) && p in Pairs(ts, bs)
    ensures p in SwapAll(Pairs(bs, ts))
  {
    var ps, qs := Pairs(bs, ts), Pairs(ts, bs);
    PairsAreFair(ts, bs);
    SwapTwice(qs);
    hide PairOf, ByKey, Fair, SwapPair, DistinctKeys, HasKey;
    var j :| 0 <= j < |qs| && qs[j] == p;
    assert SwapAll(qs)[j] == SwapPair(p);
    SwappedMembers(ts, bs, SwapPair(p));
    var i :| 0 <= i < |ps| && ps[i] == SwapPair(p);
    assert SwapAll(ps)[i] == SwapPair(SwapPair(p)) == SwapAll(SwapAll(qs))[j];
  }

  /** The pairs of the swapped comparison are the swapped pairs, in some order. */
  lemma SwappedPairs(bs: seq<Normal>, ts: seq<Normal>)
    requires DistinctKeys(bs) && DistinctKeys(ts) && SameKeys(bs, ts)
    ensures multiset(SwapAll(Pairs(bs, ts))) == multiset(Pairs(ts, bs))
  {
    var ps, qs := Pairs(bs, ts), Pairs(ts, bs);
    PairsAreDistinct(bs, ts);
    PairsAreDistinct(ts, bs);
    hide *;
    SwapKeepsDistinct(ps);
    forall p ensures p in SwapAll(ps) <==> p in qs {
      SwappedMembers(bs, ts, p);
      if p in qs { SwappedConverse(bs, ts, p); }
    }
    DistinctByMembers(SwapAll(ps), qs);
  }

  function Negated(o: Option<real>): Option<real> {
    match o case None => None case Some(x) => Some(-x)
  }

  lemma SwapSeen(p: Pair, k: Metric)
    requires Fair(p)
    ensures Seen(SwapPair(p), k, Baseline) == Seen(p, k, Treatment) && Seen(SwapPair(p), k, Treatment) == Seen(p, k, Baseline)
    ensures
      var d, e := Seen(p, k, Difference), Seen(SwapPair(p), k, Difference);
      (d.Some? <==> e.Some?) && (d.Some? ==> e.value.Val() == -d.value.Val())
  {
  }

  lemma {:induction false} SwapAvailable(ps: seq<Pair>, k: Metric)
    requires forall p | p in ps :: Fair(p)
    ensures Available(SwapAll(ps), k, Baseline) == Available(ps, k, Treatment)
    ensures Available(SwapAll(ps), k, Treatment) == Available(ps, k, Baseline)
    ensures |Available(SwapAll(ps), k, Difference)| == |Available(ps, k, Difference)|
    ensures Sum(Available(SwapAll(ps), k, Difference)).Val() == -Sum(Available(ps, k, Difference)).Val()
    decreases |ps|
  {
    if ps == [] {
      assert SwapAll(ps) == [];
    } else {
      hide Seen, Available, Fair, Sum, Num.Val, SwapPair;
      var n := |ps| - 1;
      var p := ps[n];
      assert ps == ps[..n] + [p] && SwapAll(ps) == SwapAll(ps[..n]) + [SwapPair(p)];
      SwapAvailable(ps[..n], k);
      SwapSeen(p, k);
      forall side: Side
        ensures Available(ps, k, side) ==
                  Available(ps[..n], k, side) + if Seen(p, k, side).Some? then [Seen(p, k, side).value] else []
        ensures Available(SwapAll(ps), k, side) ==
                  Available(SwapAll(ps[..n]), k, side)
                  + if Seen(SwapPair(p), k, side).Some? then [Seen(SwapPair(p), k, side).value] else []
      {
        AvailableStep(ps[..n], p, k, side);
        AvailableStep(SwapAll(ps[..n]), SwapPair(p), k, side);
      }
      if Seen(p, k, Difference).Some? {
        SumStep(Available(ps[..n], k, Difference), Seen(p, k, Difference).value);
        SumStep(Available(SwapAll(ps[..n]), k, Difference), Seen(SwapPair(p), k, Difference).value);
      }
    }
  }

  /** Exchanging baselines and treatments exchanges the two columns and negates every delta, singly and on average. */
  lemma SwappingSidesNegatesDeltas(c: Scheme, baselines: seq<Run>, treatments: seq<Run>, k: Metric)
    ensures
      var l, r := ComparePairedRuns(c, baselines, treatments), ComparePairedRuns(c, treatments, baselines);
      && (l.Some? <==> r.Some?)
      && (l.Some? ==>
            && multiset(SwapAll(l.value)) == multiset(r.value)
            && Aggregate(r.value, k, Baseline) == Aggregate(l.value, k, Treatment)
            && Aggregate(r.value, k, Treatment) == Aggregate(l.value, k, Baseline)
            && Aggregate(r.value, k, Difference) == Negated(Aggregate(l.value, k, Difference)))
  {
    hide *;
    if ComparePairedRuns(c, baselines, treatments).Some? {
      var bs, ts := Accepted(c, baselines, treatments);
      Accepts(c, treatments, baselines, ts, bs);
      SwappedPairs(bs, ts);
      PairsAreFair(bs, ts);
      SwappedAggregates(Pairs(bs, ts), Pairs(ts, bs), k);
    } else if ComparePairedRuns(c, treatments, baselines).Some? {
      var ts, bs := Accepted(c, treatments, baselines);
      Accepts(c, baselines, treatments, bs, ts);
    }
  }

  lemma Accepts(c: Scheme, baselines: seq<Run>, treatments: seq<Run>, bs: seq<Normal>, ts: seq<Normal>)
    requires IndexRuns(c, baselines) == Some(bs) && IndexRuns(c, treatments) == Some(ts)
    requires (forall b | b in bs :: HasKey(ts, b.key)) && (forall t | t in ts :: HasKey(bs, t.key))
    ensures ComparePairedRuns(c, baselines, treatments) == Some(Pairs(bs, ts))
  {
    hide IndexRuns, Pairs, HasKey;
  }

  lemma SwappedAggregates(l: seq<Pair>, r: seq<Pair>, k: Metric)
    requires (forall p | p in l :: Fair(p)) && multiset(SwapAll(l)) == multiset(r)
    ensures Aggregate(r, k, Baseline) == Aggregate(l, k, Treatment)
    ensures Aggregate(r, k, Treatment) == Aggregate(l, k, Baseline)
    ensures Aggregate(r, k, Difference) == Negated(Aggregate(l, k, Difference))
  {
    hide *;
    SwapAvailable(l, k);
    AggregatePermutes(SwapAll(l), r, k, Baseline);
    AggregatePermutes(SwapAll(l), r, k, Treatment);
    AggregatePermutes(SwapAll(l), r, k, Difference);
    AggregateIsMean(SwapAll(l), k);
    AggregateIsMean(l, k);
    NegatedMean(Available(SwapAll(l), k, Difference), Available(l, k, Difference));
  }

  lemma NegatedQuotient(a: real, n: real)
    requires n > 0.0
    ensures (-a) / n == -(a / n)
  {
  }

  lemma NegatedMean(vs: seq<Num>, ws: seq<Num>)
    requires |vs| == |ws| && Sum(vs).Val() == -Sum(ws).Val()
    ensures Mean(vs) == Negated(Mean(ws))
  {
    hide Sum, Num.Val;
    if |vs| > 0 { NegatedQuotient(Sum(ws).Val(), |ws| as real); }
  }

  /******* The loop that builds the index *******/

  method BuildIndex(c: Scheme, runs: seq<Run>) returns (res: Option<seq<Normal>>)
    ensures res == IndexRuns(c, runs)
  {
    hide ValidateRun;
    var indexed: map<Key, Normal> := map[];
    var order: seq<Normal> := [];
    for i := 0 to |runs|
      invariant IndexRuns(c, runs[..i]) == Some(order)
      invariant forall key :: key in indexed <==> HasKey(order, key)
    {
      assert runs[..i + 1][..i] == runs[..i];
      var n := ValidateRun(c, runs[i]);
      if n.None? || n.value.key in indexed {
        IndexFails(c, runs, i + 1);
        return None;
      }
      indexed := indexed[n.value.key := n.value];
      order := order + [n.value];
    }
    assert runs[..|runs|] == runs;
    return Some(order);
  }

  lemma {:induction false} IndexFails(c: Scheme, runs: seq<Run>, i: nat)
    requires i <= |runs| && IndexRuns(c, runs[..i]).None?
    ensures IndexRuns(c, runs).None?
    decreases |runs|
  {
    hide ValidateRun, HasKey;
    if i == |runs| {
      assert runs[..i] == runs;
    } else {
      var n := |runs| - 1;
      assert runs[..n][..i] == runs[..i];
      IndexFails(c, runs[..n], i);
    }
  }
}
