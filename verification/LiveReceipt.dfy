/** From a finished native export to a row of the paired comparison, one at a time and in batches. */
module LiveReceipt {
  import opened Json
  import opened Canonical
  import opened Sealing
  import opened Records
  import opened Numbers
  import opened Sequences
  import opened PairedMetrics
  import U = Usage

  const SCHEMA: string := "testweaver.m3.native-run-export/v1"
  const PROFILES: set<string> := {"E0", "E1", "E2", "E3"}
  const TERMINAL: set<string> := {"completed", "failed", "cancelled"}

  datatype Native = Native(
    projectId: string, taskId: string, roomId: string, projectState: string, taskState: string, freshIds: bool)

  datatype Actor = Actor(provider: string, model: string, runtime: string)

  datatype Export = Export(
    schema: string, runId: string, key: Key, profile: string, runState: string, isFresh: bool, native: Native, actor: Actor,
    oracles: seq<Reference>, receipt: Reference, manifest: Reference, evidence: seq<Reference>, usage: U.Tree, latency: Raw,
    cost: Raw, metrics: RawMetrics)

  predicate IsId(c: Scheme, s: string) {
    U.IsIdentifier(c.space, s)
  }

  predicate IsRef(c: Scheme, r: Reference) {
    IsId(c, r.ref) && c.isHash(r.contentHash)
  }

  predicate AreRefs(c: Scheme, rs: seq<Reference>) {
    rs != [] && forall r | r in rs :: IsRef(c, r)
  }

  function Ids(e: Export): seq<string> {
    [e.runId, e.native.projectId, e.native.taskId, e.native.roomId]
  }

  predicate NativeOk(c: Scheme, e: Export) {
    var n := e.native;
    && IsId(c, n.projectId) && IsId(c, n.taskId) && IsId(c, n.roomId) && NoRepeats(Ids(e)) && n.freshIds
    && n.projectState in TERMINAL && n.taskState in TERMINAL
  }

  predicate ExportOk(c: Scheme, e: Export, inputHash: string, budgetHash: string) {
    && c.isHash(inputHash) && c.isHash(budgetHash) && e.schema == SCHEMA
    && IsId(c, e.runId) && IsId(c, e.key.caseId) && c.isHash(e.key.inputHash) && IsId(c, e.key.goldenRevision)
    && c.isHash(e.key.budgetHash) && c.isHash(e.key.environmentHash)
    && e.key.inputHash == inputHash && e.key.budgetHash == budgetHash
    && e.profile in PROFILES && e.key.repetition >= 1 && e.runState == "completed" && e.isFresh
    && NativeOk(c, e) && IsId(c, e.actor.provider) && IsId(c, e.actor.model) && IsId(c, e.actor.runtime)
    && AreRefs(c, e.oracles) && AreRefs(c, e.evidence) && IsRef(c, e.receipt) && IsRef(c, e.manifest)
  }

  /** None means the code raises. */
  function NormalizeNumber(r: Raw): Option<Obs> {
    match r
    case Absent => Some(None)
    case Junk => None
    case Number(num) => if num.Val() < 0.0 then None else Some(Some(num))
  }

  function Coalesce(first: Obs, second: Obs): Option<Obs> {
    if first.Some? && second.Some? && !Same(first.value, second.value) then None
    else Some(if first.Some? then first else second)
  }

  /** A supplied metric needs an observation that agrees with it. */
  function MergeOne(supplied: Obs, observed: Obs): Option<Obs> {
    if supplied.None? then Some(observed)
    else if observed.None? || !Same(supplied.value, observed.value) then None
    else Some(supplied)
  }

  function Observed(usage: U.Record, cost: Obs, latency: Obs, k: Metric): Obs {
    match k
    case InputTokens => usage.input
    case OutputTokens => usage.output
    case TotalTokens => usage.total
    case Cost => cost
    case _ => latency
  }

  const OBSERVED: set<Metric> := TOKENS + {Cost, Latency}

  /** The merged value of one metric; None means the code raises. */
  function Merged(m: RawMetrics, usage: U.Record, cost: Obs, latency: Obs, k: Metric): Option<Obs> {
    match Checked(k, Supplied(m, k))
    case None => None
    case Some(supplied) => if k in OBSERVED then MergeOne(supplied, Observed(usage, cost, latency, k)) else Some(supplied)
  }

  predicate UsagePresent(u: U.Record) {
    u.calls.Some? || u.input.Some? || u.output.Some? || u.total.Some? || u.cost.Some?
  }

  function Merge(m: RawMetrics, usage: U.Record, cost: Obs, latency: Obs): Option<Metrics> {
    if exists k: Metric :: Merged(m, usage, cost, latency, k).None? then None
    else if !UsagePresent(usage) && exists k: Metric :: k in TOKENS && Checked(k, Supplied(m, k)) != Some(None) then None
    else Some(map k: Metric | k in ALL :: Merged(m, usage, cost, latency, k).value)
  }

  function ToRaw(o: Obs): Raw {
    match o case None => Absent case Some(num) => Number(num)
  }

  function RowMetrics(m: Metrics): RawMetrics {
    map k | k in m :: ToRaw(m[k])
  }

  /** The row as built, before the code compares it with itself. */
  function BuildRow(c: Scheme, e: Export, inputHash: string, budgetHash: string): Option<Run> {
    if !ExportOk(c, e, inputHash, budgetHash) then None
    else
      match (U.NormalizeTree(c.space, e.usage), NormalizeNumber(e.cost), NormalizeNumber(e.latency))
      case (Some(usage), Some(explicit), Some(latency)) =>
        (match Coalesce(explicit, usage.cost)
         case None => None
         case Some(cost) =>
           match Merge(e.metrics, usage, cost, latency)
           case None => None
           case Some(m) =>
             Some(Run(e.key, Identity(e.runId, e.profile, e.receipt, e.manifest, e.oracles), true, RowMetrics(m))))
      case _ => None
  }

  function NormalizeExport(c: Scheme, e: Export, inputHash: string, budgetHash: string): Option<Run> {
    match BuildRow(c, e, inputHash, budgetHash)
    case None => None
    case Some(row) => if ComparePair(c, row, row).None? then None else Some(row)
  }

  /******* A row that is built is a row that compares *******/

  predicate SaneMetric(k: Metric, o: Obs) {
    Checked(k, ToRaw(o)) == Some(o)
  }

  lemma TokenIsSane(u: U.Record, k: Metric)
    requires U.Sane([u]) && k in TOKENS
    ensures SaneMetric(k, Observed(u, None, None, k))
  {
    assert U.SaneObs(u.Get(U.InputTokens), U.InputTokens);
    assert U.SaneObs(u.Get(U.OutputTokens), U.OutputTokens);
    assert U.SaneObs(u.Get(U.TotalTokens), U.TotalTokens);
  }

  lemma CheckedIsSane(k: Metric, r: Raw)
    requires Checked(k, r).Some?
    ensures SaneMetric(k, Checked(k, r).value)
  {
  }

  lemma MergedIsSane(m: RawMetrics, u: U.Record, cost: Obs, latency: Obs, k: Metric)
    requires U.Sane([u]) && Merged(m, u, cost, latency, k).Some?
    requires (cost.Some? ==> cost.value.Val() >= 0.0) && (latency.Some? ==> latency.value.Val() >= 0.0)
    ensures SaneMetric(k, Merged(m, u, cost, latency, k).value)
    ensures k in TOKENS ==> Merged(m, u, cost, latency, k).value == Observed(u, cost, latency, k)
  {
    CheckedIsSane(k, Supplied(m, k));
    if k in TOKENS { TokenIsSane(u, k); }
    hide U.Sane, Supplied;
  }

  lemma SaneMetricsNormalize(m: Metrics)
    requires m.Keys == ALL && (forall k :: k in m ==> SaneMetric(k, m[k]))
    requires var sum := Plus(At(m, InputTokens), At(m, OutputTokens)); sum.Some? ==> At(m, TotalTokens) == sum
    ensures NormalizeMetrics(RowMetrics(m)).Some?
  {
    var r := RowMetrics(m);
    forall k: Metric
      ensures NormalizeMetric(k, Supplied(r, k)).Some?
      ensures k in TOKENS ==> NormalizeMetric(k, Supplied(r, k)) == Some(At(m, k))
    {
      AllMetrics(k);
      assert SaneMetric(k, m[k]);
    }
    hide NormalizeMetric, Supplied, SaneMetric, RowMetrics;
  }

  lemma MergedMetrics(m: RawMetrics, u: U.Record, cost: Obs, latency: Obs)
    requires U.Sane([u]) && Merge(m, u, cost, latency).Some?
    requires u.input.Some? && u.output.Some? ==> u.total == Plus(u.input, u.output)
    requires (cost.Some? ==> cost.value.Val() >= 0.0) && (latency.Some? ==> latency.value.Val() >= 0.0)
    ensures NormalizeMetrics(RowMetrics(Merge(m, u, cost, latency).value)).Some?
  {
    var n := Merge(m, u, cost, latency).value;
    assert n.Keys == ALL;
    forall k | k in n
      ensures SaneMetric(k, n[k]) && (k in TOKENS ==> n[k] == Observed(u, cost, latency, k))
    {
      MergedIsSane(m, u, cost, latency, k);
    }
    hide Merge, SaneMetric, U.Sane, Plus;
    SaneMetricsNormalize(n);
  }

  lemma UsageFacts(c: Scheme, t: U.Tree)
    requires U.NormalizeTree(c.space, t).Some?
    ensures
      var u := U.NormalizeTree(c.space, t).value;
      U.Sane([u]) && (u.input.Some? && u.output.Some? ==> u.total == Plus(u.input, u.output))
      && (u.cost.Some? ==> u.cost.value.Val() >= 0.0)
  {
    U.RecordsAreSane(c.space, t);
    var rs := U.Records(c.space, t).value;
    U.NormalizedIsSane(rs);
    U.TotalIsInputPlusOutput(rs);
    assert U.SaneObs(U.Normalize(rs).Get(U.CostField), U.CostField);
    hide U.Normalize, U.Records, U.Sane;
  }

  lemma IdIsOpaque(c: Scheme, s: string)
    requires IsId(c, s)
    ensures Opaque(c, s)
  {
  }

  lemma RefsAreOk(c: Scheme, r: Reference)
    requires IsRef(c, r)
    ensures RefOk(c, r)
  {
    IdIsOpaque(c, r.ref);
    hide IsId, Opaque;
  }

  /** White space is not a letter or a digit. */
  predicate ProfilesAreOpaque(c: Scheme) {
    forall p | p in PROFILES :: Opaque(c, p)
  }

  lemma AcceptedFields(c: Scheme, e: Export, inputHash: string, budgetHash: string)
    requires ExportOk(c, e, inputHash, budgetHash) && ProfilesAreOpaque(c)
    ensures FieldsOk(c, e.key, Identity(e.runId, e.profile, e.receipt, e.manifest, e.oracles))
  {
    IdIsOpaque(c, e.runId);
    IdIsOpaque(c, e.key.caseId);
    IdIsOpaque(c, e.key.goldenRevision);
    RefsAreOk(c, e.receipt);
    RefsAreOk(c, e.manifest);
    forall r | r in e.oracles ensures RefOk(c, r) { RefsAreOk(c, r); }
    hide IsId, IsRef, RefOk, NativeOk;
  }

  predicate ZeroOrMissing(d: Delta) {
    d.baseline == d.treatment && (d.delta.Some? <==> d.baseline.Some?) && (d.delta.Some? ==> d.delta.value.Val() == 0.0)
  }

  lemma RunComparesWithItself(c: Scheme, row: Run)
    requires ValidateRun(c, row).Some?
    ensures ComparePair(c, row, row).Some?
    ensures forall k :: var ds := ComparePair(c, row, row).value.metrics; k in ds && ZeroOrMissing(ds[k])
  {
    hide ValidateRun;
    var ds := ComparePair(c, row, row).value.metrics;
    forall k ensures k in ds && ZeroOrMissing(ds[k]) { AllMetrics(k); }
  }

  lemma CoalesceKeepsSign(first: Obs, second: Obs)
    requires Coalesce(first, second).Some?
    requires (first.Some? ==> first.value.Val() >= 0.0) && (second.Some? ==> second.value.Val() >= 0.0)
    ensures var o := Coalesce(first, second).value; o.Some? ==> o.value.Val() >= 0.0
  {
  }

  /**
   The guard against a PairingError never fires: every row that is built compares with
   itself, and every delta of that comparison is zero or NOT_AVAILABLE.
   */
  lemma BuiltRowsCompare(c: Scheme, e: Export, inputHash: string, budgetHash: string)
    requires ProfilesAreOpaque(c) && BuildRow(c, e, inputHash, budgetHash).Some?
    ensures var row := BuildRow(c, e, inputHash, budgetHash).value;
            && ValidateRun(c, row).Some? && NormalizeExport(c, e, inputHash, budgetHash) == Some(row)
            && forall k :: var ds := ComparePair(c, row, row).value.metrics; k in ds && ZeroOrMissing(ds[k])
  {
    var u, explicit, latency := U.NormalizeTree(c.space, e.usage).value, NormalizeNumber(e.cost).value, NormalizeNumber(e.latency).value;
    var row := BuildRow(c, e, inputHash, budgetHash).value;
    assert ExportOk(c, e, inputHash, budgetHash) && Coalesce(explicit, u.cost).Some?;
    var cost := Coalesce(explicit, u.cost).value;
    assert Merge(e.metrics, u, cost, latency).Some? && row.metrics == RowMetrics(Merge(e.metrics, u, cost, latency).value);
    hide ExportOk, U.NormalizeTree, Merge, RowMetrics, Coalesce, ZeroOrMissing, ComparePair, NormalizeMetrics, FieldsOk, U.Sane;
    hide ProfilesAreOpaque;
    UsageFacts(c, e.usage);
    AcceptedFields(c, e, inputHash, budgetHash);
    CoalesceKeepsSign(explicit, u.cost);
    MergedMetrics(e.metrics, u, cost, latency);
    assert ValidateRun(c, row).Some?;
    RunComparesWithItself(c, row);
  }

  /** What a row says agrees with an observation, if there is one. */
  predicate Reports(r: Raw, o: Obs) {
    o.Some? ==> r.Number? && Same(r.num, o.value)
  }

  lemma MergeReports(m: RawMetrics, u: U.Record, cost: Obs, latency: Obs, k: Metric)
    requires Merge(m, u, cost, latency).Some?
    ensures
      var r := RowMetrics(Merge(m, u, cost, latency).value);
      && k in r
      && (k in OBSERVED ==> Reports(r[k], Observed(u, cost, latency, k)) && (r[k].Number? ==> Observed(u, cost, latency, k).Some?))
      && (Supplied(m, k).Number? ==> Reports(r[k], Some(Supplied(m, k).num)))
      && (k !in OBSERVED && !Supplied(m, k).Number? ==> r[k].Absent?)
  {
    AllMetrics(k);
    assert Merged(m, u, cost, latency, k).Some?;
  }

  /**
   A row reports what was observed and nothing else: its tokens are the usage's, its cost is
   both the explicit one and the usage's, its latency is the export's, and a supplied metric
   appears with its own value.
   */
  lemma RowReportsWhatWasObserved(c: Scheme, e: Export, inputHash: string, budgetHash: string, k: Metric)
    requires BuildRow(c, e, inputHash, budgetHash).Some?
    ensures
      var row := BuildRow(c, e, inputHash, budgetHash).value;
      var u := U.NormalizeTree(c.space, e.usage).value;
      && row.key == e.key && row.id == Identity(e.runId, e.profile, e.receipt, e.manifest, e.oracles)
      && InputTokens in row.metrics && OutputTokens in row.metrics && TotalTokens in row.metrics
      && Cost in row.metrics && Latency in row.metrics && k in row.metrics
      && Reports(row.metrics[InputTokens], u.input) && (row.metrics[InputTokens].Number? ==> u.input.Some?)
      && Reports(row.metrics[OutputTokens], u.output) && (row.metrics[OutputTokens].Number? ==> u.output.Some?)
      && Reports(row.metrics[TotalTokens], u.total) && (row.metrics[TotalTokens].Number? ==> u.total.Some?)
      && Reports(row.metrics[Cost], u.cost)
      && (e.cost.Number? ==> Reports(row.metrics[Cost], Some(e.cost.num)))
      && (row.metrics[Cost].Number? ==> u.cost.Some? || e.cost.Number?)
      && (e.latency.Number? <==> row.metrics[Latency].Number?) && (e.latency.Number? ==> Reports(row.metrics[Latency], Some(e.latency.num)))
      && (Supplied(e.metrics, k).Number? ==> Reports(row.metrics[k], Some(Supplied(e.metrics, k).num)))
  {
    hide BuildRow, Merge, RowMetrics, Supplied, Checked, U.NormalizeTree;
    var cost, latency := RowParts(c, e, inputHash, budgetHash);
    var u := U.NormalizeTree(c.space, e.usage).value;
    MergeReports(e.metrics, u, cost, latency, InputTokens);
    MergeReports(e.metrics, u, cost, latency, OutputTokens);
    MergeReports(e.metrics, u, cost, latency, TotalTokens);
    MergeReports(e.metrics, u, cost, latency, Cost);
    MergeReports(e.metrics, u, cost, latency, Latency);
    MergeReports(e.metrics, u, cost, latency, k);
  }

  /** The observations a row is merged from. */
  lemma RowParts(c: Scheme, e: Export, inputHash: string, budgetHash: string) returns (cost: Obs, latency: Obs)
    requires BuildRow(c, e, inputHash, budgetHash).Some?
    ensures U.NormalizeTree(c.space, e.usage).Some?
    ensures
      var row, u := BuildRow(c, e, inputHash, budgetHash).value, U.NormalizeTree(c.space, e.usage).value;
      && Merge(e.metrics, u, cost, latency).Some? && row.metrics == RowMetrics(Merge(e.metrics, u, cost, latency).value)
      && row.key == e.key && row.id == Identity(e.runId, e.profile, e.receipt, e.manifest, e.oracles)
      && (u.cost.Some? ==> cost.Some? && Same(cost.value, u.cost.value))
      && (e.cost.Number? ==> cost.Some? && Same(cost.value, e.cost.num)) && (cost.Some? ==> u.cost.Some? || e.cost.Number?)
      && (latency.Some? <==> e.latency.Number?) && (latency.Some? ==> latency.value == e.latency.num)
  {
    hide ExportOk, U.NormalizeTree, Merge, RowMetrics;
    var explicit := NormalizeNumber(e.cost).value;
    latency := NormalizeNumber(e.latency).value;
    cost := Coalesce(explicit, U.NormalizeTree(c.space, e.usage).value.cost).value;
  }

  /******* What vouches for an export *******/

  const FORBIDDEN_NAMES: set<string> := {
    "gold", "fixture", "synthetic", "runner", "scheduler", "observer", "taskrun", "prompt", "prompt_text", "body", "content",
    "secret", "api_key", "apikey", "password", "authorization", "access_token"
  }

  const HERO_FACTS: set<string> := {
    "manager_provider_and_dynamic_selection", "independent_agent_identities", "leader_native_delegation_and_handoff",
    "worker_skill_invoke", "human_pause_decision_resume", "failure_recovery_and_late_result_rejection",
    "postgres_quality_lineage", "independent_outcome_boundary_oracles"
  }

  datatype RawSource = RawSource(
    sourceRef: string, sourceHash: string, attestationRef: string, attestationHash: string, kind: string)
  {
    function Payload(): Json {
      Obj([Member("source_ref", Str(sourceRef)), Member("source_hash", Str(sourceHash)),
           Member("attestation_ref", Str(attestationRef)), Member("source_kind", Str(kind))])
    }
  }

  /** An export as it comes in: all its members but the attestation, and the attestation. */
  datatype Submission = Submission(fields: seq<Member>, attestation: Option<RawSource>)

  /** How names are put into lower case, and what the members of an export say. */
  datatype Intake = Intake(lower: string -> string, read: seq<Member> -> Option<Export>)

  function Underscored(s: string): string {
    if s == "" then "" else [if s[0] == '-' then '_' else s[0]] + Underscored(s[1..])
  }

  predicate Clean(k: Intake, v: Json)
    decreases v
  {
    match v
    case Obj(ms) => forall i | 0 <= i < |ms| :: Underscored(k.lower(ms[i].key)) !in FORBIDDEN_NAMES && Clean(k, ms[i].value)
    case Arr(items) => forall i | 0 <= i < |items| :: Clean(k, items[i])
    case _ => true
  }

  predicate Vouched(c: Scheme, a: RawSource, fields: seq<Member>) {
    && a.kind == "agentteams-native-export" && IsId(c, a.sourceRef) && IsId(c, a.attestationRef)
    && c.isHash(a.sourceHash) && c.isHash(a.attestationHash)
    && a.sourceHash == c.Hash(Obj(fields)) && a.attestationHash == c.Hash(a.Payload())
  }

  /** None means the code raises. */
  function Receive(c: Scheme, k: Intake, s: Submission, inputHash: string, budgetHash: string): Option<(Export, Run)> {
    if !Clean(k, Obj(s.fields)) || (s.attestation.Some? && !Vouched(c, s.attestation.value, s.fields)) then None
    else match k.read(s.fields)
      case None => None
      case Some(e) => match NormalizeExport(c, e, inputHash, budgetHash) case None => None case Some(row) => Some((e, row))
  }

  /** What a receipt still misses: a source for its bytes, or everything that only a live run can show. */
  function Missing(s: Submission): set<string> {
    if s.attestation.None? then {"raw_source_attestation"} else HERO_FACTS
  }

  /** An attestation vouches for one export only, up to the order of its members at every depth. */
  lemma AttestationBindsTheExport(c: Scheme, a: RawSource, fields: seq<Member>, others: seq<Member>)
    requires c.Ideal() && Vouched(c, a, fields) && WellFormed(Obj(fields)) && WellFormed(Obj(others))
    ensures Vouched(c, a, others) <==> Denote(Obj(others)) == Denote(Obj(fields))
  {
    hide IsId, CanonicalText, WellFormed, Denote, RawSource.Payload;
    SameTextIffSameMeaning(Obj(fields), Obj(others));
  }

  /******* Batches *******/

  predicate AllReceived(c: Scheme, k: Intake, ss: seq<Submission>, inputHash: string, budgetHash: string) {
    forall s | s in ss :: Receive(c, k, s, inputHash, budgetHash).Some?
  }

  /** The exports of submissions that are all received. */
  function Exports(c: Scheme, k: Intake, ss: seq<Submission>, inputHash: string, budgetHash: string): (es: seq<Export>)
    requires AllReceived(c, k, ss, inputHash, budgetHash)
    ensures |es| == |ss| && forall i | 0 <= i < |ss| :: ss[i] in ss && es[i] == Receive(c, k, ss[i], inputHash, budgetHash).value.0
  {
    seq(|ss|, i requires 0 <= i < |ss| => assert ss[i] in ss; Receive(c, k, ss[i], inputHash, budgetHash).value.0)
  }

  function AllIds(es: seq<Export>): seq<string> {
    if es == [] then [] else AllIds(es[..|es| - 1]) + Ids(es[|es| - 1])
  }

  datatype Observation = Observation(key: Key, profile: string)

  function Observations(es: seq<Export>): (os: seq<Observation>)
    ensures |os| == |es| && forall i | 0 <= i < |es| :: os[i] == Observation(es[i].key, es[i].profile)
  {
    seq(|es|, i requires 0 <= i < |es| => Observation(es[i].key, es[i].profile))
  }

  lemma NoRepeatsConcat<T>(xs: seq<T>, ys: seq<T>)
    ensures NoRepeats(xs + ys) <==> NoRepeats(xs) && NoRepeats(ys) && forall y | y in ys :: y !in xs
  {
    var zs := xs + ys;
    forall i | 0 <= i < |xs| ensures zs[i] == xs[i] {}
    forall i | 0 <= i < |ys| ensures zs[|xs| + i] == ys[i] {}
    if NoRepeats(zs) {
      forall y | y in ys ensures y !in xs {
        var j :| 0 <= j < |ys| && ys[j] == y;
        assert zs[|xs| + j] == y;
      }
      forall i, j | 0 <= i < j < |ys| ensures ys[i] != ys[j] { assert zs[|xs| + i] != zs[|xs| + j]; }
    }
    if NoRepeats(xs) && NoRepeats(ys) && forall y | y in ys :: y !in xs {
      forall i, j | 0 <= i < j < |zs| ensures zs[i] != zs[j] {
        if i < |xs| <= j { assert ys[j - |xs|] in ys; }
      }
    }
  }

  lemma {:induction false} PrefixNoRepeats(es: seq<Export>, i: nat)
    requires i <= |es|
    ensures NoRepeats(AllIds(es)) ==> NoRepeats(AllIds(es[..i]))
    decreases |es|
  {
    if i < |es| {
      var n := |es| - 1;
      assert es[..n][..i] == es[..i];
      PrefixNoRepeats(es[..n], i);
      NoRepeatsConcat(AllIds(es[..n]), Ids(es[n]));
    } else {
      assert es[..i] == es;
    }
  }

  /** Four identities per export. */
  lemma {:induction false} FourIdsEach(es: seq<Export>)
    ensures |AllIds(es)| == 4 * |es|
  {
    if es != [] { FourIdsEach(es[..|es| - 1]); }
  }

  predicate Acceptable(c: Scheme, k: Intake, ss: seq<Submission>, inputHash: string, budgetHash: string) {
    && ss != [] && AllReceived(c, k, ss, inputHash, budgetHash)
    && var es := Exports(c, k, ss, inputHash, budgetHash); NoRepeats(AllIds(es)) && NoRepeats(Observations(es))
  }

  /** The rows of received submissions, in order. */
  function Rows(c: Scheme, k: Intake, ss: seq<Submission>, inputHash: string, budgetHash: string): (rows: seq<Run>)
    requires AllReceived(c, k, ss, inputHash, budgetHash)
    ensures |rows| == |ss| && forall i | 0 <= i < |ss| :: ss[i] in ss && rows[i] == Receive(c, k, ss[i], inputHash, budgetHash).value.1
  {
    seq(|ss|, i requires 0 <= i < |ss| => assert ss[i] in ss; Receive(c, k, ss[i], inputHash, budgetHash).value.1)
  }

  datatype Batch = Batch(rows: seq<Run>, attested: bool, missing: set<string>)

  method ReceiveAll(c: Scheme, k: Intake, ss: seq<Submission>, inputHash: string, budgetHash: string)
    returns (res: Option<seq<(Export, Run)>>)
    ensures res.Some? <==> AllReceived(c, k, ss, inputHash, budgetHash)
    ensures res.Some? ==> |res.value| == |ss|
    ensures
      res.Some? ==> forall i | 0 <= i < |ss| ::
          res.value[i] == (Exports(c, k, ss, inputHash, budgetHash)[i], Rows(c, k, ss, inputHash, budgetHash)[i])
  {
    hide Receive;
    var received: seq<(Export, Run)> := [];
    for i := 0 to |ss|
      invariant |received| == i && forall j | 0 <= j < i :: Receive(c, k, ss[j], inputHash, budgetHash) == Some(received[j])
    {
      var one := Receive(c, k, ss[i], inputHash, budgetHash);
      if one.None? {
        assert ss[i] in ss;
        return None;
      }
      received := received + [one.value];
    }
    return Some(received);
  }

  /**
   A batch is accepted exactly when it is not empty, every export is received, all 4n identities
   are distinct and no profile has two observations of one pairing key.  It is classified as
   attested exactly when every export is, and misses what any of its exports misses.
   */
  method NormalizeExports(c: Scheme, k: Intake, ss: seq<Submission>, inputHash: string, budgetHash: string) returns (res: Option<Batch>)
    ensures res.Some? <==> Acceptable(c, k, ss, inputHash, budgetHash)
    ensures res.Some? ==> res.value.rows == Rows(c, k, ss, inputHash, budgetHash)
    ensures res.Some? ==> (res.value.attested <==> forall s | s in ss :: s.attestation.Some?)
    ensures res.Some? ==> forall m :: m in res.value.missing <==> exists s :: s in ss && m in Missing(s)
  {
    hide Receive, Ids, NoRepeats, Missing, AllIds, Observations, Exports, Rows;
    var all := ReceiveAll(c, k, ss, inputHash, budgetHash);
    if all.None? { return None; }
    var received := all.value;
    if received == [] { return None; }
    ghost var es := Exports(c, k, ss, inputHash, budgetHash);
    var rows: seq<Run> := [];
    var seenIds: set<string> := {};
    var seenPairs: set<Observation> := {};
    var attested, missing := true, {};
    NothingRepeats();
    for i := 0 to |received|
      invariant rows == Rows(c, k, ss, inputHash, budgetHash)[..i]
      invariant NoRepeats(AllIds(es[..i])) && NoRepeats(Observations(es[..i]))
      invariant forall x :: x in seenIds <==> x in AllIds(es[..i])
      invariant forall o :: o in seenPairs <==> o in Observations(es[..i])
      invariant attested <==> forall s | s in ss[..i] :: s.attestation.Some?
      invariant forall m :: m in missing <==> exists s :: s in ss[..i] && m in Missing(s)
    {
      var (e, row) := received[i];
      assert e == es[i];
      assert ss[..i + 1] == ss[..i] + [ss[i]] && es[..|es|] == es;
      if ss[i].attestation.None? { attested := false; }
      MissingStep(ss[..i], ss[i], missing);
      missing := missing + Missing(ss[i]);
      var ids, o := Ids(e), Observation(e.key, e.profile);
      PrefixStep(es, i);
      if exists x :: x in ids && x in seenIds { return None; }
      if !NoRepeats(ids) { return None; }
      if o in seenPairs { return None; }
      seenIds := seenIds + (set x | x in ids);
      seenPairs := seenPairs + {o};
      rows := rows + [row];
    }
    assert ss[..|ss|] == ss && es[..|es|] == es;
    return Some(Batch(rows, attested, missing));
  }

  lemma MissingStep(ss: seq<Submission>, s: Submission, missing: set<string>)
    requires forall m :: m in missing <==> exists t :: t in ss && m in Missing(t)
    ensures forall m :: m in missing + Missing(s) <==> exists t :: t in ss + [s] && m in Missing(t)
  {
    hide Missing;
    forall m ensures m in missing + Missing(s) <==> exists t :: t in ss + [s] && m in Missing(t) {
      assert s in ss + [s];
      if t :| t in ss && m in Missing(t) { assert t in ss + [s]; }
    }
  }

  lemma NothingRepeats()
    ensures AllIds([]) == [] && NoRepeats<string>([]) && NoRepeats<Observation>([])
  {
  }

  lemma IdsStep(es: seq<Export>, i: nat)
    requires i < |es|
    ensures AllIds(es[..i + 1]) == AllIds(es[..i]) + Ids(es[i])
  {
    assert es[..i + 1][..i] == es[..i];
    hide Ids;
  }

  lemma ObservationsStep(es: seq<Export>, i: nat)
    requires i < |es|
    ensures Observations(es[..i + 1]) == Observations(es[..i]) + [Observation(es[i].key, es[i].profile)]
    ensures Observations(es) == Observations(es[..i + 1]) + Observations(es)[i + 1..]
  {
  }

  /** What one more export does to the two lists that must not repeat. */
  lemma PrefixStep(es: seq<Export>, i: nat)
    requires i < |es|
    ensures AllIds(es[..i + 1]) == AllIds(es[..i]) + Ids(es[i])
    ensures Observations(es[..i + 1]) == Observations(es[..i]) + [Observation(es[i].key, es[i].profile)]
    ensures NoRepeats(AllIds(es[..i + 1])) <==>
              NoRepeats(AllIds(es[..i])) && NoRepeats(Ids(es[i])) && forall x | x in Ids(es[i]) :: x !in AllIds(es[..i])
    ensures NoRepeats(Observations(es[..i + 1])) <==>
              NoRepeats(Observations(es[..i])) && Observation(es[i].key, es[i].profile) !in Observations(es[..i])
    ensures NoRepeats(AllIds(es)) ==> NoRepeats(AllIds(es[..i + 1]))
    ensures NoRepeats(Observations(es)) ==> NoRepeats(Observations(es[..i + 1]))
  {
    var o := Observation(es[i].key, es[i].profile);
    OneNeverRepeats(o);
    hide *;
    IdsStep(es, i);
    ObservationsStep(es, i);
    NoRepeatsConcat(AllIds(es[..i]), Ids(es[i]));
    NoRepeatsConcat(Observations(es[..i]), [o]);
    PrefixNoRepeats(es, i + 1);
    NoRepeatsConcat(Observations(es[..i + 1]), Observations(es)[i + 1..]);
    assert o in [o];
  }

  lemma OneNeverRepeats(o: Observation)
    ensures NoRepeats([o]) && forall x | x in [o] :: x == o
  {
  }

  function OfProfile(rows: seq<Run>, profile: string): seq<Run> {
    if rows == [] then []
    else OfProfile(rows[..|rows| - 1], profile) + if rows[|rows| - 1].id.profile == profile then [rows[|rows| - 1]] else []
  }

  lemma {:induction false} OfProfileKeys(rows: seq<Run>, profile: string)
    requires forall i, j | 0 <= i < j < |rows| :: rows[i].key != rows[j].key || rows[i].id.profile != rows[j].id.profile
    ensures var ps := OfProfile(rows, profile);
            && (forall r | r in ps :: r in rows && r.id.profile == profile)
            && (forall i, j | 0 <= i < j < |ps| :: ps[i].key != ps[j].key)
  {
    if rows != [] {
      var n := |rows| - 1;
      OfProfileKeys(rows[..n], profile);
      forall r | r in OfProfile(rows[..n], profile) && r.key == rows[n].key ensures rows[n].id.profile != profile {
        var i :| 0 <= i < n && rows[..n][i] == r;
      }
    }
  }

  lemma RowOfExport(c: Scheme, e: Export, inputHash: string, budgetHash: string)
    requires NormalizeExport(c, e, inputHash, budgetHash).Some?
    ensures var row := NormalizeExport(c, e, inputHash, budgetHash).value;
            row.key == e.key && row.id.profile == e.profile && ValidateRun(c, row).Some?
  {
    hide ExportOk, U.NormalizeTree, Merge, RowMetrics, Coalesce, NormalizeNumber, ValidateRun;
  }

  /** In an accepted batch the rows of one profile always index, so a comparison never meets a duplicate key there. */
  lemma BatchRowsIndex(c: Scheme, k: Intake, ss: seq<Submission>, inputHash: string, budgetHash: string, profile: string)
    requires Acceptable(c, k, ss, inputHash, budgetHash)
    ensures IndexRuns(c, OfProfile(Rows(c, k, ss, inputHash, budgetHash), profile)).Some?
  {
    var rows, es := Rows(c, k, ss, inputHash, budgetHash), Exports(c, k, ss, inputHash, budgetHash);
    hide NormalizeExport, IndexRuns, ValidateRun, Clean, Vouched;
    forall i | 0 <= i < |es| ensures rows[i].key == es[i].key && rows[i].id.profile == es[i].profile && ValidateRun(c, rows[i]).Some? {
      assert ss[i] in ss;
      RowOfExport(c, es[i], inputHash, budgetHash);
    }
    forall i, j | 0 <= i < j < |rows| ensures rows[i].key != rows[j].key || rows[i].id.profile != rows[j].id.profile {
      assert Observations(es)[i] != Observations(es)[j];
    }
    OfProfileKeys(rows, profile);
    IndexSucceedsWhen(c, OfProfile(rows, profile));
  }
}
