/**
 The six receipt-chained stages of a Skill evolution, over its replayed lifecycle.  A stage is
 given a request, which brings exact readbacks, and the receipt of the stage before; it checks
 that receipt, rebuilds the lifecycle from the records in it by looking up the readbacks they
 name, makes its own transitions, and emits a receipt with the new records and a ledger that
 also holds the new readbacks.  A receipt is called sound when the next stage's check accepts
 it, its records replay to the state it reports, and every live artifact they name is backed by
 an entry of the ledger that a token vouches for.
 */
module SkillChain {
  import opened Bytes
  import opened Json
  import opened Sealing
  import opened Encoding
  import opened Readback
  import opened SkillOps

  datatype Stage = Prepare | VerifyApproval | PublishCandidate | Canary | Reevaluate | Conclude

  datatype Authority = Authority(campaignId: string, runId: string, traceId: string, pgRevision: int, contentHash: string)

  /** What later stages remember of the package and of the allowlist that prepare read. */
  datatype Seen = Seen(packageUri: string, packageRef: string, packageHash: string, allowlistRef: string, allowlistHash: string)

  datatype Status = InState(state: State) | CandidatePublished

  datatype Body = Body(
    stage: Stage, authority: Authority, status: Status, records: Records, readbacks: seq<Item>, seen: Seen)

  datatype Receipt = Receipt(body: Body, hash: string)

  /** An artifact as a request supplies it, with the exact readback of its bytes. */
  datatype Given = Given(ref: string, kind: SourceKind, attestation: string, item: Item)

  datatype Evaluated =
    | ByOracle(outcomeRecord: Item, outcomeResult: Item, boundaryRecord: Item, boundaryResult: Item, pairRef: string)
    | ByAgentLoop(task: Item, runs: Item, resultRef: string)

  datatype Input =
    | ToPrepare(
        skill: string, baselineId: string, attributionId: string, proposalId: string, baseVersion: string,
        candidateVersion: string, packageUri: string, rollback: string, hero: Item, allowlist: Item, package: Item,
        dataset: Given, evaluation: Given, traces: seq<Given>, evidence: seq<Given>)
    | ToVerify(
        approvalId: string, approve: bool, revision: int, verificationRef: string, verifiedAt: string,
        allowlistRef: string, sender: string, identity: string, event: Item)
    | ToPublish(responses: seq<Item>)
    | ToCanary(
        activation: Item, canary: Item, verdict: Verdict, resultRef: string, traceRefs: seq<string>, evidenceRefs: seq<string>)
    | ToReevaluate(verdict: Verdict, evaluated: Evaluated)
    | ToConclude(receiptId: string)

  /**
   What is kept abstract: how a body is sealed, the format of a trace identifier, the token
   that issues for a readback, and what the content of the readbacks of a request has to say.
   */
  datatype Env = Env(
    u: Rules, h: Hasher, seal: Body -> string, isTrace: string -> bool, issue: Item -> Token,
    permits: (Authority, Option<Body>, Input) -> bool)

  /** The one token the stages issue: bytes the caller supplied, without any claim about where they come from. */
  function FromRaw(x: Item): Token {
    Token(UnattestedPartial, x.source, x.ref, x.hash, map[])
  }

  function StageOf(i: Input): Stage {
    match i
    case ToPrepare(_, _, _, _, _, _, _, _, _, _, _, _, _, _, _) => Prepare
    case ToVerify(_, _, _, _, _, _, _, _, _) => VerifyApproval
    case ToPublish(_) => PublishCandidate
    case ToCanary(_, _, _, _, _, _) => Canary
    case ToReevaluate(_, _) => Reevaluate
    case ToConclude(_) => Conclude
  }

  /** The stage before, and the lifecycle state the handler insists on. */
  function Previous(s: Stage): Option<Stage> {
    match s
    case Prepare => None
    case VerifyApproval => Some(Prepare)
    case PublishCandidate => Some(VerifyApproval)
    case Canary => Some(PublishCandidate)
    case Reevaluate => Some(Canary)
    case Conclude => Some(Reevaluate)
  }

  function Wanted(s: Stage): State {
    match s
    case Prepare => Empty
    case VerifyApproval => Proposed
    case PublishCandidate => HumanApproved
    case Canary => HumanApproved
    case Reevaluate => CanaryRecorded
    case Conclude => Reevaluated
  }

  /******* The readbacks of a request *******/

  function Parts(v: Evaluated): seq<Item> {
    match v
    case ByOracle(_, outcome, _, boundary, _) => [outcome, boundary]
    case ByAgentLoop(task, runs, _) => [task, runs]
  }

  function KindOf(v: Evaluated): SourceKind {
    if v.ByOracle? then EvaluationExport else AgentloopSls
  }

  function RawOf(env: Env, x: Item): Bytes {
    match Decode(env.u.c, env.h, x) case Some(r) => r.raw case None => []
  }

  /** The two results behind their lengths, as one readback. */
  function Combination(env: Env, v: Evaluated): Item {
    var ps := Parts(v);
    var raw := Combined([RawOf(env, ps[0]), RawOf(env, ps[1])]);
    AsDict(Raw(ReadFrom(KindOf(v)), if v.ByOracle? then v.pairRef else v.resultRef, raw, env.h.digest(raw)))
  }

  /** The exact readbacks a stage adds to the ledger, in its order. */
  function Added(env: Env, i: Input): seq<Item> {
    match i
    case ToPrepare(_, _, _, _, _, _, _, _, hero, allowlist, package, dataset, evaluation, traces, evidence) =>
      [hero, allowlist, package, dataset.item, evaluation.item] + Items(traces) + Items(evidence)
    case ToVerify(_, _, _, _, _, _, _, _, event) => [event]
    case ToPublish(responses) => responses
    case ToCanary(activation, canary, _, _, _, _) => [activation, canary]
    case ToReevaluate(_, v) =>
      (match v
       case ByOracle(a, b, c, d, _) => [a, b, c, d]
       case ByAgentLoop(a, b, _) => [a, b]) + [Combination(env, v)]
    case ToConclude(_) => []
  }

  function Items(gs: seq<Given>): seq<Item> {
    seq(|gs|, k requires 0 <= k < |gs| => gs[k].item)
  }

  function Exact(kind: SourceKind, x: Item): Given {
    Given(x.ref, kind, x.ref, x)
  }

  function Native(refs: seq<string>, x: Item): seq<Given> {
    seq(|refs|, k requires 0 <= k < |refs| => Given(refs[k], AgentteamsNative, x.ref, x))
  }

  function Traces(i: Input): seq<Given> {
    match i
    case ToPrepare(_, _, _, _, _, _, _, _, _, _, _, _, _, traces, _) => traces
    case ToCanary(_, canary, _, _, refs, _) => Native(refs, canary)
    case ToReevaluate(_, ByOracle(a, _, b, _, _)) => [Exact(EvaluationExport, a), Exact(EvaluationExport, b)]
    case ToReevaluate(_, ByAgentLoop(task, _, _)) => [Exact(AgentloopSls, task)]
    case _ => []
  }

  function Evidence(i: Input): seq<Given> {
    match i
    case ToPrepare(_, _, _, _, _, _, _, _, _, _, _, _, _, _, evidence) => evidence
    case ToCanary(_, canary, _, _, _, refs) => Native(refs, canary)
    case ToReevaluate(_, ByOracle(_, a, _, b, _)) => [Exact(EvaluationExport, a), Exact(EvaluationExport, b)]
    case ToReevaluate(_, ByAgentLoop(_, runs, _)) => [Exact(AgentloopSls, runs)]
    case _ => []
  }

  function ResultOf(env: Env, i: Input): seq<Given> {
    match i
    case ToCanary(_, canary, _, ref, _, _) => [Given(ref, AgentteamsNative, canary.ref, canary)]
    case ToReevaluate(_, v) => [Exact(KindOf(v), Combination(env, v))]
    case _ => []
  }

  /** What a request brings as live observations. */
  function Live(env: Env, i: Input): seq<Given> {
    ResultOf(env, i) + Traces(i) + Evidence(i)
  }

  function LiveArtifact(g: Given, run: string): Artifact {
    Artifact(g.ref, g.kind, g.item.hash, true, g.attestation, Some(run))
  }

  function Frozen(g: Given): Artifact {
    Artifact(g.ref, g.kind, g.item.hash, false, g.attestation, None)
  }

  function Lives(gs: seq<Given>, run: string): seq<Artifact> {
    seq(|gs|, k requires 0 <= k < |gs| => LiveArtifact(gs[k], run))
  }

  /******* The records a stage makes *******/

  function Made<T>(env: Env, value: T, content: Content): Sealed<T> {
    Sealed(value, env.u.hash(content))
  }

  function BaselineOf(env: Env, run: string, i: Input): Sealed<Baseline>
    requires i.ToPrepare?
  {
    var b := Baseline(
      i.baselineId, Frozen(i.dataset), Frozen(i.evaluation), run, Lives(i.traces, run), Lives(i.evidence, run));
    Made(env, b, OfBaseline(b))
  }

  function AttributionOf(env: Env, b: Sealed<Baseline>, i: Input): Sealed<Attribution>
    requires i.ToPrepare?
  {
    var a := Attribution(
      i.attributionId, i.skill, i.baseVersion, b.value.id, b.hash, b.value.runId, b.value.traces, b.value.evidence);
    Made(env, a, OfAttribution(a))
  }

  function ProposalOf(env: Env, b: Sealed<Baseline>, a: Sealed<Attribution>, i: Input): Sealed<Proposal>
    requires i.ToPrepare?
  {
    var p := Proposal(
      i.proposalId, i.skill, i.baseVersion, i.candidateVersion, i.package.hash, i.rollback, b.value.id, b.hash, a.value.id, a.hash);
    Made(env, p, OfProposal(p))
  }

  function DecisionOf(env: Env, p: Sealed<Proposal>, i: Input): Sealed<Decision>
    requires i.ToVerify?
  {
    var d := Decision(
      i.approvalId, i.revision, p.value.id, p.hash, i.sender, i.identity, i.event.ref, i.approve, i.verifiedAt);
    Made(env, d, OfDecision(d))
  }

  function VerificationOf(env: Env, run: string, b: Sealed<Baseline>, p: Sealed<Proposal>, i: Input): Sealed<Verification>
    requires i.ToVerify?
  {
    var d := DecisionOf(env, p, i);
    var v := Verification(
      i.verificationRef, i.event.ref, i.event.hash, i.sender, i.identity, i.approvalId, d.hash, p.value.id, p.hash,
      i.revision, i.approve, b.value.id, b.hash, run, i.verifiedAt);
    Made(env, v, OfVerification(v))
  }

  function Short(prefix: string, hash: string): string {
    prefix + (if |hash| <= 7 then "" else hash[7..if |hash| < 23 then |hash| else 23])
  }

  function ObservationOf(env: Env, run: string, b: Sealed<Baseline>, p: Sealed<Proposal>, i: Input): Observation
    requires i.ToCanary? || i.ToReevaluate?
  {
    var result := ResultOf(env, i)[0];
    Observation(
      Short(if i.ToCanary? then "skillops-canary:" else "skillops-reevaluation:", result.item.hash), p.value.id, p.hash,
      p.value.candidateVersion, b.value.dataset, b.value.evaluation, LiveArtifact(result, run), Lives(Traces(i), run),
      Lives(Evidence(i), run), i.verdict)
  }

  function ClosingOf(env: Env, r: Records, i: Input): Sealed<Closing>
    requires i.ToConclude? && Ready(r, Reevaluated)
  {
    var p := r.proposal.value;
    var action := if r.canary.value.value.verdict.Pass? && r.reevaluation.value.value.verdict.Pass? then Promote else Rollback;
    var x := Closing(
      i.receiptId, p.value.id, p.hash, action, p.value.baseVersion, p.value.candidateVersion,
      if action.Promote? then p.value.candidateVersion else p.value.baseVersion, p.value.rollback, r.baseline.value.hash,
      r.canary.value.value.id, r.canary.value.hash, r.reevaluation.value.value.id, r.reevaluation.value.hash,
      r.decision.value.value.id, r.decision.value.hash, r.verification.value.value.ref, r.verification.value.hash);
    Made(env, x, OfClosing(x))
  }

  /** The facts a handler insists on besides the state. */
  predicate Ready(r: Records, s: State) {
    && (s != Empty ==> r.baseline.Some? && r.proposal.Some?)
    && (s == Reevaluated ==> r.decision.Some? && r.verification.Some? && r.canary.Some? && r.reevaluation.Some?)
  }

  /** The transitions a handler makes. */
  function Steps(env: Env, run: string, r: Records, i: Input): seq<Transition>
    requires Ready(r, Wanted(StageOf(i)))
  {
    if i.ToPrepare? then
      var b := BaselineOf(env, run, i);
      var a := AttributionOf(env, b, i);
      [Freeze(b), Attribute(a), Propose(ProposalOf(env, b, a, i))]
    else if i.ToPublish? then []
    else
      var b, p := r.baseline.value, r.proposal.value;
      if i.ToVerify? then [Decide(DecisionOf(env, p, i), VerificationOf(env, run, b, p, i))]
      else if i.ToCanary? then
        var o := ObservationOf(env, run, b, p, i);
        [RecordCanary(Made(env, o, OfCanary(o)))]
      else if i.ToReevaluate? then
        var o := ObservationOf(env, run, b, p, i);
        [RecordReevaluation(Made(env, o, OfReevaluation(o)))]
      else [Close(ClosingOf(env, r, i))]
  }

  /******* Looking up what the records name *******/

  function Artifacts(r: Records): seq<Artifact> {
    (match r.baseline case None => [] case Some(b) => [b.value.dataset, b.value.evaluation] + b.value.traces + b.value.evidence)
    + (match r.attribution case None => [] case Some(a) => a.value.traces + a.value.evidence)
    + OfObservation(r.canary) + OfObservation(r.reevaluation)
  }

  function OfObservation(s: Option<Sealed<Observation>>): seq<Artifact> {
    match s
    case None => []
    case Some(o) => [o.value.dataset, o.value.evaluation, o.value.result] + o.value.traces + o.value.evidence
  }

  predicate Vouches(env: Env, a: Artifact, x: Item) {
    x.source == ReadFrom(a.kind) && x.hash == a.hash && Vouched(a, env.issue(x))
  }

  predicate Attests(env: Env, v: Verification, x: Item) {
    x.source == "matrix" && x.hash == v.eventHash && Confirms(env.issue(x), v)
  }

  predicate Readable(env: Env, a: Artifact, ledger: seq<Item>) {
    match FindOne(ledger, ReadFrom(a.kind), Some(a.hash), None) case None => false case Some(x) => Vouches(env, a, x)
  }

  predicate Confirmed(env: Env, v: Verification, ledger: seq<Item>) {
    match FindOne(ledger, "matrix", Some(v.eventHash), None) case None => false case Some(x) => Attests(env, v, x)
  }

  /** The lifecycle of a previous receipt; None means that it cannot be replayed. */
  function Replayed(env: Env, r: Records, ledger: seq<Item>): Option<Evolution> {
    if (forall a | a in Artifacts(r) :: a.live ==> Readable(env, a, ledger))
       && (r.decision.Some? && r.verification.Some? ==> Confirmed(env, r.verification.value.value, ledger))
    then Replay(env.u, r) else None
  }

  /******* The handlers *******/

  predicate AuthorityOk(env: Env, a: Authority) {
    && env.u.c.IsRef(a.campaignId) && env.u.c.IsRef(a.runId) && env.isTrace(a.traceId) && a.pgRevision >= 1
    && env.u.c.isHash(a.contentHash)
  }

  /** Every observation comes from its own system, and a token vouches for it. */
  predicate Witnessed(env: Env, run: string, gs: seq<Given>) {
    forall g | g in gs :: g.item.source == ReadFrom(g.kind) && Vouched(LiveArtifact(g, run), env.issue(g.item))
  }

  /** The tests a handler makes on a request and on what it brings. */
  predicate Admits(env: Env, authority: Authority, r: Records, ledger: seq<Item>, seen: Seen, i: Input)
    requires Ready(r, Wanted(StageOf(i)))
  {
    && Witnessed(env, authority.runId, Live(env, i))
    && match i
       case ToPrepare(_, _, _, _, _, _, uri, _, hero, allowlist, package, dataset, evaluation, _, _) =>
         && hero.source == "agentteams" && allowlist.source == "authority" && package.source == "nacos" && package.ref == uri
         && dataset.item.source == ReadFrom(dataset.kind) && evaluation.item.source == ReadFrom(evaluation.kind)
       case ToVerify(_, _, _, _, _, allowlistRef, _, _, event) =>
         && allowlistRef == seen.allowlistRef
         && FindOne(ledger, "authority", Some(seen.allowlistHash), Some(seen.allowlistRef)).Some?
         && Attests(env, VerificationOf(env, authority.runId, r.baseline.value, r.proposal.value, i).value, event)
       case ToPublish(responses) =>
         && FindOne(ledger, "nacos", Some(seen.packageHash), Some(seen.packageRef)).Some?
         && |responses| == 5 && (forall x | x in responses :: x.source == "nacos")
         && Published(env.issue(responses[4]), responses[4].ref, r.proposal.value.value)
       case ToCanary(activation, canary, verdict, _, _, _) =>
         activation.source == "agentteams" && canary.source == "agentteams" && verdict in {Pass, Fail}
       case ToReevaluate(verdict, _) => verdict != NotAvailable
       case ToConclude(_) => true
  }

  /** The registry's own transport vouches for the published version. */
  predicate Published(t: Token, ref: string, p: Proposal) {
    && t.kind == NativeTransport && t.source == "nacos" && t.ref == ref
    && t.Claims("version", p.candidateVersion) && t.Claims("content_hash", p.contentHash)
  }

  function SeenBy(i: Input): Seen
    requires i.ToPrepare?
  {
    Seen(i.packageUri, i.package.ref, i.package.hash, i.allowlist.ref, i.allowlist.hash)
  }

  function Apply(u: Rules, e: Option<Evolution>, ts: seq<Transition>): Option<Evolution> {
    if ts == [] then e else Then(u, Apply(u, e, ts[..|ts| - 1]), ts[|ts| - 1])
  }

  predicate Verified(env: Env, r: Receipt) {
    Normalize(env.u.c, env.h, r.body.readbacks).Some? && r.hash == env.seal(r.body)
  }

  /** The ledger of a receipt is checked once more on the way out. */
  function Emit(env: Env, stage: Stage, authority: Authority, e: Evolution, ledger: seq<Item>, seen: Seen): Option<Receipt> {
    match Normalize(env.u.c, env.h, ledger)
    case None => None
    case Some(kept) =>
      var status := if stage.PublishCandidate? then CandidatePublished else InState(e.state);
      var body := Body(stage, authority, status, e.records, kept, seen);
      Some(Receipt(body, env.seal(body)))
  }

  /** The part all handlers share, once the previous receipt has been replayed. */
  function Finish(env: Env, authority: Authority, e: Evolution, ledger: seq<Item>, seen: Seen, i: Input): Option<Receipt> {
    if e.state != Wanted(StageOf(i)) || !Ready(e.records, e.state) then None
    else if !Admits(env, authority, e.records, ledger, seen, i) then None
    else match (Apply(env.u, Some(e), Steps(env, authority.runId, e.records, i)), AddAll(ledger, Added(env, i)))
      case (Some(f), Some(more)) => Emit(env, StageOf(i), authority, f, more, seen)
      case _ => None
  }

  /** One handler: checks the previous receipt, replays it, and emits the next one. */
  function Handle(env: Env, authority: Authority, previous: Option<Receipt>, i: Input): Option<Receipt> {
    var before := match previous case None => None case Some(p) => Some(p.body);
    if !AuthorityOk(env, authority) || !env.permits(authority, before, i) then None
    else if i.ToPrepare? then
      if previous.Some? then None else Finish(env, authority, Start(i.skill), [], SeenBy(i), i)
    else if previous.None? || !Verified(env, previous.value) then None
    else
      var p := previous.value.body;
      if Some(p.stage) != Previous(StageOf(i)) || p.authority != authority then None
      else match Normalize(env.u.c, env.h, p.readbacks)
        case None => None
        case Some(ledger) =>
          match Replayed(env, p.records, ledger)
          case None => None
          case Some(e) => Finish(env, authority, e, ledger, p.seen, i)
  }

  /** One request of a chain. */
  datatype Request = Request(authority: Authority, input: Input)

  /** The last receipt of a chain in which every request was accepted. */
  function Chain(env: Env, rs: seq<Request>): Option<Receipt> {
    if rs == [] then None
    else
      var n := |rs| - 1;
      if n == 0 then Handle(env, rs[0].authority, None, rs[0].input)
      else match Chain(env, rs[..n])
        case None => None
        case Some(p) => Handle(env, rs[n].authority, Some(p), rs[n].input)
  }

  /******* What every emitted receipt satisfies *******/

  /** The states a receipt of this stage can be in. */
  predicate Reaches(stage: Stage, s: State) {
    match stage
    case Prepare => s == Proposed
    case VerifyApproval => s in {HumanApproved, Rejected}
    case PublishCandidate => s == HumanApproved
    case Canary => s == CanaryRecorded
    case Reevaluate => s == Reevaluated
    case Conclude => s in {PromotionPending, RollbackPending}
  }

  /** Some entry of the ledger holds the bytes, and a token for it vouches. */
  predicate Backed(env: Env, r: Records, ledger: seq<Item>) {
    && (forall a | a in Artifacts(r) && a.live :: exists x | x in ledger :: Vouches(env, a, x))
    && (r.decision.Some? && r.verification.Some? ==> exists x | x in ledger :: Attests(env, r.verification.value.value, x))
  }

  predicate Remembers(seen: Seen, ledger: seq<Item>) {
    && (exists x | x in ledger :: x.source == "nacos" && x.ref == seen.packageRef && x.hash == seen.packageHash)
    && (exists x | x in ledger :: x.source == "authority" && x.ref == seen.allowlistRef && x.hash == seen.allowlistHash)
  }

  /** The records replay to the state the stage reaches and the status reports. */
  predicate Current(env: Env, b: Body) {
    match Replay(env.u, b.records)
    case None => false
    case Some(e) =>
      && e.records == b.records && Linked(env.u, e) && Reaches(b.stage, e.state)
      && b.status == if b.stage.PublishCandidate? then CandidatePublished else InState(e.state)
  }

  ghost predicate Sound(env: Env, r: Receipt) {
    && Verified(env, r) && Ledger(env.u.c, env.h, r.body.readbacks) && Current(env, r.body)
    && Backed(env, r.body.records, r.body.readbacks) && Remembers(r.body.seen, r.body.readbacks)
  }

  /******* One stage *******/

  lemma {:induction false} RunApply(u: Rules, skill: string, ts: seq<Transition>, more: seq<Transition>)
    ensures Run(u, skill, ts + more) == Apply(u, Run(u, skill, ts), more)
    decreases |more|
  {
    hide Advance;
    if more == [] {
      assert ts + more == ts;
    } else {
      var n := |more| - 1;
      RunApply(u, skill, ts, more[..n]);
      assert (ts + more)[..|ts + more| - 1] == ts + more[..n];
    }
  }

  /** Transitions from a replayed lifecycle lead to one that replays as well. */
  lemma ApplyReplays(u: Rules, e: Evolution, ts: seq<Transition>)
    requires (e == Start(e.skill) && |ts| >= 3) || Replay(u, e.records) == Some(e)
    requires Apply(u, Some(e), ts).Some?
    ensures var f := Apply(u, Some(e), ts).value; Replay(u, f.records) == Some(f) && Linked(u, f) && f.skill == e.skill
  {
    hide Apply, Told, Run, Linked;
    var before: seq<Transition>;
    if Replay(u, e.records) == Some(e) {
      before := Told(e.records);
      ReplayIsRun(u, e);
    } else {
      before := [];
      StartIsRun(u, e.skill);
    }
    RunApply(u, e.skill, before, ts);
    EveryRunIsLinked(u, e.skill, before + ts);
    RunIsReplayed(u, e.skill, before + ts);
  }

  lemma StartIsRun(u: Rules, skill: string)
    ensures Run(u, skill, []) == Some(Start(skill))
  {
  }

  lemma ReplayIsRun(u: Rules, e: Evolution)
    requires Replay(u, e.records) == Some(e)
    ensures Run(u, e.skill, Told(e.records)) == Some(e) && |Told(e.records)| >= 3
  {
    hide Run;
    EveryRunIsLinked(u, e.records.proposal.value.value.skill, Told(e.records));
    hide Linked;
  }

  lemma {:induction false} ApplyWrites(u: Rules, e: Evolution, ts: seq<Transition>)
    requires Apply(u, Some(e), ts).Some?
    ensures
      var f := Apply(u, Some(e), ts).value;
      f.records == Written(e.records, ts) && f.state == if ts == [] then e.state else After(ts[|ts| - 1])
    decreases |ts|
  {
    hide Accepts, Write, After;
    if ts != [] { ApplyWrites(u, e, ts[..|ts| - 1]); }
  }

  lemma StepsLead(env: Env, run: string, e: Evolution, i: Input)
    requires e.state == Wanted(StageOf(i)) && Ready(e.records, e.state)
    requires Apply(env.u, Some(e), Steps(env, run, e.records, i)).Some?
    ensures
      var f := Apply(env.u, Some(e), Steps(env, run, e.records, i)).value;
      Reaches(StageOf(i), f.state) && f.records == Written(e.records, Steps(env, run, e.records, i))
  {
    ApplyWrites(env.u, e, Steps(env, run, e.records, i));
    hide Apply, Written, BaselineOf, AttributionOf, ProposalOf, DecisionOf, VerificationOf, ObservationOf, ClosingOf, Ready;
  }

  function Written(r: Records, ts: seq<Transition>): Records {
    if ts == [] then r else Write(Written(r, ts[..|ts| - 1]), ts[|ts| - 1])
  }

  /******* New artifacts are backed by new readbacks *******/

  function Carried(t: Transition): seq<Artifact> {
    match t
    case Freeze(b) => [b.value.dataset, b.value.evaluation] + b.value.traces + b.value.evidence
    case Attribute(a) => a.value.traces + a.value.evidence
    case RecordCanary(o) => OfObservation(Some(o))
    case RecordReevaluation(o) => OfObservation(Some(o))
    case _ => []
  }

  lemma WriteCarries(r: Records, t: Transition)
    ensures forall a | a in Artifacts(Write(r, t)) :: a in Artifacts(r) || a in Carried(t)
  {
    hide OfObservation;
  }

  lemma {:induction false} WrittenCarries(r: Records, ts: seq<Transition>)
    ensures forall a | a in Artifacts(Written(r, ts)) :: a in Artifacts(r) || exists t | t in ts :: a in Carried(t)
    decreases |ts|
  {
    hide Artifacts, Carried, Write;
    if ts != [] {
      var n := |ts| - 1;
      WrittenCarries(r, ts[..n]);
      WriteCarries(Written(r, ts[..n]), ts[n]);
      assert ts[n] in ts;
    }
  }

  lemma LivesAreLive(gs: seq<Given>, run: string)
    ensures forall a | a in Lives(gs, run) :: exists g | g in gs :: a == LiveArtifact(g, run)
  {
    forall a | a in Lives(gs, run) ensures exists g | g in gs :: a == LiveArtifact(g, run) {
      var k :| 0 <= k < |gs| && Lives(gs, run)[k] == a;
      assert gs[k] in gs;
    }
  }

  predicate Brought(env: Env, run: string, i: Input, a: Artifact) {
    exists g | g in Live(env, i) :: a == LiveArtifact(g, run)
  }

  lemma LivesAreBrought(env: Env, run: string, i: Input)
    ensures forall a | a in Lives(Traces(i), run) + Lives(Evidence(i), run) :: Brought(env, run, i, a)
    ensures ResultOf(env, i) != [] ==> Brought(env, run, i, LiveArtifact(ResultOf(env, i)[0], run))
  {
    LivesAreLive(Traces(i), run);
    LivesAreLive(Evidence(i), run);
    hide Lives, LiveArtifact, Traces, Evidence, ResultOf;
  }

  lemma PrepareCarries(env: Env, run: string, i: Input, a: Artifact)
    requires i.ToPrepare? && a.live
    requires
      var b := BaselineOf(env, run, i).value;
      a in [b.dataset, b.evaluation] + b.traces + b.evidence
    ensures Brought(env, run, i, a)
  {
    LivesAreBrought(env, run, i);
    assert Traces(i) == i.traces && Evidence(i) == i.evidence;
    hide Lives, Brought;
  }

  lemma ObservationCarries(env: Env, run: string, b: Sealed<Baseline>, p: Sealed<Proposal>, i: Input, a: Artifact)
    requires i.ToCanary? || i.ToReevaluate?
    requires a in OfObservation(Some(Sealed(ObservationOf(env, run, b, p, i), "")))
    ensures a in [b.value.dataset, b.value.evaluation] || Brought(env, run, i, a)
  {
    LivesAreBrought(env, run, i);
    hide Lives, Brought, Short, LiveArtifact, Traces, Evidence;
  }

  lemma StepsCarry(env: Env, run: string, r: Records, i: Input)
    requires Ready(r, Wanted(StageOf(i)))
    ensures forall t, a | t in Steps(env, run, r, i) && a in Carried(t) && a.live :: a in Artifacts(r) || Brought(env, run, i, a)
  {
    forall t, a | t in Steps(env, run, r, i) && a in Carried(t) && a.live
      ensures a in Artifacts(r) || Brought(env, run, i, a)
    {
      if i.ToPrepare? {
        PrepareStep(env, run, r, i, t, a);
        PrepareCarries(env, run, i, a);
      } else if i.ToCanary? || i.ToReevaluate? {
        var b, p := r.baseline.value, r.proposal.value;
        ObservationStep(env, run, r, i, t, a);
        ObservationCarries(env, run, b, p, i, a);
        assert b.value.dataset in Artifacts(r) && b.value.evaluation in Artifacts(r);
      } else {
        OtherStep(env, run, r, i, t);
      }
    }
  }

  lemma PrepareStep(env: Env, run: string, r: Records, i: Input, t: Transition, a: Artifact)
    requires i.ToPrepare? && t in Steps(env, run, r, i) && a in Carried(t)
    ensures
      var b := BaselineOf(env, run, i).value;
      a in [b.dataset, b.evaluation] + b.traces + b.evidence
  {
    hide BaselineOf, ProposalOf;
  }

  lemma ObservationStep(env: Env, run: string, r: Records, i: Input, t: Transition, a: Artifact)
    requires (i.ToCanary? || i.ToReevaluate?) && Ready(r, Wanted(StageOf(i))) && t in Steps(env, run, r, i) && a in Carried(t)
    ensures a in OfObservation(Some(Sealed(ObservationOf(env, run, r.baseline.value, r.proposal.value, i), "")))
  {
    hide ObservationOf;
  }

  lemma OtherStep(env: Env, run: string, r: Records, i: Input, t: Transition)
    requires i.ToVerify? || i.ToPublish? || i.ToConclude?
    requires Ready(r, Wanted(StageOf(i))) && t in Steps(env, run, r, i)
    ensures Carried(t) == []
  {
    hide DecisionOf, VerificationOf, ClosingOf;
  }

  lemma LiveIsAdded(env: Env, i: Input)
    ensures forall g | g in Live(env, i) :: g.item in Added(env, i)
  {
    hide Combination;
    match i
    case ToPrepare(_, _, _, _, _, _, _, _, hero, allowlist, package, dataset, evaluation, traces, evidence) =>
      ItemsAre(traces);
      ItemsAre(evidence);
    case _ =>
  }

  lemma ItemsAre(gs: seq<Given>)
    ensures forall g | g in gs :: g.item in Items(gs)
  {
    forall g | g in gs ensures g.item in Items(gs) {
      var k :| 0 <= k < |gs| && gs[k] == g;
      assert Items(gs)[k] == g.item;
    }
  }

  lemma NewArtifactsAreBacked(env: Env, run: string, r: Records, i: Input, more: seq<Item>, a: Artifact)
    requires Ready(r, Wanted(StageOf(i))) && Witnessed(env, run, Live(env, i)) && (forall x | x in Added(env, i) :: x in more)
    requires a in Artifacts(Written(r, Steps(env, run, r, i))) && a.live
    ensures a in Artifacts(r) || exists x | x in more :: Vouches(env, a, x)
  {
    hide Artifacts, Carried, Steps, Live, Added, Vouched, Ready, Written, Brought;
    if a !in Artifacts(r) {
      WrittenCarries(r, Steps(env, run, r, i));
      StepsCarry(env, run, r, i);
      IsBrought(env, run, i, a);
      LiveIsAdded(env, i);
      var g :| g in Live(env, i) && a == LiveArtifact(g, run);
      assert Vouches(env, a, g.item);
    }
  }

  lemma IsBrought(env: Env, run: string, i: Input, a: Artifact)
    requires Brought(env, run, i, a)
    ensures exists g | g in Live(env, i) :: a == LiveArtifact(g, run)
  {
    hide Live, LiveArtifact;
  }

  lemma {:induction false} VerificationStays(r: Records, ts: seq<Transition>)
    ensures
      var s := Written(r, ts);
      (forall t | t in ts :: !t.Decide?) ==> s.decision == r.decision && s.verification == r.verification
    decreases |ts|
  {
    if ts != [] {
      VerificationStays(r, ts[..|ts| - 1]);
      assert ts[|ts| - 1] in ts;
    }
  }

  lemma VerifyWrites(env: Env, run: string, r: Records, i: Input)
    requires Ready(r, Proposed) && i.ToVerify?
    ensures Written(r, Steps(env, run, r, i)).verification == Some(VerificationOf(env, run, r.baseline.value, r.proposal.value, i))
    ensures i.event in Added(env, i)
  {
    assert Steps(env, run, r, i)[..0] == [];
    hide DecisionOf, VerificationOf;
  }

  lemma OthersDoNotDecide(env: Env, run: string, r: Records, i: Input)
    requires Ready(r, Wanted(StageOf(i))) && !i.ToVerify?
    ensures forall t | t in Steps(env, run, r, i) :: !t.Decide?
  {
    hide BaselineOf, AttributionOf, ProposalOf, ObservationOf, ClosingOf, Ready;
  }

  lemma AttestationIsBacked(env: Env, authority: Authority, r: Records, ledger: seq<Item>, seen: Seen, i: Input)
    requires Ready(r, Wanted(StageOf(i))) && Admits(env, authority, r, ledger, seen, i)
    ensures
      var s := Written(r, Steps(env, authority.runId, r, i));
      || (s.decision == r.decision && s.verification == r.verification)
      || (s.verification.Some? && exists x | x in Added(env, i) :: Attests(env, s.verification.value.value, x))
  {
    hide Live, Witnessed, Attests, Published, Steps, Written, Ready, VerificationOf, Added;
    if i.ToVerify? {
      VerifyWrites(env, authority.runId, r, i);
    } else {
      OthersDoNotDecide(env, authority.runId, r, i);
      VerificationStays(r, Steps(env, authority.runId, r, i));
    }
  }

  lemma BackedStays(env: Env, authority: Authority, r: Records, ledger: seq<Item>, seen: Seen, i: Input, more: seq<Item>)
    requires Ready(r, Wanted(StageOf(i))) && Admits(env, authority, r, ledger, seen, i) && Backed(env, r, ledger)
    requires (forall x | x in ledger :: x in more) && (forall x | x in Added(env, i) :: x in more)
    ensures Backed(env, Written(r, Steps(env, authority.runId, r, i)), more)
  {
    var s := Written(r, Steps(env, authority.runId, r, i));
    AttestationIsBacked(env, authority, r, ledger, seen, i);
    assert Witnessed(env, authority.runId, Live(env, i));
    hide Artifacts, Steps, Live, Added, Vouches, Attests, Written, Ready, Admits;
    forall a | a in Artifacts(s) && a.live ensures exists x | x in more :: Vouches(env, a, x) {
      NewArtifactsAreBacked(env, authority.runId, r, i, more, a);
    }
  }

  /******* Every receipt of every chain is sound *******/

  /** A slot that is filled stays filled with the same record. */
  predicate OnlyFills(r: Records, s: Records) {
    && (r.baseline.Some? ==> s.baseline == r.baseline) && (r.attribution.Some? ==> s.attribution == r.attribution)
    && (r.proposal.Some? ==> s.proposal == r.proposal) && (r.decision.Some? ==> s.decision == r.decision)
    && (r.verification.Some? ==> s.verification == r.verification) && (r.canary.Some? ==> s.canary == r.canary)
    && (r.reevaluation.Some? ==> s.reevaluation == r.reevaluation) && (r.receipt.Some? ==> s.receipt == r.receipt)
  }

  lemma WriteOnlyFills(e: Evolution, t: Transition)
    requires Shape(e) && e.state == Before(t)
    ensures OnlyFills(e.records, Write(e.records, t))
  {
  }

  lemma StepsOnlyFill(env: Env, run: string, e: Evolution, i: Input)
    requires Shape(e) && e.state == Wanted(StageOf(i)) && Ready(e.records, e.state)
    ensures OnlyFills(e.records, Written(e.records, Steps(env, run, e.records, i)))
  {
    hide BaselineOf, AttributionOf, ProposalOf, DecisionOf, VerificationOf, ObservationOf, ClosingOf, Write, Ready;
    var ts := Steps(env, run, e.records, i);
    if i.ToPrepare? || i.ToPublish? {
      hide Steps, Written, Shape;
      NothingToKeep(e, Written(e.records, ts));
      if i.ToPublish? { PublishWritesNothing(env, run, e.records, i); }
    } else {
      assert ts[..0] == [] && e.state == Before(ts[0]);
      WriteOnlyFills(e, ts[0]);
      hide Steps, Shape, OnlyFills;
    }
  }

  lemma NothingToKeep(e: Evolution, s: Records)
    ensures Shape(e) && e.state == Empty ==> OnlyFills(e.records, s)
    ensures OnlyFills(e.records, e.records)
  {
  }

  lemma PublishWritesNothing(env: Env, run: string, r: Records, i: Input)
    requires Ready(r, Wanted(StageOf(i))) && i.ToPublish?
    ensures Steps(env, run, r, i) == [] && Written(r, Steps(env, run, r, i)) == r
  {
  }

  /** What Finish starts from: nothing at all, or a replayed and backed lifecycle. */
  ghost predicate Startable(env: Env, e: Evolution, ledger: seq<Item>, seen: Seen, i: Input) {
    && Functional(ledger) && Backed(env, e.records, ledger) && Linked(env.u, e)
    && if i.ToPrepare? then e == Start(i.skill) && seen == SeenBy(i) && ledger == []
       else Replay(env.u, e.records) == Some(e) && Remembers(seen, ledger)
  }

  lemma EmittedBody(env: Env, authority: Authority, e: Evolution, ledger: seq<Item>, seen: Seen, i: Input)
    requires Finish(env, authority, e, ledger, seen, i).Some? && Functional(ledger)
    ensures e.state == Wanted(StageOf(i)) && Ready(e.records, e.state) && Admits(env, authority, e.records, ledger, seen, i)
    ensures Apply(env.u, Some(e), Steps(env, authority.runId, e.records, i)).Some? && AddAll(ledger, Added(env, i)).Some?
    ensures
      var r := Finish(env, authority, e, ledger, seen, i).value;
      var f := Apply(env.u, Some(e), Steps(env, authority.runId, e.records, i)).value;
      var more := AddAll(ledger, Added(env, i)).value;
      && r == Receipt(r.body, env.seal(r.body)) && Normalize(env.u.c, env.h, more) == Some(more) && Ledger(env.u.c, env.h, more)
      && r.body == Body(StageOf(i), authority, if i.ToPublish? then CandidatePublished else InState(f.state), f.records, more, seen)
  {
    hide Apply, Steps, AddAll, Admits, Ready, Normalize, Added, Functional, Ledger;
    var more := AddAll(ledger, Added(env, i)).value;
    AddAllOnlyGrows(ledger, Added(env, i));
    FunctionalIsNormal(env.u.c, env.h, more);
  }

  lemma StepsReplay(env: Env, run: string, e: Evolution, ledger: seq<Item>, seen: Seen, i: Input)
    requires Startable(env, e, ledger, seen, i) && e.state == Wanted(StageOf(i)) && Ready(e.records, e.state)
    requires Apply(env.u, Some(e), Steps(env, run, e.records, i)).Some?
    ensures
      var f := Apply(env.u, Some(e), Steps(env, run, e.records, i)).value;
      Replay(env.u, f.records) == Some(f) && Linked(env.u, f) && f.skill == e.skill
  {
    assert i.ToPrepare? ==> |Steps(env, run, e.records, i)| == 3;
    hide Steps, Apply, Replay, Linked, Backed, Remembers, Functional, Ready;
    ApplyReplays(env.u, e, Steps(env, run, e.records, i));
  }

  lemma RemembersLater(env: Env, e: Evolution, ledger: seq<Item>, seen: Seen, i: Input, authority: Authority, more: seq<Item>)
    requires Startable(env, e, ledger, seen, i) && Ready(e.records, Wanted(StageOf(i)))
    requires Admits(env, authority, e.records, ledger, seen, i)
    requires (forall x | x in ledger :: x in more) && (forall x | x in Added(env, i) :: x in more)
    ensures Remembers(seen, more)
  {
    hide Backed, Replay, Linked, Functional, Witnessed, Live, Attests, Published, VerificationOf, Ready;
    if i.ToPrepare? {
      assert i.package in Added(env, i) && i.allowlist in Added(env, i);
    }
    hide Added;
  }

  /**
   What one stage leaves behind: a receipt that the next stage's check accepts, whose records
   replay to the state it reports and are backed by its ledger, with nothing lost on the way.
   */
  lemma FinishIsSound(env: Env, authority: Authority, e: Evolution, ledger: seq<Item>, seen: Seen, i: Input)
    requires Startable(env, e, ledger, seen, i) && Finish(env, authority, e, ledger, seen, i).Some?
    ensures
      var r := Finish(env, authority, e, ledger, seen, i).value;
      && Sound(env, r) && r.body.authority == authority && r.body.stage == StageOf(i) && r.body.seen == seen
      && ledger <= r.body.readbacks && (forall x | x in Added(env, i) :: x in r.body.readbacks)
      && (forall x | x in r.body.readbacks :: x in ledger || x in Added(env, i))
      && OnlyFills(e.records, r.body.records)
      && Ready(e.records, Wanted(StageOf(i))) && r.body.records == Written(e.records, Steps(env, authority.runId, e.records, i))
  {
    assert Functional(ledger) && Linked(env.u, e) && Backed(env, e.records, ledger);
    EmittedBody(env, authority, e, ledger, seen, i);
    hide *;
    var more := AddAll(ledger, Added(env, i)).value;
    AddAllOnlyGrows(ledger, Added(env, i));
    AddAllFrom(ledger, Added(env, i));
    StepsReplay(env, authority.runId, e, ledger, seen, i);
    StepsLead(env, authority.runId, e, i);
    LinkedShape(env.u, e);
    StepsOnlyFill(env, authority.runId, e, i);
    BackedStays(env, authority, e.records, ledger, seen, i, more);
    RemembersLater(env, e, ledger, seen, i, authority, more);
    var r := Finish(env, authority, e, ledger, seen, i).value;
    SoundWhen(env, r, Apply(env.u, Some(e), Steps(env, authority.runId, e.records, i)).value, i);
  }

  lemma LinkedShape(u: Rules, e: Evolution)
    requires Linked(u, e)
    ensures Shape(e)
  {
    hide Shape;
  }

  lemma SoundWhen(env: Env, r: Receipt, f: Evolution, i: Input)
    requires Replay(env.u, f.records) == Some(f) && Linked(env.u, f) && Reaches(StageOf(i), f.state)
    requires Normalize(env.u.c, env.h, r.body.readbacks).Some? && Ledger(env.u.c, env.h, r.body.readbacks)
    requires r == Receipt(r.body, env.seal(r.body)) && r.body.stage == StageOf(i) && r.body.records == f.records
    requires r.body.status == if i.ToPublish? then CandidatePublished else InState(f.state)
    requires Backed(env, f.records, r.body.readbacks) && Remembers(r.body.seen, r.body.readbacks)
    ensures Sound(env, r)
  {
    hide Replay, Linked, Reaches, Normalize, Ledger, Backed, Remembers;
  }

  /** The lifecycle a sound receipt carries. */
  ghost function Carries(env: Env, p: Receipt): Evolution
    requires Sound(env, p)
  {
    Replay(env.u, p.body.records).value
  }

  lemma SoundIsStartable(env: Env, p: Receipt, i: Input)
    requires Sound(env, p)
    ensures !i.ToPrepare? ==> Startable(env, Carries(env, p), p.body.readbacks, p.body.seen, i)
    ensures Carries(env, p).records == p.body.records && Normalize(env.u.c, env.h, p.body.readbacks) == Some(p.body.readbacks)
  {
    LedgerIsNormal(env.u.c, env.h, p.body.readbacks);
    hide Replay, Linked, Backed, Remembers, Functional, AllDecode, Normalize, Reaches;
  }

  lemma NothingIsStartable(env: Env, i: Input)
    requires i.ToPrepare?
    ensures Startable(env, Start(i.skill), [], SeenBy(i), i)
  {
  }

  lemma HandleFinishes(env: Env, authority: Authority, p: Receipt, i: Input)
    requires Sound(env, p) && Handle(env, authority, Some(p), i).Some?
    ensures !i.ToPrepare? && Some(p.body.stage) == Previous(StageOf(i)) && p.body.authority == authority
    ensures Handle(env, authority, Some(p), i) == Finish(env, authority, Carries(env, p), p.body.readbacks, p.body.seen, i)
  {
    SoundIsStartable(env, p, i);
    HandleIs(env, authority, p, i);
    ReplayedIs(env, p.body.records, p.body.readbacks);
    hide Sound, Handle, Finish, Replay, Normalize, Startable, Replayed;
  }

  /** What a later stage comes down to. */
  lemma HandleIs(env: Env, authority: Authority, p: Receipt, i: Input)
    requires Normalize(env.u.c, env.h, p.body.readbacks) == Some(p.body.readbacks)
    ensures
      var e := Replayed(env, p.body.records, p.body.readbacks);
      Handle(env, authority, Some(p), i) ==
      if !i.ToPrepare? && AuthorityOk(env, authority) && env.permits(authority, Some(p.body), i) && p.hash == env.seal(p.body)
         && Some(p.body.stage) == Previous(StageOf(i)) && p.body.authority == authority && e.Some?
      then Finish(env, authority, e.value, p.body.readbacks, p.body.seen, i) else None
  {
    hide Finish, Replayed, Normalize, AuthorityOk, Previous, StageOf;
  }

  lemma ReplayedIs(env: Env, r: Records, ledger: seq<Item>)
    ensures Replayed(env, r, ledger).Some? ==> Replayed(env, r, ledger) == Replay(env.u, r)
  {
    hide Artifacts, Readable, Confirmed, Replay;
  }

  /**
   One later stage: the authority stays, the ledger keeps every entry in place and holds the
   new readbacks, filled slots stay, and the emitted receipt is sound again.
   */
  lemma StageIsSound(env: Env, authority: Authority, p: Receipt, i: Input)
    requires Sound(env, p) && Handle(env, authority, Some(p), i).Some?
    ensures
      var r := Handle(env, authority, Some(p), i).value;
      && Sound(env, r) && Previous(r.body.stage) == Some(p.body.stage) && r.body.stage == StageOf(i)
      && Extends(p.body, r.body) && r.body.authority == authority && (forall x | x in Added(env, i) :: x in r.body.readbacks)
      && (forall x | x in r.body.readbacks :: x in p.body.readbacks || x in Added(env, i))
      && Ready(p.body.records, Wanted(StageOf(i)))
      && r.body.records == Written(p.body.records, Steps(env, authority.runId, p.body.records, i))
  {
    hide *;
    HandleFinishes(env, authority, p, i);
    SoundIsStartable(env, p, i);
    FinishIsSound(env, authority, Carries(env, p), p.body.readbacks, p.body.seen, i);
    ExtendsWhen(p.body, Handle(env, authority, Some(p), i).value.body);
  }

  predicate Extends(p: Body, r: Body) {
    p.authority == r.authority && p.readbacks <= r.readbacks && OnlyFills(p.records, r.records) && p.seen == r.seen
  }

  lemma ExtendsWhen(p: Body, r: Body)
    ensures p.authority == r.authority && p.readbacks <= r.readbacks && OnlyFills(p.records, r.records) && p.seen == r.seen
            <==> Extends(p, r)
  {
    hide OnlyFills;
  }

  lemma PrepareIsSound(env: Env, authority: Authority, i: Input)
    requires Handle(env, authority, None, i).Some?
    ensures i.ToPrepare?
    ensures
      var r := Handle(env, authority, None, i).value;
      && Sound(env, r) && r.body.stage.Prepare? && r.body.authority == authority
      && (forall x :: x in r.body.readbacks <==> x in Added(env, i))
      && r.body.records == Written(NOTHING, Steps(env, authority.runId, NOTHING, i))
  {
    FirstIs(env, authority, i);
    hide *;
    NothingIsStartable(env, i);
    FinishIsSound(env, authority, Start(i.skill), [], SeenBy(i), i);
    StartIsEmpty(i.skill);
    PrepareIsFirst(i);
  }

  lemma StartIsEmpty(skill: string)
    ensures Start(skill).records == NOTHING
  {
  }

  lemma PrepareIsFirst(i: Input)
    ensures i.ToPrepare? <==> StageOf(i).Prepare?
    ensures i.ToPrepare? ==> Wanted(StageOf(i)) == Empty && Ready(NOTHING, Wanted(StageOf(i)))
  {
  }

  /** A chain is one stage, or a chain and one more stage. */
  lemma ChainStep(env: Env, rs: seq<Request>)
    requires Chain(env, rs).Some?
    ensures rs != [] && (|rs| == 1 ==> Chain(env, rs) == Handle(env, rs[0].authority, None, rs[0].input))
    ensures
      var n := |rs| - 1;
      n > 0 ==>
        Chain(env, rs[..n]).Some? && Chain(env, rs) == Handle(env, rs[n].authority, Chain(env, rs[..n]), rs[n].input)
  {
    hide Handle;
  }

  lemma {:induction false} ChainIsSound(env: Env, rs: seq<Request>)
    requires Chain(env, rs).Some?
    ensures var r := Chain(env, rs).value;
            && Sound(env, r) && r.body.stage == StageOf(rs[|rs| - 1].input)
            && (forall q | q in rs :: q.authority == r.body.authority)
  {
    hide *;
    ChainStep(env, rs);
    var n := |rs| - 1;
    assert rs[n] in rs;
    if n == 0 {
      PrepareIsSound(env, rs[0].authority, rs[0].input);
      PrepareIsFirst(rs[0].input);
    } else {
      ChainIsSound(env, rs[..n]);
      var p, r := Chain(env, rs[..n]).value, Chain(env, rs).value;
      StageIsSound(env, rs[n].authority, p, rs[n].input);
      ExtendsWhen(p.body, r.body);
      assert rs == rs[..n] + [rs[n]];
    }
  }

  /** The place of a stage in the order. */
  function Place(s: Stage): nat {
    match s
    case Prepare => 1
    case VerifyApproval => 2
    case PublishCandidate => 3
    case Canary => 4
    case Reevaluate => 5
    case Conclude => 6
  }

  lemma PlaceSteps(s: Stage)
    ensures 1 <= Place(s) <= 6 && (Previous(s).Some? ==> Place(s) == Place(Previous(s).value) + 1)
  {
  }

  lemma OneStageExtends(env: Env, rs: seq<Request>)
    requires Chain(env, rs).Some? && |rs| > 1
    ensures Chain(env, rs[..|rs| - 1]).Some? && Extends(Chain(env, rs[..|rs| - 1]).value.body, Chain(env, rs).value.body)
    ensures Place(Chain(env, rs).value.body.stage) == Place(Chain(env, rs[..|rs| - 1]).value.body.stage) + 1
    ensures Chain(env, rs).value.body.stage == StageOf(rs[|rs| - 1].input)
  {
    hide *;
    var n := |rs| - 1;
    ChainStep(env, rs);
    ChainIsSound(env, rs[..n]);
    StageIsSound(env, rs[n].authority, Chain(env, rs[..n]).value, rs[n].input);
    PlaceSteps(Chain(env, rs).value.body.stage);
  }

  /** From one receipt of a chain to a later one: nothing recorded is lost or altered. */
  lemma {:induction false} ChainOnlyGrows(env: Env, rs: seq<Request>, k: nat)
    requires 0 < k <= |rs| && Chain(env, rs).Some?
    ensures Chain(env, rs[..k]).Some? && Extends(Chain(env, rs[..k]).value.body, Chain(env, rs).value.body)
    decreases |rs|
  {
    hide *;
    if k == |rs| {
      assert rs[..k] == rs;
      ExtendsItself(Chain(env, rs).value.body);
    } else {
      var n := |rs| - 1;
      assert rs[..n][..k] == rs[..k];
      OneStageExtends(env, rs);
      ChainOnlyGrows(env, rs[..n], k);
      ExtendsCompose(Chain(env, rs[..k]).value.body, Chain(env, rs[..n]).value.body, Chain(env, rs).value.body);
    }
  }

  lemma ExtendsItself(p: Body)
    ensures Extends(p, p)
  {
  }

  lemma ExtendsCompose(p: Body, q: Body, r: Body)
    requires Extends(p, q) && Extends(q, r)
    ensures Extends(p, r)
  {
  }

  /** A chain visits the stages in their order, so it has at most six requests. */
  lemma {:induction false} ChainVisitsStagesInOrder(env: Env, rs: seq<Request>)
    requires Chain(env, rs).Some?
    ensures Place(Chain(env, rs).value.body.stage) == |rs| <= 6
    ensures forall k | 0 <= k < |rs| :: Place(StageOf(rs[k].input)) == k + 1
    decreases |rs|
  {
    hide *;
    ChainStep(env, rs);
    PlaceSteps(Chain(env, rs).value.body.stage);
    if |rs| > 1 {
      OneStageExtends(env, rs);
      ChainVisitsStagesInOrder(env, rs[..|rs| - 1]);
      forall k | 0 <= k < |rs| - 1 ensures Place(StageOf(rs[k].input)) == k + 1 { assert rs[..|rs| - 1][k] == rs[k]; }
    } else {
      ChainIsSound(env, rs);
      PrepareIsSound(env, rs[0].authority, rs[0].input);
      FirstPlace();
    }
  }

  lemma FirstPlace()
    ensures Place(Prepare) == 1
  {
  }

  /** No readback an input brings contradicts the ledger or another one it brings, and all of them decode. */
  predicate Fits(env: Env, ledger: seq<Item>, added: seq<Item>) {
    && AllDecode(env.u.c, env.h, added)
    && forall x, y | x in ledger + added && y in ledger + added && SameKey(x, y) :: x == y
  }

  lemma {:induction false} AddAllWhenFitting(ledger: seq<Item>, xs: seq<Item>)
    requires Functional(ledger)
    ensures AddAll(ledger, xs).Some? <==> forall x, y | x in ledger + xs && y in ledger + xs && SameKey(x, y) :: x == y
    decreases |xs|
  {
    if xs == [] {
      assert ledger + xs == ledger;
      FunctionalAgrees(ledger);
    } else {
      var x, rest := xs[0], xs[1..];
      assert xs == [x] + rest;
      AddIsExact(ledger, x);
      FunctionalAgrees(ledger);
      hide Functional, Add, AddAll;
      AddAllStep(ledger, xs);
      if Add(ledger, x).Some? {
        var l := Add(ledger, x).value;
        AddAllWhenFitting(l, rest);
        assert forall z :: z in l + rest <==> z in ledger + xs;
      } else {
        var y :| y in ledger && SameKey(y, x) && y != x;
        assert y in ledger + xs && x in ledger + xs;
      }
    }
  }

  lemma AddAllStep(ledger: seq<Item>, xs: seq<Item>)
    requires xs != []
    ensures AddAll(ledger, xs) == if Add(ledger, xs[0]).None? then None else AddAll(Add(ledger, xs[0]).value, xs[1..])
  {
    hide Add;
  }

  lemma FunctionalAgrees(ledger: seq<Item>)
    requires Functional(ledger)
    ensures forall x, y | x in ledger && y in ledger && SameKey(x, y) :: x == y
  {
    forall x, y | x in ledger && y in ledger && SameKey(x, y) ensures x == y {
      var i :| 0 <= i < |ledger| && ledger[i] == x;
      var j :| 0 <= j < |ledger| && ledger[j] == y;
    }
  }

  lemma LedgerOf(env: Env, ledger: seq<Item>, xs: seq<Item>)
    requires Ledger(env.u.c, env.h, ledger) && AddAll(ledger, xs).Some?
    ensures Normalize(env.u.c, env.h, AddAll(ledger, xs).value).Some? <==> AllDecode(env.u.c, env.h, xs)
  {
    var more := AddAll(ledger, xs).value;
    AddAllOnlyGrows(ledger, xs);
    AddAllFrom(ledger, xs);
    hide Decode, AddAll, Functional;
    if AllDecode(env.u.c, env.h, xs) {
      LedgerIsNormal(env.u.c, env.h, more);
    } else if Normalize(env.u.c, env.h, more).Some? {
      EveryItemDecodes(env.u.c, env.h, more);
    }
  }

  lemma {:induction false} AddAllFrom(ledger: seq<Item>, xs: seq<Item>)
    requires Functional(ledger) && AddAll(ledger, xs).Some?
    ensures forall x | x in AddAll(ledger, xs).value :: x in ledger || x in xs
    decreases |xs|
  {
    hide Functional, Add;
    if xs != [] {
      AddIsExact(ledger, xs[0]);
      AddAllFrom(Add(ledger, xs[0]).value, xs[1..]);
      assert xs == [xs[0]] + xs[1..];
    }
  }

  /******* Which receipts can be replayed *******/

  /** The records name these bytes: a live artifact, or the attested decision event, by source and hash. */
  predicate Names(r: Records, x: Item) {
    || (exists a | a in Artifacts(r) :: a.live && ReadFrom(a.kind) == x.source && a.hash == x.hash)
    || (r.decision.Some? && r.verification.Some? && "matrix" == x.source && r.verification.value.value.eventHash == x.hash)
  }

  predicate SameBytes(x: Item, y: Item) {
    x.source == y.source && x.hash == y.hash
  }

  /** No named bytes are in the ledger under two references. */
  predicate Unambiguous(r: Records, ledger: seq<Item>) {
    forall x, y | x in ledger && y in ledger && SameBytes(x, y) && Names(r, x) :: x.ref == y.ref
  }

  lemma ReadableExactlyWhen(env: Env, a: Artifact, ledger: seq<Item>)
    requires Functional(ledger) && exists x | x in ledger :: Vouches(env, a, x)
    ensures Readable(env, a, ledger) <==> Alone(ledger, ReadFrom(a.kind), a.hash)
  {
    var x :| x in ledger && Vouches(env, a, x);
    LookupByHashExactlyWhen(ledger, x);
    assert x.source == ReadFrom(a.kind) && x.hash == a.hash;
    if FindOne(ledger, x.source, Some(x.hash), None).Some? { FoundIsAlone(ledger, x.source, x.hash); }
    hide FindOne, Functional, Vouched;
  }

  lemma ConfirmedExactlyWhen(env: Env, v: Verification, ledger: seq<Item>)
    requires Functional(ledger) && exists x | x in ledger :: Attests(env, v, x)
    ensures Confirmed(env, v, ledger) <==> Alone(ledger, "matrix", v.eventHash)
  {
    var x :| x in ledger && Attests(env, v, x);
    LookupByHashExactlyWhen(ledger, x);
    assert x.source == "matrix" && x.hash == v.eventHash;
    if FindOne(ledger, x.source, Some(x.hash), None).Some? { FoundIsAlone(ledger, x.source, x.hash); }
    hide FindOne, Functional, Confirms;
  }

  /** Every entry with these bytes has the same reference. */
  predicate Alone(ledger: seq<Item>, source: string, hash: string) {
    forall x, y | x in ledger && y in ledger && SameBytes(x, y) && x.source == source && x.hash == hash :: x.ref == y.ref
  }

  lemma UnambiguousExactlyWhen(r: Records, ledger: seq<Item>)
    ensures Unambiguous(r, ledger) <==> AllAlone(r, ledger)
  {
    hide Artifacts, ReadFrom, SameBytes;
    forall a | Unambiguous(r, ledger) && a in Artifacts(r) && a.live ensures Alone(ledger, ReadFrom(a.kind), a.hash) {
      forall x | x in ledger && x.source == ReadFrom(a.kind) && x.hash == a.hash ensures Names(r, x) { }
    }
  }

  predicate AllAlone(r: Records, ledger: seq<Item>) {
    && (forall a | a in Artifacts(r) && a.live :: Alone(ledger, ReadFrom(a.kind), a.hash))
    && (r.decision.Some? && r.verification.Some? ==> Alone(ledger, "matrix", r.verification.value.value.eventHash))
  }

  predicate AllRead(env: Env, r: Records, ledger: seq<Item>) {
    && (forall a | a in Artifacts(r) :: a.live ==> Readable(env, a, ledger))
    && (r.decision.Some? && r.verification.Some? ==> Confirmed(env, r.verification.value.value, ledger))
  }

  lemma AllReadExactlyWhen(env: Env, r: Records, ledger: seq<Item>)
    requires Functional(ledger) && Backed(env, r, ledger)
    ensures AllRead(env, r, ledger) <==> AllAlone(r, ledger)
  {
    hide Artifacts, Readable, Confirmed, Vouches, Attests, Functional, Alone, ReadFrom;
    forall a | a in Artifacts(r) && a.live ensures Readable(env, a, ledger) <==> Alone(ledger, ReadFrom(a.kind), a.hash) {
      ReadableExactlyWhen(env, a, ledger);
    }
    if r.decision.Some? && r.verification.Some? { ConfirmedExactlyWhen(env, r.verification.value.value, ledger); }
  }

  lemma ReplayedWhen(env: Env, r: Records, ledger: seq<Item>)
    ensures Replayed(env, r, ledger) == if AllRead(env, r, ledger) then Replay(env.u, r) else None
  {
    hide Artifacts, Readable, Confirmed, Replay;
  }

  /** What a sound receipt stands for. */
  lemma SoundParts(env: Env, p: Receipt)
    requires Sound(env, p)
    ensures Functional(p.body.readbacks) && Backed(env, p.body.records, p.body.readbacks)
    ensures
      var e := Carries(env, p);
      && Replay(env.u, p.body.records) == Some(e) && e.records == p.body.records && Reaches(p.body.stage, e.state)
      && Linked(env.u, e) && AllOk(env.u, p.body.records)
  {
    hide Backed, Remembers, Functional, AllDecode, Replay, Linked, Verified, Reaches, AllOk, Told, Run;
    var e := Carries(env, p);
    ReplayIsRun(env.u, e);
    EveryRunIsOk(env.u, e.skill, Told(e.records));
  }

  /** A receipt can be replayed exactly when no bytes its records name are in its ledger under two references. */
  lemma ReplayableExactlyWhen(env: Env, p: Receipt)
    requires Sound(env, p)
    ensures
      Replayed(env, p.body.records, p.body.readbacks)
      == if Unambiguous(p.body.records, p.body.readbacks) then Some(Carries(env, p)) else None
  {
    hide *;
    var r, ledger := p.body.records, p.body.readbacks;
    SoundParts(env, p);
    UnambiguousExactlyWhen(r, ledger);
    AllReadExactlyWhen(env, r, ledger);
    ReplayedWhen(env, r, ledger);
  }

  lemma FinishesExactlyWhen(env: Env, authority: Authority, e: Evolution, ledger: seq<Item>, seen: Seen, i: Input)
    requires Ledger(env.u.c, env.h, ledger)
    ensures Finish(env, authority, e, ledger, seen, i).Some? <==>
              && e.state == Wanted(StageOf(i)) && Ready(e.records, e.state)
              && Admits(env, authority, e.records, ledger, seen, i)
              && Apply(env.u, Some(e), Steps(env, authority.runId, e.records, i)).Some?
              && Fits(env, ledger, Added(env, i))
  {
    AddAllWhenFitting(ledger, Added(env, i));
    if AddAll(ledger, Added(env, i)).Some? { LedgerOf(env, ledger, Added(env, i)); }
    hide Ledger, AllDecode, AddAll, Normalize, Apply, Admits, Ready, Steps, Added, Wanted, SameKey;
  }

  /******* Without a verified token there is no receipt *******/

  lemma UnattestedVouchNothing(env: Env, a: Artifact, x: Item)
    requires env.issue == FromRaw
    ensures !Vouched(a, env.issue(x)) && forall v :: !Attests(env, v, x)
  {
  }

  /** From the approval on, a lifecycle that replays holds a decision. */
  lemma DecidedIsReplayed(u: Rules, r: Records)
    requires Replay(u, r).Some? && Replay(u, r).value.state in {HumanApproved, CanaryRecorded, Reevaluated}
    ensures r.decision.Some? && r.verification.Some?
  {
    var e := Replay(u, r).value;
    var skill := r.proposal.value.value.skill;
    EveryRunIsLinked(u, skill, Told(r));
    RunIsTold(u, skill, Told(r));
    LinkedShape(u, e);
    hide Run, Linked;
    TheFourthDecides(e.records, r);
  }

  lemma TheFourthDecides(s: Records, r: Records)
    requires s.baseline.Some? && s.attribution.Some? && s.proposal.Some? && s.decision.Some? && s.verification.Some?
    requires r.baseline.Some? && r.attribution.Some? && r.proposal.Some? && Told(s) == Told(r)
    ensures r.decision.Some? && r.verification.Some?
  {
    assert Told(s)[3].Decide? && Told(r)[3].Decide?;
  }

  /**
   The stages as they stand describe bytes the caller supplied and never claim more, so
   whatever the request and whatever the receipt it carries, none of them emits a receipt.
   */
  lemma UnattestedEmitNothing(env: Env, authority: Authority, previous: Option<Receipt>, i: Input)
    requires env.issue == FromRaw
    ensures Handle(env, authority, previous, i).None?
  {
    if Handle(env, authority, previous, i).Some? {
      if previous.None? {
        FirstIs(env, authority, i);
        hide Handle;
        UnattestedFinishNothing(env, authority, Start(i.skill), [], SeenBy(i), i);
      } else if !i.ToPrepare? {
        var p := previous.value.body;
        var ledger := Normalize(env.u.c, env.h, p.readbacks).value;
        hide Finish, Normalize, AuthorityOk, Verified;
        var e := Replayed(env, p.records, ledger).value;
        assert Finish(env, authority, e, ledger, p.seen, i).Some?;
        UnattestedStayProposed(env, p.records, ledger);
        hide Handle, Replayed;
        UnattestedFinishNothing(env, authority, e, ledger, p.seen, i);
      }
    }
  }

  lemma NothingIsConfirmed(env: Env, v: Verification, ledger: seq<Item>)
    requires env.issue == FromRaw
    ensures !Confirmed(env, v, ledger)
  {
    hide FindOne;
  }

  lemma UnattestedStayProposed(env: Env, r: Records, ledger: seq<Item>)
    requires env.issue == FromRaw
    ensures
      Replayed(env, r, ledger).Some? ==> Replayed(env, r, ledger).value.state !in {HumanApproved, CanaryRecorded, Reevaluated}
  {
    hide Artifacts, Replay, Confirmed;
    if Replay(env.u, r).Some? && Replay(env.u, r).value.state in {HumanApproved, CanaryRecorded, Reevaluated} {
      DecidedIsReplayed(env.u, r);
      NothingIsConfirmed(env, r.verification.value.value, ledger);
    }
  }

  lemma UnattestedAdmitNothing(env: Env, authority: Authority, r: Records, ledger: seq<Item>, seen: Seen, i: Input)
    requires env.issue == FromRaw && Ready(r, Wanted(StageOf(i))) && (i.ToVerify? || (i.ToPrepare? && i.traces != []))
    ensures !Admits(env, authority, r, ledger, seen, i)
  {
    hide FindOne, VerificationOf, Ready;
    if i.ToPrepare? {
      var g := i.traces[0];
      assert Live(env, i) == i.traces + i.evidence;
      assert g in Live(env, i);
      UnattestedVouchNothing(env, LiveArtifact(g, authority.runId), g.item);
    } else {
      UnattestedVouchNothing(env, LiveArtifact(Exact(OtelGenai, i.event), ""), i.event);
    }
  }

  lemma NoTracesNoBaseline(env: Env, run: string, i: Input)
    requires i.ToPrepare?
    ensures i.traces == [] ==> !BaselineOk(env.u, BaselineOf(env, run, i))
  {
    hide Artifact.Ok, Scheme.IsReference, Rules.Seals, LiveArtifact, Frozen;
  }

  lemma {:induction false} ApplyNeedsTheFirst(u: Rules, e: Evolution, ts: seq<Transition>)
    requires ts != [] && Apply(u, Some(e), ts).Some?
    ensures Advance(u, e, ts[0]).Some?
    decreases |ts|
  {
    hide Advance;
    var n := |ts| - 1;
    if n > 0 { ApplyNeedsTheFirst(u, e, ts[..n]); }
  }

  /** A baseline without traces is refused. */
  lemma BaselineNeedsTraces(env: Env, run: string, e: Evolution, i: Input)
    requires i.ToPrepare? && Apply(env.u, Some(e), Steps(env, run, e.records, i)).Some?
    ensures i.traces != []
  {
    hide BaselineOk, BaselineOf, AttributionOf, ProposalOf, Apply;
    NoTracesNoBaseline(env, run, i);
    ApplyNeedsTheFirst(env.u, e, Steps(env, run, e.records, i));
  }

  lemma UnattestedFinishNothing(env: Env, authority: Authority, e: Evolution, ledger: seq<Item>, seen: Seen, i: Input)
    requires env.issue == FromRaw && e.state !in {HumanApproved, CanaryRecorded, Reevaluated}
    ensures Finish(env, authority, e, ledger, seen, i).None?
  {
    if e.state == Wanted(StageOf(i)) && Ready(e.records, e.state) {
      assert i.ToPrepare? || i.ToVerify?;
      hide Apply, Steps, AddAll, Added, Emit, Ready, Admits, Wanted;
      if i.ToVerify? || i.traces != [] {
        UnattestedAdmitNothing(env, authority, e.records, ledger, seen, i);
      } else if Apply(env.u, Some(e), Steps(env, authority.runId, e.records, i)).Some? {
        BaselineNeedsTraces(env, authority.runId, e, i);
      }
    }
  }

  /******* What a stage makes is bound *******/

  predicate LiveOk(c: Scheme, run: string, gs: seq<Given>) {
    gs != [] && forall g | g in gs :: LiveArtifact(g, run).Ok(c, Observed)
  }

  predicate ObservationFits(env: Env, run: string, i: Input)
    requires i.ToCanary? || i.ToReevaluate?
  {
    var c := env.u.c;
    && LiveOk(c, run, Traces(i)) && LiveOk(c, run, Evidence(i)) && LiveOk(c, run, ResultOf(env, i))
    && c.IsRef(Short(if i.ToCanary? then "skillops-canary:" else "skillops-reevaluation:", ResultOf(env, i)[0].item.hash))
  }

  predicate PrepareFits(env: Env, run: string, i: Input)
    requires i.ToPrepare?
  {
    var u, c := env.u, env.u.c;
    && c.IsRef(i.baselineId) && c.IsRef(i.attributionId) && c.IsRef(i.proposalId) && u.isName(i.skill)
    && u.isVersion(i.baseVersion) && u.isVersion(i.candidateVersion) && i.baseVersion != i.candidateVersion
    && c.IsRef(i.rollback) && c.isHash(i.package.hash) && Frozen(i.dataset).Ok(c, Dataset)
    && Frozen(i.evaluation).Ok(c, Evaluation) && c.IsRef(run) && LiveOk(c, run, i.traces) && LiveOk(c, run, i.evidence)
  }

  predicate VerifyFits(env: Env, run: string, b: Baseline, i: Input)
    requires i.ToVerify?
  {
    var c := env.u.c;
    && c.IsRef(i.approvalId) && i.revision >= 1 && c.IsRef(i.verificationRef) && c.IsRef(i.verifiedAt) && c.IsRef(i.sender)
    && c.IsRef(i.identity) && c.IsRef(i.event.ref) && c.isHash(i.event.hash) && run == b.runId
  }

  predicate NewResult(env: Env, r: Records, i: Input)
    requires i.ToReevaluate?
  {
    r.canary.Some? ==>
      && ResultOf(env, i)[0].ref != r.canary.value.value.result.ref
      && ResultOf(env, i)[0].item.hash != r.canary.value.value.result.hash
  }

  /** What the lifecycle asks of a request: formats, two different versions, the same run, and a new result. */
  predicate InputOk(env: Env, run: string, r: Records, i: Input)
    requires Ready(r, Wanted(StageOf(i)))
  {
    if i.ToPrepare? then PrepareFits(env, run, i)
    else if i.ToVerify? then VerifyFits(env, run, r.baseline.value.value, i)
    else if i.ToCanary? then ObservationFits(env, run, i)
    else if i.ToReevaluate? then ObservationFits(env, run, i) && NewResult(env, r, i)
    else if i.ToConclude? then env.u.c.IsRef(i.receiptId)
    else true
  }

  lemma LivesOk(c: Scheme, run: string, gs: seq<Given>)
    ensures ObservedIn(c, Lives(gs, run), Some(run)) <==> LiveOk(c, run, gs)
  {
    hide Artifact.Ok;
    LivesAreLive(gs, run);
    forall g | g in gs ensures LiveArtifact(g, run) in Lives(gs, run) {
      var k :| 0 <= k < |gs| && gs[k] == g;
      assert Lives(gs, run)[k] == LiveArtifact(g, run);
    }
  }

  lemma SealIsOk(u: Rules, x: Content)
    requires u.Ideal()
    ensures u.Seals(x, u.hash(x)) && u.c.isHash(u.hash(x))
  {
  }

  lemma {:induction false} ApplyThree(u: Rules, e: Evolution, ts: seq<Transition>)
    requires |ts| == 3
    ensures Apply(u, Some(e), ts) == Then(u, Then(u, Advance(u, e, ts[0]), ts[1]), ts[2])
  {
    hide Advance;
    assert ts[..2][..1] == ts[..1] && ts[..1][..0] == [];
    assert Apply(u, Some(e), ts[..1]) == Advance(u, e, ts[0]);
  }

  lemma ApplyOne(u: Rules, e: Evolution, t: Transition)
    ensures Apply(u, Some(e), [t]) == Advance(u, e, t)
  {
    hide Advance;
    assert [t][..0] == [];
  }

  lemma BaselineFits(env: Env, run: string, i: Input)
    requires env.u.Ideal() && i.ToPrepare?
    ensures BaselineOk(env.u, BaselineOf(env, run, i)) <==>
              && env.u.c.IsRef(i.baselineId) && Frozen(i.dataset).Ok(env.u.c, Dataset)
              && Frozen(i.evaluation).Ok(env.u.c, Evaluation) && env.u.c.IsRef(run)
              && LiveOk(env.u.c, run, i.traces) && LiveOk(env.u.c, run, i.evidence)
  {
    hide LiveOk, ObservedIn, Lives, Artifact.Ok, Frozen, Rules.Seals, Rules.Ideal, Scheme.IsReference;
    LivesOk(env.u.c, run, i.traces);
    LivesOk(env.u.c, run, i.evidence);
    SealIsOk(env.u, OfBaseline(BaselineOf(env, run, i).value));
  }

  lemma PrepareSteps(env: Env, run: string, e: Evolution, i: Input)
    requires i.ToPrepare?
    ensures
      var b := BaselineOf(env, run, i);
      var a := AttributionOf(env, b, i);
      Apply(env.u, Some(e), Steps(env, run, e.records, i))
      == Then(env.u, Then(env.u, Advance(env.u, e, Freeze(b)), Attribute(a)), Propose(ProposalOf(env, b, a, i)))
  {
    hide Apply, Advance, BaselineOf, AttributionOf, ProposalOf, Then;
    ApplyThree(env.u, e, Steps(env, run, e.records, i));
  }

  lemma OneStep(env: Env, run: string, e: Evolution, i: Input)
    requires Ready(e.records, Wanted(StageOf(i))) && !i.ToPrepare? && !i.ToPublish?
    ensures |Steps(env, run, e.records, i)| == 1
    ensures Apply(env.u, Some(e), Steps(env, run, e.records, i)) == Advance(env.u, e, Steps(env, run, e.records, i)[0])
  {
    var ts := Steps(env, run, e.records, i);
    assert |ts| == 1 by { hide DecisionOf, VerificationOf, ObservationOf, ClosingOf, Ready; }
    hide Apply, Advance, Steps;
    ApplyOne(env.u, e, ts[0]);
    assert ts == [ts[0]];
  }

  lemma PrepareIsBound(env: Env, run: string, e: Evolution, i: Input)
    requires env.u.Ideal() && i.ToPrepare? && e == Start(i.skill)
    ensures
      var b := BaselineOf(env, run, i);
      var a := AttributionOf(env, b, i);
      Then(env.u, Then(env.u, Advance(env.u, e, Freeze(b)), Attribute(a)), Propose(ProposalOf(env, b, a, i))).Some?
      <==> PrepareFits(env, run, i)
  {
    hide LiveOk, ObservedIn, Lives, Artifact.Ok, Frozen, Rules.Seals, Rules.Ideal, Scheme.IsReference, BaselineOk;
    var u := env.u;
    var b := BaselineOf(env, run, i);
    var a := AttributionOf(env, b, i);
    BaselineFits(env, run, i);
    LivesOk(u.c, run, i.traces);
    LivesOk(u.c, run, i.evidence);
    SealIsOk(u, OfBaseline(b.value));
    SealIsOk(u, OfAttribution(a.value));
    SealIsOk(u, OfProposal(ProposalOf(env, b, a, i).value));
  }

  lemma VerifyIsBound(env: Env, run: string, e: Evolution, i: Input)
    requires env.u.Ideal() && i.ToVerify? && e.state == Proposed && Ready(e.records, e.state) && AllOk(env.u, e.records)
    ensures Advance(env.u, e, Steps(env, run, e.records, i)[0]).Some? <==> VerifyFits(env, run, e.records.baseline.value.value, i)
  {
    hide ObservedIn, Artifact.Ok, Rules.Ideal, Scheme.IsReference;
    var u, b, p := env.u, e.records.baseline.value, e.records.proposal.value;
    SealIsOk(u, OfDecision(DecisionOf(env, p, i).value));
    SealIsOk(u, OfVerification(VerificationOf(env, run, b, p, i).value));
  }

  lemma ObservationOkExactlyWhen(env: Env, run: string, r: Records, i: Input)
    requires env.u.Ideal() && (i.ToCanary? || i.ToReevaluate?) && AllOk(env.u, r) && r.baseline.Some? && r.proposal.Some?
    ensures ObservationOk(env.u, ObservationOf(env, run, r.baseline.value, r.proposal.value, i)) <==> ObservationFits(env, run, i)
  {
    hide ObservedIn, LiveOk, Lives, Artifact.Ok, Rules.Ideal, Scheme.IsReference, Short, Traces, Evidence, LiveArtifact;
    LivesOk(env.u.c, run, Traces(i));
    LivesOk(env.u.c, run, Evidence(i));
    ResultIsOne(env, run, i);
    BaselineParts(env.u, r);
  }

  lemma ResultIsOne(env: Env, run: string, i: Input)
    requires i.ToCanary? || i.ToReevaluate?
    ensures |ResultOf(env, i)| == 1
    ensures LiveOk(env.u.c, run, ResultOf(env, i)) <==> LiveArtifact(ResultOf(env, i)[0], run).Ok(env.u.c, Observed)
    ensures LiveArtifact(ResultOf(env, i)[0], run).runId == Some(run) && LiveArtifact(ResultOf(env, i)[0], run).live
  {
    hide Artifact.Ok, Combination;
  }

  lemma BaselineParts(u: Rules, r: Records)
    requires AllOk(u, r) && r.baseline.Some? && r.proposal.Some?
    ensures
      var b, p := r.baseline.value.value, r.proposal.value;
      && b.dataset.Ok(u.c, Dataset) && b.evaluation.Ok(u.c, Evaluation) && u.c.IsRef(p.value.id) && u.c.isHash(p.hash)
      && u.isVersion(p.value.candidateVersion)
  {
    hide Artifact.Ok, Scheme.IsReference, ObservedIn;
  }

  lemma CanaryIsBound(env: Env, run: string, e: Evolution, i: Input)
    requires env.u.Ideal() && i.ToCanary? && e.state == HumanApproved && Ready(e.records, e.state) && AllOk(env.u, e.records)
    ensures Advance(env.u, e, Steps(env, run, e.records, i)[0]).Some? <==> ObservationFits(env, run, i)
  {
    hide ObservationOk, ObservationFits, AllOk, Rules.Seals, Rules.Ideal;
    var o := ObservationOf(env, run, e.records.baseline.value, e.records.proposal.value, i);
    ObservationOkExactlyWhen(env, run, e.records, i);
    SealIsOk(env.u, OfCanary(o));
  }

  lemma ReevaluationIsBound(env: Env, run: string, e: Evolution, i: Input)
    requires env.u.Ideal() && i.ToReevaluate? && e.state == CanaryRecorded && Ready(e.records, e.state) && AllOk(env.u, e.records)
    ensures Advance(env.u, e, Steps(env, run, e.records, i)[0]).Some? <==> ObservationFits(env, run, i) && NewResult(env, e.records, i)
  {
    hide ObservationOk, ObservationFits, AllOk, Rules.Seals, Rules.Ideal, ResultOf;
    var o := ObservationOf(env, run, e.records.baseline.value, e.records.proposal.value, i);
    ObservationOkExactlyWhen(env, run, e.records, i);
    SealIsOk(env.u, OfReevaluation(o));
  }

  lemma ClosingFits(env: Env, r: Records, i: Input)
    requires env.u.Ideal() && i.ToConclude? && Ready(r, Reevaluated) && AllOk(env.u, r)
    ensures ClosingOk(env.u, ClosingOf(env, r, i)) <==> env.u.c.IsRef(i.receiptId)
  {
    hide ObservedIn, Artifact.Ok, Rules.Ideal, Scheme.IsReference;
    SealIsOk(env.u, OfClosing(ClosingOf(env, r, i).value));
  }

  lemma ConcludeIsBound(env: Env, run: string, e: Evolution, i: Input)
    requires env.u.Ideal() && i.ToConclude? && e.state == Reevaluated && Ready(e.records, e.state) && AllOk(env.u, e.records)
    ensures Advance(env.u, e, Steps(env, run, e.records, i)[0]).Some? <==> env.u.c.IsRef(i.receiptId)
  {
    hide ClosingOk, AllOk, Rules.Ideal, Scheme.IsReference;
    ClosingFits(env, e.records, i);
  }

  /**
   Every binding by hash that the lifecycle tests holds of what the stages make: the transitions
   of a stage succeed exactly when the request meets the formats, is about the same run, offers
   two different versions, and reevaluates with a result that is not the canary's.
   */
  lemma StepsAreBound(env: Env, run: string, e: Evolution, i: Input)
    requires env.u.Ideal() && e.state == Wanted(StageOf(i)) && Ready(e.records, e.state) && AllOk(env.u, e.records)
    requires i.ToPrepare? ==> e == Start(i.skill)
    ensures Apply(env.u, Some(e), Steps(env, run, e.records, i)).Some? <==> InputOk(env, run, e.records, i)
  {
    InputOkIs(env, run, e.records, i);
    assert e.state == Wanted(StageOf(i));
    hide Apply, AllOk, Rules.Ideal, InputOk, Steps, Ready, PrepareFits, VerifyFits, ObservationFits, NewResult, Advance, Scheme.IsReference;
    if i.ToPrepare? {
      PrepareSteps(env, run, e, i);
      PrepareIsBound(env, run, e, i);
    } else if i.ToPublish? {
      PublishIsBound(env, run, e, i);
    } else {
      OneStep(env, run, e, i);
      if i.ToVerify? { VerifyIsBound(env, run, e, i); }
      else if i.ToConclude? { ConcludeIsBound(env, run, e, i); }
      else if i.ToCanary? { CanaryIsBound(env, run, e, i); }
      else { ReevaluationIsBound(env, run, e, i); }
    }
  }

  lemma InputOkIs(env: Env, run: string, r: Records, i: Input)
    requires Ready(r, Wanted(StageOf(i)))
    ensures i.ToPrepare? ==> InputOk(env, run, r, i) == PrepareFits(env, run, i)
    ensures i.ToVerify? ==> InputOk(env, run, r, i) == VerifyFits(env, run, r.baseline.value.value, i)
    ensures i.ToPublish? ==> InputOk(env, run, r, i)
    ensures i.ToCanary? ==> InputOk(env, run, r, i) == ObservationFits(env, run, i)
    ensures i.ToReevaluate? ==> InputOk(env, run, r, i) == (ObservationFits(env, run, i) && NewResult(env, r, i))
    ensures i.ToConclude? ==> InputOk(env, run, r, i) == env.u.c.IsRef(i.receiptId)
  {
    hide PrepareFits, VerifyFits, ObservationFits, NewResult, Ready, Scheme.IsReference;
  }

  lemma PublishIsBound(env: Env, run: string, e: Evolution, i: Input)
    requires i.ToPublish? && Ready(e.records, Wanted(StageOf(i)))
    ensures Apply(env.u, Some(e), Steps(env, run, e.records, i)) == Some(e)
  {
  }

  /******* Exactly which requests are accepted *******/

  /** A later stage accepts exactly the replayable receipt of the stage before, in the state it needs. */
  lemma StageAcceptsExactly(env: Env, authority: Authority, p: Receipt, i: Input)
    requires Sound(env, p) && env.u.Ideal() && !i.ToPrepare?
    ensures Handle(env, authority, Some(p), i).Some? <==>
              && AuthorityOk(env, authority) && env.permits(authority, Some(p.body), i)
              && Some(p.body.stage) == Previous(StageOf(i)) && p.body.authority == authority
              && Unambiguous(p.body.records, p.body.readbacks)
              && Carries(env, p).state == Wanted(StageOf(i)) && Ready(p.body.records, Wanted(StageOf(i)))
              && Admits(env, authority, p.body.records, p.body.readbacks, p.body.seen, i)
              && InputOk(env, authority.runId, p.body.records, i)
              && Fits(env, p.body.readbacks, Added(env, i))
  {
    ReplayableExactlyWhen(env, p);
    SoundIsStartable(env, p, i);
    HandleIs(env, authority, p, i);
    SoundParts(env, p);
    assert p.hash == env.seal(p.body) && Ledger(env.u.c, env.h, p.body.readbacks);
    hide *;
    var e := Carries(env, p);
    FinishesExactlyWhen(env, authority, e, p.body.readbacks, p.body.seen, i);
    if e.state == Wanted(StageOf(i)) && Ready(e.records, e.state) { StepsAreBound(env, authority.runId, e, i); }
  }

  /** The first stage accepts exactly what its tests and the lifecycle ask for. */
  lemma PrepareAcceptsExactly(env: Env, authority: Authority, i: Input)
    requires env.u.Ideal() && i.ToPrepare?
    ensures Ready(NOTHING, Wanted(StageOf(i)))
    ensures Handle(env, authority, None, i).Some? <==>
              && AuthorityOk(env, authority) && env.permits(authority, None, i)
              && Admits(env, authority, NOTHING, [], SeenBy(i), i)
              && PrepareFits(env, authority.runId, i) && Fits(env, [], Added(env, i))
  {
    FirstIs(env, authority, i);
    StartIsEmpty(i.skill);
    PrepareIsFirst(i);
    InputOkIs(env, authority.runId, NOTHING, i);
    StartIsOk(env, i.skill);
    hide *;
    FinishesExactlyWhen(env, authority, Start(i.skill), [], SeenBy(i), i);
    StepsAreBound(env, authority.runId, Start(i.skill), i);
  }

  lemma FirstIs(env: Env, authority: Authority, i: Input)
    ensures Handle(env, authority, None, i) ==
            if i.ToPrepare? && AuthorityOk(env, authority) && env.permits(authority, None, i)
            then Finish(env, authority, Start(i.skill), [], SeenBy(i), i) else None
  {
    hide Finish, AuthorityOk, SeenBy, Start;
  }

  lemma StartIsOk(env: Env, skill: string)
    ensures AllOk(env.u, Start(skill).records) && Start(skill).state == Empty && Ledger(env.u.c, env.h, [])
  {
  }

  /** The two lookups by reference, unlike those by hash, always find what prepare read. */
  lemma RememberedIsFound(env: Env, p: Receipt)
    requires Sound(env, p)
    ensures
      var seen, ledger := p.body.seen, p.body.readbacks;
      && FindOne(ledger, "nacos", Some(seen.packageHash), Some(seen.packageRef)).Some?
      && FindOne(ledger, "authority", Some(seen.allowlistHash), Some(seen.allowlistRef)).Some?
  {
    var seen, ledger := p.body.seen, p.body.readbacks;
    assert Functional(ledger) && Remembers(seen, ledger);
    hide Sound, Functional, FindOne;
    var x :| x in ledger && x.source == "nacos" && x.ref == seen.packageRef && x.hash == seen.packageHash;
    LookupByReference(ledger, x);
    var y :| y in ledger && y.source == "authority" && y.ref == seen.allowlistRef && y.hash == seen.allowlistHash;
    LookupByReference(ledger, y);
  }

  /******* Receipts that strand their chain *******/

  lemma NewNames(env: Env, authority: Authority, r: Records, ledger: seq<Item>, seen: Seen, i: Input, x: Item)
    requires Ready(r, Wanted(StageOf(i))) && Admits(env, authority, r, ledger, seen, i)
    requires Names(Written(r, Steps(env, authority.runId, r, i)), x)
    ensures Names(r, x) || exists z | z in Added(env, i) :: SameBytes(z, x)
  {
    var s := Written(r, Steps(env, authority.runId, r, i));
    AttestationIsBacked(env, authority, r, ledger, seen, i);
    assert Witnessed(env, authority.runId, Live(env, i));
    hide Admits, Steps, Written, Artifacts, Added, Live, Vouched, Confirms, Ready, Witnessed, ReadFrom;
    if a :| a in Artifacts(s) && a.live && ReadFrom(a.kind) == x.source && a.hash == x.hash {
      NewArtifactsAreBacked(env, authority.runId, r, i, Added(env, i), a);
    }
  }

  lemma SameNames(r: Records, x: Item, y: Item)
    requires SameBytes(x, y)
    ensures Names(r, x) <==> Names(r, y)
  {
    hide Artifacts;
  }

  lemma NewBytesDecide(r: Records, ledger: seq<Item>, added: seq<Item>, s: Records, more: seq<Item>)
    requires Unambiguous(r, ledger) && (forall x | x in added :: x in more) && (forall x | x in more :: x in ledger || x in added)
    requires forall x | Names(s, x) :: Names(r, x) || exists z | z in added :: SameBytes(z, x)
    ensures Unambiguous(s, more) <==>
              forall x, y | x in added && y in more && SameBytes(x, y) && Names(s, x) :: x.ref == y.ref
  {
    hide Names;
    if forall x, y | x in added && y in more && SameBytes(x, y) && Names(s, x) :: x.ref == y.ref {
      forall x, y | x in more && y in more && SameBytes(x, y) && Names(s, x) ensures x.ref == y.ref {
        SameNames(s, x, y);
        if x in ledger && y in ledger && !Names(r, x) {
          var z :| z in added && SameBytes(z, x);
          SameNames(s, z, x);
          assert SameBytes(z, y);
        }
      }
    }
  }

  /**
   A stage emits a receipt that the next stage can replay exactly when no readback it adds has
   named bytes that the new ledger holds under another reference.
   */
  lemma StrandedExactlyWhen(env: Env, authority: Authority, p: Receipt, i: Input)
    requires Sound(env, p) && Handle(env, authority, Some(p), i).Some?
    ensures
      var r := Handle(env, authority, Some(p), i).value.body;
      Unambiguous(r.records, r.readbacks) <==>
      forall x, y | x in Added(env, i) && y in r.readbacks && SameBytes(x, y) && Names(r.records, x) :: x.ref == y.ref
  {
    hide *;
    var r := Handle(env, authority, Some(p), i).value.body;
    StageIsSound(env, authority, p, i);
    NamesOfTheStage(env, authority, p, i);
    NewBytesDecide(p.body.records, p.body.readbacks, Added(env, i), r.records, r.readbacks);
  }

  lemma NamesOfTheStage(env: Env, authority: Authority, p: Receipt, i: Input)
    requires Sound(env, p) && Handle(env, authority, Some(p), i).Some?
    ensures Unambiguous(p.body.records, p.body.readbacks)
    ensures
      forall x | Names(Handle(env, authority, Some(p), i).value.body.records, x) ::
        Names(p.body.records, x) || exists z | z in Added(env, i) :: SameBytes(z, x)
  {
    HandleFinishes(env, authority, p, i);
    SoundIsStartable(env, p, i);
    StageIsSound(env, authority, p, i);
    ReplayableExactlyWhen(env, p);
    HandleIs(env, authority, p, i);
    StartableIsFunctional(env, Carries(env, p), p.body.readbacks, p.body.seen, i);
    EmittedBody(env, authority, Carries(env, p), p.body.readbacks, p.body.seen, i);
    hide *;
    var r := Handle(env, authority, Some(p), i).value.body;
    forall x | Names(r.records, x) ensures Names(p.body.records, x) || exists z | z in Added(env, i) :: SameBytes(z, x) {
      NewNames(env, authority, p.body.records, p.body.readbacks, p.body.seen, i, x);
    }
  }

  lemma StartableIsFunctional(env: Env, e: Evolution, ledger: seq<Item>, seen: Seen, i: Input)
    requires Startable(env, e, ledger, seen, i)
    ensures Functional(ledger)
  {
    hide Functional, Backed, Linked, Replay, Remembers;
  }

  lemma DecodesUnderAnotherRef(c: Scheme, h: Hasher, x: Item, other: string)
    requires Decode(c, h, x).Some? && c.IsRef(other)
    ensures Decode(c, h, x.(ref := other)).Some?
  {
    hide FromBase64, Base64, Scheme.IsReference;
  }

  /** The same request with one of its traces read back once more, under another reference. */
  function WithRepeatedTrace(i: Input, g: Given, other: string): Input
    requires i.ToPrepare?
  {
    i.(traces := i.traces + [g.(item := g.item.(ref := other))])
  }

  lemma RepeatedTraceBrings(env: Env, i: Input, g: Given, other: string)
    requires i.ToPrepare?
    ensures
      var j := WithRepeatedTrace(i, g, other);
      && (forall x :: x in Added(env, j) <==> x in Added(env, i) || x == g.item.(ref := other))
      && (forall y :: y in Live(env, j) <==> y in Live(env, i) || y == g.(item := g.item.(ref := other)))
  {
    var j, more := WithRepeatedTrace(i, g, other), g.(item := g.item.(ref := other));
    assert Items(j.traces) == Items(i.traces) + [more.item];
    assert Live(env, i) == i.traces + i.evidence && Live(env, j) == j.traces + j.evidence;
    hide Items;
  }

  lemma FitsOneMore(env: Env, xs: seq<Item>, ys: seq<Item>, x: Item)
    requires Fits(env, [], xs) && Decode(env.u.c, env.h, x).Some? && (forall y | y in xs :: !SameKey(y, x))
    requires forall y :: y in ys <==> y in xs || y == x
    ensures Fits(env, [], ys)
  {
    hide Decode;
    assert [] + xs == xs && [] + ys == ys;
    forall y, z | y in ys && z in ys && SameKey(y, z) ensures y == z {
      assert SameKey(z, y);
    }
  }

  lemma TraceIsAdded(env: Env, i: Input, g: Given)
    requires i.ToPrepare? && g in i.traces
    ensures g in Live(env, i) && g.item in Added(env, i)
  {
    assert Live(env, i) == i.traces + i.evidence;
    hide Live, Added;
    LiveIsAdded(env, i);
  }

  lemma FittingDecodes(env: Env, xs: seq<Item>, x: Item)
    requires Fits(env, [], xs) && x in xs
    ensures Decode(env.u.c, env.h, x).Some?
  {
    hide Decode;
  }

  lemma RepeatedTraceFits(env: Env, i: Input, g: Given, other: string)
    requires i.ToPrepare? && g in i.traces && Fits(env, [], Added(env, i)) && env.u.c.IsRef(other)
    requires forall y | y in Added(env, i) :: !SameKey(y, g.item.(ref := other))
    ensures Fits(env, [], Added(env, WithRepeatedTrace(i, g, other)))
  {
    hide *;
    RepeatedTraceBrings(env, i, g, other);
    TraceIsAdded(env, i, g);
    FittingDecodes(env, Added(env, i), g.item);
    DecodesUnderAnotherRef(env.u.c, env.h, g.item, other);
    FitsOneMore(env, Added(env, i), Added(env, WithRepeatedTrace(i, g, other)), g.item.(ref := other));
  }

  lemma RepeatedTraceIsAdmitted(env: Env, authority: Authority, i: Input, g: Given, other: string)
    requires i.ToPrepare? && g in i.traces && Admits(env, authority, NOTHING, [], SeenBy(i), i)
    requires PrepareFits(env, authority.runId, i)
    requires Vouched(LiveArtifact(g, authority.runId), env.issue(g.item.(ref := other)))
    ensures
      var j := WithRepeatedTrace(i, g, other);
      Admits(env, authority, NOTHING, [], SeenBy(j), j) && PrepareFits(env, authority.runId, j)
  {
    hide Vouched, Added, Artifact.Ok, Scheme.IsReference, ResultOf;
    var more := g.(item := g.item.(ref := other));
    RepeatedTraceBrings(env, i, g, other);
    assert g in Live(env, i) && LiveArtifact(more, authority.runId) == LiveArtifact(g, authority.runId);
  }

  /** A trace of an accepted preparation is named by its records. */
  lemma TraceIsNamed(env: Env, run: string, i: Input, g: Given)
    requires i.ToPrepare? && g in i.traces && g.item.source == ReadFrom(g.kind)
    ensures Names(Written(NOTHING, Steps(env, run, NOTHING, i)), g.item)
  {
    PrepareWrites(env, run, i);
    var r := Written(NOTHING, Steps(env, run, NOTHING, i));
    var k :| 0 <= k < |i.traces| && i.traces[k] == g;
    assert Lives(i.traces, run)[k] == LiveArtifact(g, run);
    hide Steps, Written;
    assert LiveArtifact(g, run) in Artifacts(r);
  }

  lemma WrittenThree(r: Records, ts: seq<Transition>)
    requires |ts| == 3
    ensures Written(r, ts) == Write(Write(Write(r, ts[0]), ts[1]), ts[2])
  {
    hide Write;
    assert ts[..2][..1] == ts[..1] && ts[..1][..0] == [];
    assert Written(r, ts[..1]) == Write(r, ts[0]);
    assert Written(r, ts[..2]) == Write(Write(r, ts[0]), ts[1]);
  }

  lemma PrepareWrites(env: Env, run: string, i: Input)
    requires i.ToPrepare?
    ensures Written(NOTHING, Steps(env, run, NOTHING, i)).baseline == Some(BaselineOf(env, run, i))
  {
    hide BaselineOf, AttributionOf, ProposalOf, Written;
    WrittenThree(NOTHING, Steps(env, run, NOTHING, i));
  }

  /**
   For every accepted preparation and every trace of it: reading the same bytes back once more,
   under a reference of their own, gives a preparation that is accepted as well and that no
   later request can continue.
   */
  lemma RepeatedTraceStrands(env: Env, authority: Authority, i: Input, g: Given, other: string)
    requires env.u.Ideal() && Handle(env, authority, None, i).Some?
    requires i.ToPrepare? && g in i.traces && env.u.c.IsRef(other)
    requires forall y | y in Added(env, i) :: !SameKey(y, g.item.(ref := other))
    requires Vouched(LiveArtifact(g, authority.runId), env.issue(g.item.(ref := other)))
    requires env.permits(authority, None, WithRepeatedTrace(i, g, other))
    ensures
      var r := Handle(env, authority, None, WithRepeatedTrace(i, g, other));
      r.Some? && forall k, a: Authority :: Handle(env, a, r, k).None?
  {
    hide *;
    var j := WithRepeatedTrace(i, g, other);
    StillPrepare(i, g, other);
    PrepareAcceptsExactly(env, authority, i);
    PrepareAcceptsExactly(env, authority, j);
    RepeatedTraceFits(env, i, g, other);
    RepeatedTraceIsAdmitted(env, authority, i, g, other);
    var p := Handle(env, authority, None, j).value;
    PrepareIsSound(env, authority, j);
    RepeatedTraceIsAmbiguous(env, authority, i, g, other, p);
    forall k, a: Authority ensures Handle(env, a, Some(p), k).None? {
      if Handle(env, a, Some(p), k).Some? { NamesOfTheStage(env, a, p, k); }
    }
  }

  lemma StillPrepare(i: Input, g: Given, other: string)
    requires i.ToPrepare?
    ensures WithRepeatedTrace(i, g, other).ToPrepare? && (g in i.traces ==> g in WithRepeatedTrace(i, g, other).traces)
  {
  }

  lemma RepeatedTraceIsAmbiguous(env: Env, authority: Authority, i: Input, g: Given, other: string, p: Receipt)
    requires i.ToPrepare? && g in i.traces && Admits(env, authority, NOTHING, [], SeenBy(i), i)
    requires forall y | y in Added(env, i) :: !SameKey(y, g.item.(ref := other))
    requires forall x :: x in p.body.readbacks <==> x in Added(env, WithRepeatedTrace(i, g, other))
    requires
      var j := WithRepeatedTrace(i, g, other);
      p.body.records == Written(NOTHING, Steps(env, authority.runId, NOTHING, j))
    ensures !Unambiguous(p.body.records, p.body.readbacks)
  {
    WitnessedSource(env, authority, i, g);
    hide *;
    var j := WithRepeatedTrace(i, g, other);
    RepeatedTraceBrings(env, i, g, other);
    TraceIsAdded(env, i, g);
    StillPrepare(i, g, other);
    TraceIsNamed(env, authority.runId, j, g);
    TwoReferences(p.body.records, p.body.readbacks, g.item, other);
  }

  lemma WitnessedSource(env: Env, authority: Authority, i: Input, g: Given)
    requires i.ToPrepare? && g in i.traces && Admits(env, authority, NOTHING, [], SeenBy(i), i)
    ensures g.item.source == ReadFrom(g.kind)
  {
    TraceIsAdded(env, i, g);
    hide Live, Vouched, ReadFrom;
  }

  lemma TwoReferences(r: Records, ledger: seq<Item>, x: Item, other: string)
    requires x in ledger && x.(ref := other) in ledger && Names(r, x) && !SameKey(x, x.(ref := other))
    ensures !Unambiguous(r, ledger)
  {
    hide Names;
    assert SameBytes(x, x.(ref := other));
  }

  /******* What a conclusion rests on *******/

  /**
   Every receipt past the approval rests on an approved decision that the authority's receipt
   for its Matrix event confirms, and a concluding one on two results that are not the same,
   each with a verdict, live, and vouched for by a readback of its ledger; it promotes exactly
   when both passed.
   */
  lemma PromotionIsEarned(env: Env, rs: seq<Request>)
    requires Chain(env, rs).Some? && |rs| >= 3
    ensures
      var b := Chain(env, rs).value.body;
      && b.records.decision.Some? && b.records.verification.Some? && b.records.decision.value.value.approved
      && (exists x | x in b.readbacks :: Attests(env, b.records.verification.value.value, x))
      && (|rs| == 6 ==>
            && b.records.canary.Some? && b.records.reevaluation.Some? && b.records.receipt.Some?
            && var o, q := b.records.canary.value.value, b.records.reevaluation.value.value;
               && Distinct(o, q)
               && (o.result.live ==> exists x | x in b.readbacks :: Vouches(env, o.result, x))
               && (q.result.live ==> exists x | x in b.readbacks :: Vouches(env, q.result, x))
               && (b.records.receipt.value.value.action == Promote <==> o.verdict.Pass? && q.verdict.Pass?)
               && (b.records.receipt.value.value.action == Promote ==> o.result.live && q.result.live))
  {
    hide *;
    ChainIsSound(env, rs);
    ChainVisitsStagesInOrder(env, rs);
    var p := Chain(env, rs).value;
    SoundParts(env, p);
    BackedParts(env, p.body.records, p.body.readbacks);
    LinkedParts(env.u, Carries(env, p));
    OkIsLive(env.u, p.body.records);
    FilledByPlace(p.body.stage, Carries(env, p));
    MayCloseIs(p.body.records);
    if |rs| == 6 {
      SixthConcludes(rs[5].input);
      ChainStep(env, rs);
      var q := Chain(env, rs[..5]).value;
      ChainIsSound(env, rs[..5]);
      StageIsSound(env, rs[5].authority, q, rs[5].input);
      ReadyParts(q.body.records);
      ConcludeWrites(env, rs[5].authority.runId, q.body.records, rs[5].input);
    }
  }

  lemma FilledByPlace(s: Stage, e: Evolution)
    requires Shape(e) && Reaches(s, e.state)
    ensures
      Place(s) >= 3 ==> e.records.decision.Some? && e.records.verification.Some? && e.records.decision.value.value.approved
    ensures
      Place(s) == 6 ==>
        Rank(e.state) >= 7 && e.records.canary.Some? && e.records.reevaluation.Some? && e.records.receipt.Some?
  {
  }

  lemma MayCloseIs(r: Records)
    ensures MayClose(r, Promote) <==>
              r.canary.Some? && r.reevaluation.Some? && r.canary.value.value.verdict.Pass? && r.reevaluation.value.value.verdict.Pass?
  {
  }

  lemma ConcludeWrites(env: Env, run: string, r: Records, i: Input)
    requires i.ToConclude? && Ready(r, Reevaluated)
    ensures
      var s := Written(r, Steps(env, run, r, i));
      && s.receipt.Some? && s.canary == r.canary && s.reevaluation == r.reevaluation
      && (s.receipt.value.value.action == Promote <==>
            r.canary.value.value.verdict.Pass? && r.reevaluation.value.value.verdict.Pass?)
  {
    assert Steps(env, run, r, i)[..0] == [];
  }

  lemma SixthConcludes(i: Input)
    ensures Place(StageOf(i)) == 6 <==> i.ToConclude?
    ensures i.ToConclude? ==> Wanted(StageOf(i)) == Reevaluated
  {
  }

  lemma ReadyParts(r: Records)
    ensures Ready(r, Reevaluated) ==> r.canary.Some? && r.reevaluation.Some?
  {
  }

  lemma BackedParts(env: Env, r: Records, ledger: seq<Item>)
    requires Backed(env, r, ledger)
    ensures r.decision.Some? && r.verification.Some? ==> exists x | x in ledger :: Attests(env, r.verification.value.value, x)
    ensures r.canary.Some? && r.canary.value.value.result.live ==> exists x | x in ledger :: Vouches(env, r.canary.value.value.result, x)
    ensures
      r.reevaluation.Some? && r.reevaluation.value.value.result.live ==>
        exists x | x in ledger :: Vouches(env, r.reevaluation.value.value.result, x)
  {
    hide Attests, Vouches;
    if r.canary.Some? { assert r.canary.value.value.result in Artifacts(r); }
    if r.reevaluation.Some? { assert r.reevaluation.value.value.result in Artifacts(r); }
  }

  lemma LinkedParts(u: Rules, e: Evolution)
    requires Linked(u, e)
    ensures Shape(e)
    ensures Rank(e.state) >= 6 ==> Distinct(e.records.canary.value.value, e.records.reevaluation.value.value)
    ensures Rank(e.state) >= 7 ==> MayClose(e.records, e.records.receipt.value.value.action)
  {
    hide Rules.Seals, Proposes, Verifies, Evaluates, Distinct, Closes, MayClose;
  }

  lemma OkIsLive(u: Rules, r: Records)
    requires AllOk(u, r)
    ensures r.canary.Some? && r.canary.value.value.verdict.Pass? ==> r.canary.value.value.result.live
    ensures r.reevaluation.Some? && r.reevaluation.value.value.verdict.Pass? ==> r.reevaluation.value.value.result.live
  {
    hide BaselineOk, AttributionOk, ProposalOk, DecisionOk, VerificationOk, ClosingOk, ObservedIn, Artifact.Ok, Rules.Seals;
    hide Scheme.IsReference;
  }

  /** A rejected proposal ends its chain: no stage accepts the receipt. */
  lemma RejectionIsFinal(env: Env, authority: Authority, p: Receipt, i: Input)
    requires Sound(env, p) && p.body.records.decision.Some? && !p.body.records.decision.value.value.approved
    ensures Handle(env, authority, Some(p), i).None?
  {
    hide *;
    SoundParts(env, p);
    LinkedParts(env.u, Carries(env, p));
    if Handle(env, authority, Some(p), i).Some? {
      HandleFinishes(env, authority, p, i);
      EmittedBody(env, authority, Carries(env, p), p.body.readbacks, p.body.seen, i);
      RejectedIsUnwanted(Carries(env, p), StageOf(i));
    }
  }

  lemma RejectedIsUnwanted(e: Evolution, s: Stage)
    requires Shape(e) && e.records.decision.Some? && !e.records.decision.value.value.approved
    ensures e.state != Wanted(s)
  {
  }
}
