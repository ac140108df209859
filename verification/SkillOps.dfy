/**
 The sealed records of a Skill evolution and the lifecycle that binds them to each other.  A
 record is accepted by its constructor on its own terms, and by the lifecycle if it names the
 records before it by their hashes.  A live artifact and a verification are constructed only
 with a token that an external read has issued; the token itself is never part of a record.
 */
module SkillOps {
  import opened Json
  import opened Sealing

  /******* Artifacts and the readbacks that vouch for them *******/

  datatype SourceKind = FrozenDataset | EvaluationExport | AgentteamsNative | OtelGenai | AgentloopSls

  /** The system an artifact of this kind is read back from. */
  function ReadFrom(k: SourceKind): string {
    match k
    case FrozenDataset => "evaluation"
    case EvaluationExport => "evaluation"
    case AgentteamsNative => "agentteams"
    case OtelGenai => "otel"
    case AgentloopSls => "agentloop"
  }

  datatype Role = Dataset | Evaluation | Observed

  predicate Allowed(role: Role, k: SourceKind) {
    match role
    case Dataset => k in {FrozenDataset, EvaluationExport}
    case Evaluation => k in {EvaluationExport, AgentloopSls}
    case Observed => k != FrozenDataset
  }

  /** A reference and a hash, never content. */
  datatype Artifact = Artifact(
    ref: string, kind: SourceKind, hash: string, live: bool, attestation: string, runId: Option<string>)
  {
    predicate Ok(c: Scheme, role: Role) {
      && c.IsRef(ref) && c.isHash(hash) && Allowed(role, kind) && c.IsRef(attestation)
      && (role.Observed? ==> runId.Some?) && (runId.Some? ==> c.IsRef(runId.value))
    }
  }

  datatype Classification = UnattestedPartial | AuthorityReceipt | NativeTransport

  /** What issues from reading an external system; it is never part of a record. */
  datatype Token = Token(kind: Classification, source: string, ref: string, hash: string, claims: map<string, string>) {
    predicate Verified() {
      kind != UnattestedPartial
    }

    predicate Claims(name: string, value: string) {
      name in claims && claims[name] == value
    }
  }

  /** A live artifact is only constructed with a verified token for its bytes and its run. */
  predicate Vouched(a: Artifact, t: Token) {
    && t.Verified() && a.kind != FrozenDataset && t.source == ReadFrom(a.kind) && t.hash == a.hash
    && ("run_id" in t.claims ==> a.runId == Some(t.claims["run_id"]))
  }

  /******* Records *******/

  datatype Sealed<T> = Sealed(value: T, hash: string)

  datatype Baseline = Baseline(
    id: string, dataset: Artifact, evaluation: Artifact, runId: string, traces: seq<Artifact>, evidence: seq<Artifact>)

  datatype Attribution = Attribution(
    id: string, skill: string, baseVersion: string, baselineRef: string, baselineHash: string, baselineRun: string,
    traces: seq<Artifact>, evidence: seq<Artifact>)

  datatype Proposal = Proposal(
    id: string, skill: string, baseVersion: string, candidateVersion: string, contentHash: string, rollback: string,
    baselineRef: string, baselineHash: string, attributionRef: string, attributionHash: string)

  datatype Decision = Decision(
    id: string, revision: int, proposalRef: string, proposalHash: string, actor: string, identity: string,
    attestation: string, approved: bool, decidedAt: string)

  datatype Verification = Verification(
    ref: string, eventRef: string, eventHash: string, sender: string, identity: string, decisionRef: string,
    decisionHash: string, proposalRef: string, proposalHash: string, revision: int, approved: bool, baselineRef: string,
    baselineHash: string, runId: string, verifiedAt: string)

  datatype Verdict = Pass | Fail | Blocked | NotAvailable

  datatype Observation = Observation(
    id: string, proposalRef: string, proposalHash: string, candidateVersion: string, dataset: Artifact,
    evaluation: Artifact, result: Artifact, traces: seq<Artifact>, evidence: seq<Artifact>, verdict: Verdict)

  datatype Action = Promote | Rollback

  datatype Closing = Closing(
    id: string, proposalRef: string, proposalHash: string, action: Action, baseVersion: string, candidateVersion: string,
    activeVersion: string, rollback: string, baselineHash: string, canaryRef: string, canaryHash: string,
    reevaluationRef: string, reevaluationHash: string, decisionRef: string, decisionHash: string,
    verificationRef: string, verificationHash: string)

  datatype Content =
    | OfBaseline(Baseline) | OfAttribution(Attribution) | OfProposal(Proposal) | OfDecision(Decision)
    | OfVerification(Verification) | OfCanary(Observation) | OfReevaluation(Observation) | OfClosing(Closing)

  /** The canonical hash of a record's content, and the formats of Skill names and semantic versions. */
  datatype Rules = Rules(c: Scheme, hash: Content -> string, isName: string -> bool, isVersion: string -> bool) {
    ghost predicate Ideal() {
      && (forall x: Content :: c.isHash(hash(x)))
      && (forall x: Content, y: Content :: hash(x) == hash(y) ==> x == y)
    }

    predicate Seals(x: Content, seal: string) {
      c.isHash(seal) && seal == hash(x)
    }
  }

  predicate ObservedIn(c: Scheme, xs: seq<Artifact>, run: Option<string>) {
    xs != [] && forall a | a in xs :: a.Ok(c, Observed) && (run.Some? ==> a.runId == run)
  }

  predicate BaselineOk(u: Rules, s: Sealed<Baseline>) {
    var b := s.value;
    && u.c.IsRef(b.id) && b.dataset.Ok(u.c, Dataset) && b.evaluation.Ok(u.c, Evaluation) && u.c.IsRef(b.runId)
    && ObservedIn(u.c, b.traces, Some(b.runId)) && ObservedIn(u.c, b.evidence, Some(b.runId))
    && u.Seals(OfBaseline(b), s.hash)
  }

  predicate AttributionOk(u: Rules, s: Sealed<Attribution>) {
    var a := s.value;
    && u.c.IsRef(a.id) && u.isName(a.skill) && u.isVersion(a.baseVersion) && u.c.IsRef(a.baselineRef)
    && u.c.isHash(a.baselineHash) && u.c.IsRef(a.baselineRun)
    && ObservedIn(u.c, a.traces, Some(a.baselineRun)) && ObservedIn(u.c, a.evidence, Some(a.baselineRun))
    && u.Seals(OfAttribution(a), s.hash)
  }

  predicate ProposalOk(u: Rules, s: Sealed<Proposal>) {
    var p := s.value;
    && u.c.IsRef(p.id) && u.isName(p.skill) && u.isVersion(p.baseVersion) && u.isVersion(p.candidateVersion)
    && p.baseVersion != p.candidateVersion && u.c.isHash(p.contentHash) && u.c.IsRef(p.rollback)
    && u.c.IsRef(p.baselineRef) && u.c.IsRef(p.attributionRef) && u.c.isHash(p.baselineHash) && u.c.isHash(p.attributionHash)
    && u.Seals(OfProposal(p), s.hash)
  }

  predicate DecisionOk(u: Rules, s: Sealed<Decision>) {
    var d := s.value;
    && u.c.IsRef(d.id) && d.revision >= 1 && u.c.IsRef(d.proposalRef) && u.c.isHash(d.proposalHash) && u.c.IsRef(d.actor)
    && u.c.IsRef(d.identity) && u.c.IsRef(d.attestation) && u.c.IsRef(d.decidedAt) && u.Seals(OfDecision(d), s.hash)
  }

  predicate VerificationOk(u: Rules, s: Sealed<Verification>) {
    var v := s.value;
    && u.c.IsRef(v.ref) && u.c.IsRef(v.eventRef) && u.c.isHash(v.eventHash) && u.c.IsRef(v.sender) && u.c.IsRef(v.identity)
    && u.c.IsRef(v.decisionRef) && u.c.isHash(v.decisionHash) && u.c.IsRef(v.proposalRef) && u.c.isHash(v.proposalHash)
    && v.revision >= 1 && u.c.IsRef(v.baselineRef) && u.c.isHash(v.baselineHash) && u.c.IsRef(v.runId)
    && u.c.IsRef(v.verifiedAt) && u.Seals(OfVerification(v), s.hash)
  }

  /** A verification is only constructed with the authority's receipt for exactly this Matrix event and decision. */
  predicate Confirms(t: Token, v: Verification) {
    && t.kind == AuthorityReceipt && t.source == "matrix" && t.ref == v.eventRef && t.hash == v.eventHash
    && t.Claims("sender", v.sender) && t.Claims("identity_ref", v.identity) && t.Claims("run_id", v.runId)
    && t.Claims("approval_id", v.decisionRef) && t.Claims("decision", if v.approved then "APPROVE" else "REJECT")
    && t.Claims("decision_revision", EmitInt(v.revision))
  }

  /** A verdict on a completed evaluation needs a live result. */
  predicate ObservationOk(u: Rules, o: Observation) {
    && u.c.IsRef(o.id) && u.c.IsRef(o.proposalRef) && u.c.isHash(o.proposalHash) && u.isVersion(o.candidateVersion)
    && o.dataset.Ok(u.c, Dataset) && o.evaluation.Ok(u.c, Evaluation) && o.result.Ok(u.c, Observed)
    && ObservedIn(u.c, o.traces, o.result.runId) && ObservedIn(u.c, o.evidence, o.result.runId)
    && (o.verdict in {Pass, Fail} ==> o.result.live)
  }

  predicate CanaryOk(u: Rules, s: Sealed<Observation>) {
    ObservationOk(u, s.value) && u.Seals(OfCanary(s.value), s.hash)
  }

  predicate ReevaluationOk(u: Rules, s: Sealed<Observation>) {
    ObservationOk(u, s.value) && u.Seals(OfReevaluation(s.value), s.hash)
  }

  predicate ClosingOk(u: Rules, s: Sealed<Closing>) {
    var x := s.value;
    && u.c.IsRef(x.id) && u.c.IsRef(x.proposalRef) && u.c.isHash(x.proposalHash) && u.isVersion(x.baseVersion)
    && u.isVersion(x.candidateVersion) && u.isVersion(x.activeVersion)
    && x.activeVersion == (if x.action.Promote? then x.candidateVersion else x.baseVersion)
    && u.c.IsRef(x.rollback) && u.c.IsRef(x.canaryRef) && u.c.IsRef(x.reevaluationRef) && u.c.IsRef(x.decisionRef)
    && u.c.IsRef(x.verificationRef) && u.c.isHash(x.baselineHash) && u.c.isHash(x.canaryHash)
    && u.c.isHash(x.reevaluationHash) && u.c.isHash(x.decisionHash) && u.c.isHash(x.verificationHash)
    && u.Seals(OfClosing(x), s.hash)
  }

  /******* The lifecycle *******/

  datatype Records = Records(
    baseline: Option<Sealed<Baseline>>, attribution: Option<Sealed<Attribution>>, proposal: Option<Sealed<Proposal>>,
    decision: Option<Sealed<Decision>>, verification: Option<Sealed<Verification>>, canary: Option<Sealed<Observation>>,
    reevaluation: Option<Sealed<Observation>>, receipt: Option<Sealed<Closing>>)

  const NOTHING := Records(None, None, None, None, None, None, None, None)

  datatype State =
    | Empty | BaselineFrozen | Attributed | Proposed | HumanApproved | Rejected | CanaryRecorded | Reevaluated
    | PromotionPending | RollbackPending

  datatype Evolution = Evolution(skill: string, state: State, records: Records)

  function Start(skill: string): Evolution {
    Evolution(skill, Empty, NOTHING)
  }

  datatype Transition =
    | Freeze(baseline: Sealed<Baseline>)
    | Attribute(attribution: Sealed<Attribution>)
    | Propose(proposal: Sealed<Proposal>)
    | Decide(decision: Sealed<Decision>, verification: Sealed<Verification>)
    | RecordCanary(canary: Sealed<Observation>)
    | RecordReevaluation(reevaluation: Sealed<Observation>)
    | Close(closing: Sealed<Closing>)

  predicate Attributes(skill: string, b: Sealed<Baseline>, a: Attribution) {
    && a.baselineRef == b.value.id && a.baselineHash == b.hash && a.skill == skill && a.baselineRun == b.value.runId
  }

  predicate Proposes(skill: string, b: Sealed<Baseline>, a: Sealed<Attribution>, p: Proposal) {
    && p.skill == skill && p.baselineRef == b.value.id && p.baselineHash == b.hash && p.attributionRef == a.value.id
    && p.attributionHash == a.hash && p.baseVersion == a.value.baseVersion
  }

  predicate Verifies(b: Sealed<Baseline>, p: Sealed<Proposal>, d: Sealed<Decision>, v: Verification) {
    && v.eventRef == d.value.attestation && v.sender == d.value.actor && v.identity == d.value.identity
    && v.decisionRef == d.value.id && v.decisionHash == d.hash && v.proposalRef == p.value.id && v.proposalHash == p.hash
    && v.revision == d.value.revision && v.approved == d.value.approved && v.baselineRef == b.value.id
    && v.baselineHash == b.hash && v.runId == b.value.runId
  }

  predicate Evaluates(b: Baseline, p: Sealed<Proposal>, o: Observation) {
    && o.proposalRef == p.value.id && o.proposalHash == p.hash && o.candidateVersion == p.value.candidateVersion
    && o.dataset == b.dataset && o.evaluation == b.evaluation
  }

  predicate Distinct(canary: Observation, o: Observation) {
    o.result.ref != canary.result.ref && o.result.hash != canary.result.hash
  }

  predicate Closes(r: Records, x: Closing) {
    && r.baseline.Some? && r.proposal.Some? && r.decision.Some? && r.verification.Some? && r.canary.Some? && r.reevaluation.Some?
    && x.proposalRef == r.proposal.value.value.id && x.proposalHash == r.proposal.value.hash
    && x.baselineHash == r.baseline.value.hash && x.canaryRef == r.canary.value.value.id
    && x.canaryHash == r.canary.value.hash && x.reevaluationRef == r.reevaluation.value.value.id
    && x.reevaluationHash == r.reevaluation.value.hash && x.decisionRef == r.decision.value.value.id
    && x.decisionHash == r.decision.value.hash && x.verificationRef == r.verification.value.value.ref
    && x.verificationHash == r.verification.value.hash && x.baseVersion == r.proposal.value.value.baseVersion
    && x.candidateVersion == r.proposal.value.value.candidateVersion && x.rollback == r.proposal.value.value.rollback
  }

  /** A promotion needs two passing observations; a rollback is always possible. */
  predicate MayClose(r: Records, action: Action) {
    action.Promote? ==>
      r.canary.Some? && r.reevaluation.Some? && r.canary.value.value.verdict.Pass? && r.reevaluation.value.value.verdict.Pass?
  }

  /** The slots a transition fills. */
  function Write(r: Records, t: Transition): Records {
    match t
    case Freeze(b) => r.(baseline := Some(b))
    case Attribute(a) => r.(attribution := Some(a))
    case Propose(p) => r.(proposal := Some(p))
    case Decide(d, v) => r.(decision := Some(d), verification := Some(v))
    case RecordCanary(o) => r.(canary := Some(o))
    case RecordReevaluation(o) => r.(reevaluation := Some(o))
    case Close(x) => r.(receipt := Some(x))
  }

  /** The state that accepts a transition, and the one it leads to. */
  function Before(t: Transition): State {
    match t
    case Freeze(_) => Empty
    case Attribute(_) => BaselineFrozen
    case Propose(_) => Attributed
    case Decide(_, _) => Proposed
    case RecordCanary(_) => HumanApproved
    case RecordReevaluation(_) => CanaryRecorded
    case Close(_) => Reevaluated
  }

  function After(t: Transition): State {
    match t
    case Freeze(_) => BaselineFrozen
    case Attribute(_) => Attributed
    case Propose(_) => Proposed
    case Decide(d, _) => if d.value.approved then HumanApproved else Rejected
    case RecordCanary(_) => CanaryRecorded
    case RecordReevaluation(_) => Reevaluated
    case Close(x) => if x.value.action.Promote? then PromotionPending else RollbackPending
  }

  /** What a transition asks of its record and of the records before it. */
  predicate Accepts(u: Rules, skill: string, r: Records, t: Transition) {
    match t
    case Freeze(b) => BaselineOk(u, b)
    case Attribute(a) => r.baseline.Some? && AttributionOk(u, a) && Attributes(skill, r.baseline.value, a.value)
    case Propose(p) =>
      r.baseline.Some? && r.attribution.Some? && ProposalOk(u, p) && Proposes(skill, r.baseline.value, r.attribution.value, p.value)
    case Decide(d, v) =>
      && r.baseline.Some? && r.proposal.Some? && DecisionOk(u, d) && VerificationOk(u, v)
      && d.value.proposalRef == r.proposal.value.value.id && d.value.proposalHash == r.proposal.value.hash
      && Verifies(r.baseline.value, r.proposal.value, d, v.value)
    case RecordCanary(o) =>
      r.baseline.Some? && r.proposal.Some? && CanaryOk(u, o) && Evaluates(r.baseline.value.value, r.proposal.value, o.value)
    case RecordReevaluation(o) =>
      && r.baseline.Some? && r.proposal.Some? && ReevaluationOk(u, o)
      && Evaluates(r.baseline.value.value, r.proposal.value, o.value)
      && (r.canary.Some? ==> Distinct(r.canary.value.value, o.value))
    case Close(x) => ClosingOk(u, x) && Closes(r, x.value) && MayClose(r, x.value.action)
  }

  /** One transition; None means that it, or the constructor of its record, raises. */
  function Advance(u: Rules, e: Evolution, t: Transition): Option<Evolution> {
    if e.state == Before(t) && Accepts(u, e.skill, e.records, t) then Some(Evolution(e.skill, After(t), Write(e.records, t)))
    else None
  }

  function Then(u: Rules, e: Option<Evolution>, t: Transition): Option<Evolution> {
    match e case None => None case Some(x) => Advance(u, x, t)
  }

  function Run(u: Rules, skill: string, ts: seq<Transition>): Option<Evolution> {
    if ts == [] then Some(Start(skill)) else Then(u, Run(u, skill, ts[..|ts| - 1]), ts[|ts| - 1])
  }

  /** The transitions that stored records ask for, in the order in which they are replayed. */
  function Told(r: Records): seq<Transition> {
    (if r.baseline.Some? then [Freeze(r.baseline.value)] else [])
    + (if r.attribution.Some? then [Attribute(r.attribution.value)] else [])
    + (if r.proposal.Some? then [Propose(r.proposal.value)] else [])
    + (if r.decision.Some? && r.verification.Some? then [Decide(r.decision.value, r.verification.value)] else [])
    + (if r.canary.Some? then [RecordCanary(r.canary.value)] else [])
    + (if r.reevaluation.Some? then [RecordReevaluation(r.reevaluation.value)] else [])
    + (if r.receipt.Some? then [Close(r.receipt.value)] else [])
  }

  /** The lifecycle rebuilt from stored records; None means that replaying them raises. */
  function Replay(u: Rules, r: Records): Option<Evolution> {
    if r.baseline.None? || r.attribution.None? || r.proposal.None? || (r.decision.Some? && r.verification.None?) then None
    else Run(u, r.proposal.value.value.skill, Told(r))
  }

  /******* Every run *******/

  /** How many transitions lead to a state. */
  function Rank(s: State): nat {
    match s
    case Empty => 0
    case BaselineFrozen => 1
    case Attributed => 2
    case Proposed => 3
    case HumanApproved => 4
    case Rejected => 4
    case CanaryRecorded => 5
    case Reevaluated => 6
    case PromotionPending => 7
    case RollbackPending => 7
  }

  /** The slots that are filled in each state. */
  predicate Shape(e: Evolution) {
    var r, n := e.records, Rank(e.state);
    && (r.baseline.Some? <==> n >= 1) && (r.attribution.Some? <==> n >= 2) && (r.proposal.Some? <==> n >= 3)
    && (r.decision.Some? <==> n >= 4) && (r.verification.Some? <==> n >= 4) && (r.canary.Some? <==> n >= 5)
    && (r.reevaluation.Some? <==> n >= 6) && (r.receipt.Some? <==> n >= 7)
    && (n >= 3 ==> r.proposal.value.value.skill == e.skill)
    && (n >= 4 ==> (r.decision.value.value.approved <==> e.state != Rejected))
    && (n >= 7 ==> (r.receipt.value.value.action.Promote? <==> e.state == PromotionPending))
  }

  /** Every record is sealed, and names the records it rests on by their hashes. */
  predicate Linked(u: Rules, e: Evolution) {
    var r, n := e.records, Rank(e.state);
    && Shape(e)
    && (n >= 1 ==> u.Seals(OfBaseline(r.baseline.value.value), r.baseline.value.hash))
    && (n >= 2 ==> u.Seals(OfAttribution(r.attribution.value.value), r.attribution.value.hash))
    && (n >= 3 ==> u.Seals(OfProposal(r.proposal.value.value), r.proposal.value.hash)
                   && Proposes(e.skill, r.baseline.value, r.attribution.value, r.proposal.value.value))
    && (n >= 4 ==> u.Seals(OfDecision(r.decision.value.value), r.decision.value.hash)
                   && u.Seals(OfVerification(r.verification.value.value), r.verification.value.hash)
                   && Verifies(r.baseline.value, r.proposal.value, r.decision.value, r.verification.value.value))
    && (n >= 5 ==> u.Seals(OfCanary(r.canary.value.value), r.canary.value.hash)
                   && Evaluates(r.baseline.value.value, r.proposal.value, r.canary.value.value))
    && (n >= 6 ==> u.Seals(OfReevaluation(r.reevaluation.value.value), r.reevaluation.value.hash)
                   && Evaluates(r.baseline.value.value, r.proposal.value, r.reevaluation.value.value)
                   && Distinct(r.canary.value.value, r.reevaluation.value.value))
    && (n >= 7 ==> u.Seals(OfClosing(r.receipt.value.value), r.receipt.value.hash)
                   && Closes(r, r.receipt.value.value) && MayClose(r, r.receipt.value.value.action))
  }

  lemma AdvanceKeepsShape(e: Evolution, t: Transition)
    requires Shape(e) && e.state == Before(t) && (t.Propose? ==> t.proposal.value.skill == e.skill)
    ensures var f := Evolution(e.skill, After(t), Write(e.records, t)); Shape(f) && Rank(f.state) == Rank(e.state) + 1
  {
  }

  lemma AdvanceKeepsLinked(u: Rules, e: Evolution, t: Transition)
    requires Linked(u, e) && Advance(u, e, t).Some?
    ensures Linked(u, Advance(u, e, t).value) && Rank(Advance(u, e, t).value.state) == Rank(e.state) + 1
  {
    assert t.Propose? ==> t.proposal.value.skill == e.skill by {
      hide BaselineOk, AttributionOk, ProposalOk, DecisionOk, VerificationOk, CanaryOk, ReevaluationOk, ClosingOk, Shape, Closes;
    }
    AdvanceKeepsShape(e, t);
    AcceptedIsSealed(u, e.skill, e.records, t);
    hide BaselineOk, AttributionOk, ProposalOk, DecisionOk, VerificationOk, CanaryOk, ReevaluationOk, ClosingOk, Rules.Seals;
    hide Proposes, Verifies, Evaluates, Distinct, MayClose, Attributes;
    ClosesDependsOn(e.records, t);
  }

  /** A closing record is about the slots before it. */
  lemma ClosesDependsOn(r: Records, t: Transition)
    ensures t.Close? ==> forall x :: Closes(Write(r, t), x) == Closes(r, x)
    ensures t.Close? ==> forall a :: MayClose(Write(r, t), a) == MayClose(r, a)
  {
  }

  predicate SealedBy(u: Rules, t: Transition) {
    match t
    case Freeze(b) => u.Seals(OfBaseline(b.value), b.hash)
    case Attribute(a) => u.Seals(OfAttribution(a.value), a.hash)
    case Propose(p) => u.Seals(OfProposal(p.value), p.hash)
    case Decide(d, v) => u.Seals(OfDecision(d.value), d.hash) && u.Seals(OfVerification(v.value), v.hash)
    case RecordCanary(o) => u.Seals(OfCanary(o.value), o.hash)
    case RecordReevaluation(o) => u.Seals(OfReevaluation(o.value), o.hash)
    case Close(x) => u.Seals(OfClosing(x.value), x.hash)
  }

  lemma AcceptedIsSealed(u: Rules, skill: string, r: Records, t: Transition)
    requires Accepts(u, skill, r, t)
    ensures SealedBy(u, t)
  {
    hide Rules.Seals, ObservedIn, Artifact.Ok, ObservationOk, Scheme.IsReference, Closes, Evaluates, Verifies;
  }

  /** Safety over every run: whatever the transitions, the records are linked by their hashes. */
  lemma {:induction false} EveryRunIsLinked(u: Rules, skill: string, ts: seq<Transition>)
    requires Run(u, skill, ts).Some?
    ensures var e := Run(u, skill, ts).value; Linked(u, e) && e.skill == skill && Rank(e.state) == |ts| <= 7
  {
    if ts != [] {
      hide Advance, Linked, Rank;
      EveryRunIsLinked(u, skill, ts[..|ts| - 1]);
      AdvanceKeepsLinked(u, Run(u, skill, ts[..|ts| - 1]).value, ts[|ts| - 1]);
      SkillStays(u, Run(u, skill, ts[..|ts| - 1]).value, ts[|ts| - 1]);
    }
  }

  lemma SkillStays(u: Rules, e: Evolution, t: Transition)
    requires Advance(u, e, t).Some?
    ensures Advance(u, e, t).value.skill == e.skill && Rank(Advance(u, e, t).value.state) <= 7
  {
    hide Accepts;
  }

  /** Every stored record is one its constructor accepts. */
  predicate AllOk(u: Rules, r: Records) {
    && (r.baseline.Some? ==> BaselineOk(u, r.baseline.value)) && (r.attribution.Some? ==> AttributionOk(u, r.attribution.value))
    && (r.proposal.Some? ==> ProposalOk(u, r.proposal.value)) && (r.decision.Some? ==> DecisionOk(u, r.decision.value))
    && (r.verification.Some? ==> VerificationOk(u, r.verification.value)) && (r.canary.Some? ==> CanaryOk(u, r.canary.value))
    && (r.reevaluation.Some? ==> ReevaluationOk(u, r.reevaluation.value)) && (r.receipt.Some? ==> ClosingOk(u, r.receipt.value))
  }

  lemma AcceptedIsOk(u: Rules, e: Evolution, t: Transition)
    requires Advance(u, e, t).Some? && AllOk(u, e.records)
    ensures AllOk(u, Advance(u, e, t).value.records)
  {
    hide BaselineOk, AttributionOk, ProposalOk, DecisionOk, VerificationOk, CanaryOk, ReevaluationOk, ClosingOk;
    hide Proposes, Verifies, Evaluates, Distinct, MayClose, Attributes, Closes, Before, After;
  }

  lemma {:induction false} EveryRunIsOk(u: Rules, skill: string, ts: seq<Transition>)
    requires Run(u, skill, ts).Some?
    ensures AllOk(u, Run(u, skill, ts).value.records)
  {
    hide Advance, AllOk;
    if ts == [] {
      NothingIsOk(u, skill);
    } else {
      EveryRunIsOk(u, skill, ts[..|ts| - 1]);
      AcceptedIsOk(u, Run(u, skill, ts[..|ts| - 1]).value, ts[|ts| - 1]);
    }
  }

  lemma NothingIsOk(u: Rules, skill: string)
    ensures AllOk(u, Start(skill).records)
  {
  }

  lemma OneMoreIsTold(e: Evolution, t: Transition)
    requires Shape(e) && e.state == Before(t)
    ensures Told(Write(e.records, t)) == Told(e.records) + [t]
  {
  }

  lemma LastOfRun(u: Rules, skill: string, ts: seq<Transition>)
    requires ts != [] && Run(u, skill, ts).Some?
    ensures
      var n := |ts| - 1;
      && Run(u, skill, ts[..n]).Some? && Run(u, skill, ts[..n]).value.state == Before(ts[n])
      && Run(u, skill, ts).value.records == Write(Run(u, skill, ts[..n]).value.records, ts[n])
  {
    hide Accepts, Write, Before;
  }

  lemma NothingTold(u: Rules, skill: string)
    ensures Run(u, skill, []).Some? && Told(Run(u, skill, []).value.records) == []
  {
  }

  lemma {:induction false} RunIsTold(u: Rules, skill: string, ts: seq<Transition>)
    requires Run(u, skill, ts).Some?
    ensures Told(Run(u, skill, ts).value.records) == ts
  {
    hide *;
    if ts == [] {
      NothingTold(u, skill);
    } else {
      var n := |ts| - 1;
      LastOfRun(u, skill, ts);
      RunIsTold(u, skill, ts[..n]);
      RunHasShape(u, skill, ts[..n]);
      OneMoreIsTold(Run(u, skill, ts[..n]).value, ts[n]);
      assert ts == ts[..n] + [ts[n]];
    }
  }

  lemma RunHasShape(u: Rules, skill: string, ts: seq<Transition>)
    requires Run(u, skill, ts).Some?
    ensures Shape(Run(u, skill, ts).value)
  {
    EveryRunIsLinked(u, skill, ts);
    hide Shape, Run;
  }

  /** A run is told by the records it leaves behind: from them alone it is replayed to the same lifecycle. */
  lemma RunIsReplayed(u: Rules, skill: string, ts: seq<Transition>)
    requires Run(u, skill, ts).Some? && |ts| >= 3
    ensures Replay(u, Run(u, skill, ts).value.records) == Run(u, skill, ts)
  {
    RunIsTold(u, skill, ts);
    EveryRunIsLinked(u, skill, ts);
    RunHasShape(u, skill, ts);
    hide Run, Told, Linked;
  }

  lemma OneSeal(u: Rules, x: Content, y: Content, seal: string)
    requires u.Ideal() && u.Seals(x, seal) && u.Seals(y, seal)
    ensures x == y
  {
  }

  /** A proposal fixes the baseline and the attribution it rests on. */
  lemma ProposalFixes(u: Rules, e: Evolution, f: Evolution)
    requires u.Ideal() && Linked(u, e) && Linked(u, f) && Rank(e.state) >= 3 && Rank(f.state) >= 3
    requires e.records.proposal.value.hash == f.records.proposal.value.hash
    ensures
      && e.records.proposal == f.records.proposal && e.records.baseline == f.records.baseline
      && e.records.attribution == f.records.attribution
  {
    var r, s := e.records, f.records;
    hide Rules.Ideal, Rules.Seals, Verifies, Evaluates, Distinct, Closes, MayClose;
    OneSeal(u, OfProposal(r.proposal.value.value), OfProposal(s.proposal.value.value), r.proposal.value.hash);
    OneSeal(u, OfBaseline(r.baseline.value.value), OfBaseline(s.baseline.value.value), r.baseline.value.hash);
    OneSeal(u, OfAttribution(r.attribution.value.value), OfAttribution(s.attribution.value.value), r.attribution.value.hash);
  }

  lemma ClosingHashes(r: Records, s: Records, x: Closing)
    requires Closes(r, x) && Closes(s, x)
    ensures
      && r.proposal.value.hash == s.proposal.value.hash && r.decision.value.hash == s.decision.value.hash
      && r.verification.value.hash == s.verification.value.hash && r.canary.value.hash == s.canary.value.hash
      && r.reevaluation.value.hash == s.reevaluation.value.hash
  {
  }

  /** The closing record's own hash fixes the whole evolution: all eight records, and so the run itself. */
  lemma ClosingFixesTheRun(u: Rules, skill: string, ts: seq<Transition>, other: string, us: seq<Transition>)
    requires u.Ideal() && Run(u, skill, ts).Some? && Run(u, other, us).Some? && |ts| == 7 == |us|
    ensures
      var e, f := Run(u, skill, ts).value, Run(u, other, us).value;
      && e.records.receipt.Some? && f.records.receipt.Some?
      && (e.records.receipt.value.hash == f.records.receipt.value.hash <==> skill == other && ts == us)
  {
    EveryRunIsLinked(u, skill, ts);
    EveryRunIsLinked(u, other, us);
    RunIsTold(u, skill, ts);
    RunIsTold(u, other, us);
    var e, f := Run(u, skill, ts).value, Run(u, other, us).value;
    hide Run, Told;
    HasReceipt(u, e);
    HasReceipt(u, f);
    if e.records.receipt.value.hash == f.records.receipt.value.hash { ReceiptFixes(u, e, f); }
    hide *;
  }

  lemma HasReceipt(u: Rules, e: Evolution)
    requires Linked(u, e) && Rank(e.state) == 7
    ensures e.records.receipt.Some?
  {
  }

  lemma ReceiptFixes(u: Rules, e: Evolution, f: Evolution)
    requires u.Ideal() && Linked(u, e) && Linked(u, f) && Rank(e.state) == 7 == Rank(f.state)
    requires e.records.receipt.Some? && f.records.receipt.Some? && e.records.receipt.value.hash == f.records.receipt.value.hash
    ensures e.skill == f.skill && e.records == f.records
  {
    var r, s := e.records, f.records;
    hide Rules.Ideal, Rules.Seals, Verifies, Evaluates, Distinct, Closes, MayClose, Proposes;
    OneSeal(u, OfClosing(r.receipt.value.value), OfClosing(s.receipt.value.value), r.receipt.value.hash);
    ClosingHashes(r, s, r.receipt.value.value);
    ProposalFixes(u, e, f);
    OneSeal(u, OfDecision(r.decision.value.value), OfDecision(s.decision.value.value), r.decision.value.hash);
    OneSeal(u, OfVerification(r.verification.value.value), OfVerification(s.verification.value.value), r.verification.value.hash);
    OneSeal(u, OfCanary(r.canary.value.value), OfCanary(s.canary.value.value), r.canary.value.hash);
    OneSeal(u, OfReevaluation(r.reevaluation.value.value), OfReevaluation(s.reevaluation.value.value), r.reevaluation.value.hash);
  }

  /******* The lifecycle object *******/

  /** What a method that makes this transition answers and leaves behind. */
  function Attempt(u: Rules, e: Evolution, t: Transition): (bool, Evolution) {
    match Advance(u, e, t) case None => (false, e) case Some(f) => (true, f)
  }

  class SkillEvolution {
    const skill: string
    var state: State
    var baseline: Option<Sealed<Baseline>>
    var attribution: Option<Sealed<Attribution>>
    var proposal: Option<Sealed<Proposal>>
    var decision: Option<Sealed<Decision>>
    var verification: Option<Sealed<Verification>>
    var canary: Option<Sealed<Observation>>
    var reevaluation: Option<Sealed<Observation>>
    var receipt: Option<Sealed<Closing>>

    function Stored(): Records
      reads this
    {
      Records(baseline, attribution, proposal, decision, verification, canary, reevaluation, receipt)
    }

    function Value(): Evolution
      reads this
    {
      Evolution(skill, state, Stored())
    }

    constructor (skill: string)
      ensures Value() == Start(skill)
    {
      this.skill, state := skill, Empty;
      baseline, attribution, proposal, decision, verification := None, None, None, None, None;
      canary, reevaluation, receipt := None, None, None;
    }

    method FreezeBaseline(u: Rules, value: Sealed<Baseline>) returns (ok: bool)
      modifies this
      ensures (ok, Value()) == Attempt(u, old(Value()), Freeze(value))
    {
      hide BaselineOk;
      if !BaselineOk(u, value) || state != Empty { return false; }
      baseline, state := Some(value), BaselineFrozen;
      return true;
    }

    method TakeAttribution(u: Rules, value: Sealed<Attribution>) returns (ok: bool)
      modifies this
      ensures (ok, Value()) == Attempt(u, old(Value()), Attribute(value))
    {
      hide AttributionOk;
      if !AttributionOk(u, value) || state != BaselineFrozen { return false; }
      if baseline.None? || value.value.baselineRef != baseline.value.value.id || value.value.baselineHash != baseline.value.hash {
        return false;
      }
      if value.value.skill != skill { return false; }
      if value.value.baselineRun != baseline.value.value.runId { return false; }
      attribution, state := Some(value), Attributed;
      return true;
    }

    method TakeProposal(u: Rules, value: Sealed<Proposal>) returns (ok: bool)
      modifies this
      ensures (ok, Value()) == Attempt(u, old(Value()), Propose(value))
    {
      hide ProposalOk;
      if !ProposalOk(u, value) || state != Attributed { return false; }
      if baseline.None? || attribution.None? { return false; }
      if !Proposes(skill, baseline.value, attribution.value, value.value) { return false; }
      proposal, state := Some(value), Proposed;
      return true;
    }

    method TakeDecision(u: Rules, value: Sealed<Decision>, confirmed: Sealed<Verification>) returns (ok: bool)
      modifies this
      ensures (ok, Value()) == Attempt(u, old(Value()), Decide(value, confirmed))
    {
      hide DecisionOk, VerificationOk, Verifies;
      if !DecisionOk(u, value) || !VerificationOk(u, confirmed) || state != Proposed { return false; }
      if proposal.None? || value.value.proposalRef != proposal.value.value.id || value.value.proposalHash != proposal.value.hash {
        return false;
      }
      if baseline.None? || !Verifies(baseline.value, proposal.value, value, confirmed.value) { return false; }
      decision, verification := Some(value), Some(confirmed);
      state := if value.value.approved then HumanApproved else Rejected;
      return true;
    }

    predicate IsEvaluation(o: Observation)
      reads this
    {
      baseline.Some? && proposal.Some? && Evaluates(baseline.value.value, proposal.value, o)
    }

    method TakeCanary(u: Rules, value: Sealed<Observation>) returns (ok: bool)
      modifies this
      ensures (ok, Value()) == Attempt(u, old(Value()), RecordCanary(value))
    {
      hide CanaryOk, Evaluates;
      if !CanaryOk(u, value) || state != HumanApproved || !IsEvaluation(value.value) { return false; }
      canary, state := Some(value), CanaryRecorded;
      return true;
    }

    method TakeReevaluation(u: Rules, value: Sealed<Observation>) returns (ok: bool)
      modifies this
      ensures (ok, Value()) == Attempt(u, old(Value()), RecordReevaluation(value))
    {
      hide ReevaluationOk, Evaluates;
      if !ReevaluationOk(u, value) || state != CanaryRecorded || !IsEvaluation(value.value) { return false; }
      if canary.Some? {
        if value.value.result.ref == canary.value.value.result.ref || value.value.result.hash == canary.value.value.result.hash {
          return false;
        }
      }
      reevaluation, state := Some(value), Reevaluated;
      return true;
    }

    /** A failed canary leaves only a rollback; that is one case of the test for a promotion. */
    method TakeReceipt(u: Rules, value: Sealed<Closing>) returns (ok: bool)
      modifies this
      ensures (ok, Value()) == Attempt(u, old(Value()), Close(value))
    {
      hide ClosingOk, Closes;
      if !ClosingOk(u, value) || state != Reevaluated || !Closes(Stored(), value.value) { return false; }
      assert canary.Some? && reevaluation.Some? by { ClosesNeeds(Stored(), value.value); }
      if canary.value.value.verdict.Fail? && !value.value.action.Rollback? { return false; }
      if value.value.action.Promote? && !(canary.value.value.verdict.Pass? && reevaluation.value.value.verdict.Pass?) {
        return false;
      }
      receipt := Some(value);
      state := if value.value.action.Promote? then PromotionPending else RollbackPending;
      return true;
    }
  }

  lemma ClosesNeeds(r: Records, x: Closing)
    requires Closes(r, x)
    ensures r.canary.Some? && r.reevaluation.Some?
  {
  }
}
