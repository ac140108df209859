/** The immutable records of the authority store and what makes each of them valid. */
module Records {
  import opened Json
  import opened Canonical
  import opened Sealing

  const CONTENT_HASH: string := "content_hash"
  const RECORD_HASH: string := "record_hash"

  function OptStr(s: Option<string>): Json {
    match s case None => Null case Some(v) => Str(v)
  }

  function OptInt(n: Option<int>): Json {
    match n case None => Null case Some(v) => Int(v)
  }

  /** Where a record belongs: the three references every record carries. */
  datatype Lineage = Lineage(runId: string, campaignId: string, traceId: string) {
    predicate Ok(c: Scheme) {
      c.IsRef(runId) && c.IsRef(campaignId) && c.IsRef(traceId)
    }
  }

  /******* Events *******/

  datatype EventHeader = EventHeader(
    eventId: string, aggregateId: string, aggregateType: string, revision: int, eventType: string, actor: string,
    idempotencyKey: string, occurredAt: string, requestHash: string, lineage: Lineage, provenance: string,
    contentHash: string)
  {
    predicate Ok(c: Scheme) {
      && c.IsIdentifier(eventId) && c.IsIdentifier(aggregateId) && c.IsIdentifier(aggregateType)
      && c.IsIdentifier(eventType) && c.IsIdentifier(actor) && c.IsIdentifier(idempotencyKey)
      && c.IsIdentifier(occurredAt) && c.IsIdentifier(lineage.runId) && c.IsIdentifier(lineage.campaignId)
      && c.IsIdentifier(lineage.traceId) && c.IsIdentifier(provenance)
      && revision >= 1 && c.isHash(requestHash)
    }
  }

  datatype Event = Event(header: EventHeader, payload: Json) {
    function Payload(): seq<Member> {
      var h := header;
      [Member("event_id", Str(h.eventId)), Member("aggregate_id", Str(h.aggregateId)),
       Member("aggregate_type", Str(h.aggregateType)), Member("revision", Int(h.revision)),
       Member("event_type", Str(h.eventType)), Member("actor", Str(h.actor)),
       Member("idempotency_key", Str(h.idempotencyKey)), Member("occurred_at", Str(h.occurredAt)),
       Member("payload", payload), Member("request_hash", Str(h.requestHash)),
       Member("run_id", Str(h.lineage.runId)), Member("campaign_id", Str(h.lineage.campaignId)),
       Member("trace_id", Str(h.lineage.traceId)), Member("provenance", Str(h.provenance))]
    }

    function AsDict(): seq<Member> {
      Payload() + [Member(CONTENT_HASH, Str(header.contentHash))]
    }

    predicate Valid(c: Scheme) {
      && header.Ok(c)
      && payload.Obj? && WellFormed(payload) && c.Safe(payload, 0)
      && c.Sealed(AsDict(), CONTENT_HASH)
    }
  }

  /** Fills in the seal; the result is the caller's record only if it is valid. */
  function CreateEvent(c: Scheme, header: EventHeader, payload: Json): Option<Event> {
    var e := Event(header, payload);
    var sealed := Event(header.(contentHash := c.Hash(Obj(e.Payload()))), payload);
    if sealed.Valid(c) then Some(sealed) else None
  }

  /******* Human decisions *******/

  datatype Phase = Pause | Approve | Deny | Resume | Stop {
    function Name(): string {
      match this
      case Pause => "PAUSE"
      case Approve => "APPROVE"
      case Deny => "DENY"
      case Resume => "RESUME"
      case Stop => "STOP"
    }

    predicate NeedsHuman() {
      Approve? || Deny? || Resume?
    }
  }

  datatype Decision = ApproveDecision | DenyDecision {
    function Name(): string {
      if ApproveDecision? then "APPROVE" else "DENY"
    }
  }

  function OptDecision(d: Option<Decision>): Json {
    match d case None => Null case Some(v) => Str(v.Name())
  }

  /** A decision phase carries its own decision, and no other phase carries any. */
  predicate DecisionFits(phase: Phase, decision: Option<Decision>) {
    match phase
    case Approve => decision == Some(ApproveDecision)
    case Deny => decision == Some(DenyDecision)
    case _ => decision == None
  }

  const AUTOMATIC: set<string> := {"auto", "automatic", "system", "internal", "default"}

  predicate IsExternal(c: Scheme, s: string) {
    var l := c.fold(s);
    && c.IsRef(s)
    && l !in AUTOMATIC
    && forall m | m in AUTOMATIC :: !(m + ":" <= l) && !(m + "-" <= l) && !(m + "/" <= l)
  }

  datatype Attestation = Attestation(
    verificationRef: string, source: string, eventRef: string, eventHash: string, sender: string, identityRef: string,
    approvalId: string, phase: Phase, decision: Option<Decision>, lineage: Lineage, revision: int, verifiedAt: string,
    recordHash: string)
  {
    function AsDict(): seq<Member> {
      [Member("verification_ref", Str(verificationRef)), Member("source", Str(source)), Member("event_ref", Str(eventRef)),
       Member("event_hash", Str(eventHash)), Member("sender", Str(sender)), Member("identity_ref", Str(identityRef)),
       Member("approval_id", Str(approvalId)), Member("phase", Str(phase.Name())), Member("decision", OptDecision(decision)),
       Member("run_id", Str(lineage.runId)), Member("campaign_id", Str(lineage.campaignId)),
       Member("trace_id", Str(lineage.traceId)), Member("revision", Int(revision)), Member("verified_at", Str(verifiedAt)),
       Member(RECORD_HASH, Str(recordHash))]
    }

    predicate Valid(c: Scheme) {
      && c.IsRef(verificationRef) && c.IsRef(eventRef) && c.IsRef(sender) && c.IsRef(identityRef) && c.IsRef(approvalId)
      && lineage.Ok(c) && c.IsRef(verifiedAt)
      && source == "matrix-live-readback" && DecisionFits(phase, decision) && revision >= 1 && c.isHash(eventHash)
      && c.Sealed(AsDict(), RECORD_HASH)
    }
  }

  datatype ActorKind = NativePolicy | ExternalHuman {
    function Name(): string {
      if NativePolicy? then "native-policy" else "external-human"
    }
  }

  datatype HitlRecord = HitlRecord(
    eventId: string, approvalId: string, phase: Phase, decision: Option<Decision>, lineage: Lineage, revision: int,
    previousRevision: Option<int>, matrixEventRef: string, matrixEventHash: string, verificationRef: Option<string>,
    verificationHash: Option<string>, sender: string, identityRef: string, actorKind: ActorKind, policyRef: string,
    reasonRef: Option<string>, occurredAt: string, provenance: string, contentHash: string)
  {
    function AsDict(): seq<Member> {
      [Member("event_id", Str(eventId)), Member("approval_id", Str(approvalId)), Member("phase", Str(phase.Name())),
       Member("decision", OptDecision(decision)), Member("run_id", Str(lineage.runId)),
       Member("campaign_id", Str(lineage.campaignId)), Member("trace_id", Str(lineage.traceId)),
       Member("revision", Int(revision)), Member("previous_revision", OptInt(previousRevision)),
       Member("matrix_event_ref", Str(matrixEventRef)), Member("matrix_event_hash", Str(matrixEventHash)),
       Member("verification_ref", OptStr(verificationRef)), Member("verification_hash", OptStr(verificationHash)),
       Member("sender", Str(sender)), Member("identity_ref", Str(identityRef)), Member("actor_kind", Str(actorKind.Name())),
       Member("policy_ref", Str(policyRef)), Member("reason_ref", OptStr(reasonRef)),
       Member("occurred_at", Str(occurredAt)), Member("provenance", Str(provenance)),
       Member(CONTENT_HASH, Str(contentHash))]
    }

    predicate Valid(c: Scheme) {
      && c.IsRef(eventId) && c.IsRef(approvalId) && lineage.Ok(c) && c.IsRef(matrixEventRef) && c.IsRef(sender)
      && c.IsRef(identityRef) && c.IsRef(policyRef) && c.IsRef(occurredAt) && c.IsRef(provenance)
      && revision >= 1 && (previousRevision.Some? ==> previousRevision.value >= 1)
      && c.isHash(matrixEventHash)
      && (verificationRef.None? <==> verificationHash.None?)
      && (verificationRef.Some? ==> c.IsRef(verificationRef.value) && c.isHash(verificationHash.value))
      && (phase.NeedsHuman() ==>
            actorKind.ExternalHuman? && verificationRef.Some? && IsExternal(c, sender) && IsExternal(c, identityRef))
      && DecisionFits(phase, decision)
      && (reasonRef.Some? ==> c.IsRef(reasonRef.value))
      && c.Sealed(AsDict(), CONTENT_HASH)
    }

    /** The thirteen comparisons between a record and what the external readback returned. */
    predicate MatchedBy(a: Attestation) {
      && verificationRef == Some(a.verificationRef) && verificationHash == Some(a.recordHash)
      && matrixEventRef == a.eventRef && matrixEventHash == a.eventHash && sender == a.sender && identityRef == a.identityRef
      && approvalId == a.approvalId && phase == a.phase && decision == a.decision && lineage == a.lineage
      && revision == a.revision
    }
  }

  /******* Capsules, hits and Oracle results *******/

  datatype Reference = Reference(ref: string, contentHash: string) {
    function AsJson(): Json {
      Obj([Member("ref", Str(ref)), Member("content_hash", Str(contentHash))])
    }
  }

  function TextArray(ts: seq<string>): Json {
    Arr(seq(|ts|, i requires 0 <= i < |ts| => Str(ts[i])))
  }

  function ReferenceArray(rs: seq<Reference>): Json {
    Arr(seq(|rs|, i requires 0 <= i < |rs| => rs[i].AsJson()))
  }

  datatype CapsuleKind = FailureCapsule | ProcessCapsule {
    function Name(): string {
      if FailureCapsule? then "failure" else "process"
    }
  }

  const CAPSULE_STATES: set<string> := {"OPEN", "RESOLVED", "RECURRED", "NOT_OBSERVED"}

  datatype Capsule = Capsule(
    capsuleId: string, kind: CapsuleKind, state: string, fingerprint: string, faultOwner: string, domains: seq<string>,
    observationRef: string, evidence: seq<Reference>, baselineStrategy: string, observedStrategy: string,
    rootCause: Option<string>, repair: Option<string>, regressions: seq<string>, artifactRef: string, artifactHash: string,
    lineage: Lineage, revision: int, provenance: string, contentHash: string)
  {
    function AsDict(): seq<Member> {
      [Member("capsule_id", Str(capsuleId)), Member("capsule_type", Str(kind.Name())), Member("state", Str(state)),
       Member("fingerprint", Str(fingerprint)), Member("fault_owner", Str(faultOwner)),
       Member("target_fault_domains", TextArray(domains)), Member("observation_ref", Str(observationRef)),
       Member("evidence_refs", ReferenceArray(evidence)), Member("baseline_strategy", Str(baselineStrategy)),
       Member("observed_strategy", Str(observedStrategy)), Member("root_cause_ref", OptStr(rootCause)),
       Member("repair_ref", OptStr(repair)), Member("regression_refs", TextArray(regressions)),
       Member("artifact_ref", Str(artifactRef)), Member("artifact_hash", Str(artifactHash)),
       Member("run_id", Str(lineage.runId)), Member("campaign_id", Str(lineage.campaignId)),
       Member("trace_id", Str(lineage.traceId)), Member("revision", Int(revision)), Member("provenance", Str(provenance)),
       Member(CONTENT_HASH, Str(contentHash))]
    }

    predicate Valid(c: Scheme) {
      && c.IsRef(capsuleId) && c.IsRef(fingerprint) && c.IsRef(faultOwner) && c.IsRef(observationRef)
      && c.IsRef(baselineStrategy) && c.IsRef(observedStrategy) && lineage.Ok(c) && c.IsRef(provenance)
      && state in CAPSULE_STATES && revision >= 1 && domains != [] && (forall d | d in domains :: c.IsRef(d))
      && evidence != [] && (forall r | r in evidence :: c.IsRef(r.ref) && c.isHash(r.contentHash))
      && (rootCause.Some? ==> c.IsRef(rootCause.value)) && (repair.Some? ==> c.IsRef(repair.value))
      && (forall r | r in regressions :: c.IsRef(r)) && c.IsRef(artifactRef) && c.isHash(artifactHash)
      && c.Sealed(AsDict(), CONTENT_HASH)
    }
  }

  datatype Hit = Hit(
    hitId: string, capsuleId: string, capsuleRevision: int, capsuleContentHash: string, matchedFingerprint: string,
    recurrence: bool, evidenceRef: string, lineage: Lineage, occurredAt: string, provenance: string, contentHash: string)
  {
    function AsDict(): seq<Member> {
      [Member("hit_id", Str(hitId)), Member("capsule_id", Str(capsuleId)), Member("capsule_revision", Int(capsuleRevision)),
       Member("capsule_content_hash", Str(capsuleContentHash)), Member("matched_fingerprint", Str(matchedFingerprint)),
       Member("recurrence", Bool(recurrence)), Member("evidence_ref", Str(evidenceRef)),
       Member("run_id", Str(lineage.runId)), Member("campaign_id", Str(lineage.campaignId)),
       Member("trace_id", Str(lineage.traceId)), Member("occurred_at", Str(occurredAt)), Member("provenance", Str(provenance)),
       Member(CONTENT_HASH, Str(contentHash))]
    }

    predicate Valid(c: Scheme) {
      && c.IsRef(hitId) && c.IsRef(capsuleId) && c.IsRef(matchedFingerprint) && c.IsRef(evidenceRef) && lineage.Ok(c)
      && c.IsRef(occurredAt) && c.IsRef(provenance) && capsuleRevision >= 1 && c.isHash(capsuleContentHash)
      && c.Sealed(AsDict(), CONTENT_HASH)
    }
  }

  const ORACLE_STATUSES: set<string> := {"PASS", "FAIL", "UNCERTAIN", "NOT_OBSERVED", "NOT_AVAILABLE"}

  datatype OracleKind = OutcomeOracle | BoundaryOracle {
    function Name(): string {
      if OutcomeOracle? then "outcome" else "boundary"
    }
  }

  datatype Oracle = Oracle(
    resultId: string, kind: OracleKind, lineage: Lineage, identityRef: string, processRef: string, resultRef: string,
    resultHash: string, rootRef: string, rootHash: string, evidence: seq<Reference>, goldRef: Option<string>,
    sourceRef: string, status: string, provenance: string, readResultRefs: seq<string>, contentHash: string)
  {
    function AsDict(): seq<Member> {
      [Member("result_id", Str(resultId)), Member("oracle_kind", Str(kind.Name())), Member("run_id", Str(lineage.runId)),
       Member("campaign_id", Str(lineage.campaignId)), Member("trace_id", Str(lineage.traceId)),
       Member("identity_ref", Str(identityRef)), Member("process_ref", Str(processRef)), Member("result_ref", Str(resultRef)),
       Member("result_hash", Str(resultHash)), Member("evidence_root_ref", Str(rootRef)),
       Member("evidence_root_hash", Str(rootHash)),
       Member("evidence_refs", ReferenceArray(evidence)), Member("gold_ref", OptStr(goldRef)),
       Member("source_ref", Str(sourceRef)), Member("status", Str(status)), Member("provenance", Str(provenance)),
       Member("read_result_refs", TextArray(readResultRefs)), Member(CONTENT_HASH, Str(contentHash))]
    }

    predicate Valid(c: Scheme) {
      && c.IsRef(resultId) && lineage.Ok(c) && c.IsRef(identityRef) && c.IsRef(processRef) && c.IsRef(resultRef)
      && c.isHash(resultHash) && c.IsRef(rootRef) && c.isHash(rootHash)
      && evidence != [] && (forall r | r in evidence :: c.IsRef(r.ref) && c.isHash(r.contentHash))
      && (goldRef.Some? ==> c.IsRef(goldRef.value)) && (kind.BoundaryOracle? ==> goldRef.None?)
      && c.IsRef(sourceRef) && c.IsRef(provenance) && status in ORACLE_STATUSES && readResultRefs == []
      && c.Sealed(AsDict(), CONTENT_HASH)
    }
  }

  /******* The seal fixes the record *******/

  predicate SameKeys(ms: seq<Member>, ns: seq<Member>) {
    |ms| == |ns| && forall i | 0 <= i < |ms| :: ms[i].key == ns[i].key
  }

  lemma SameMeaningFieldwise(ms: seq<Member>, ns: seq<Member>)
    requires DistinctKeys(ms) && DistinctKeys(ns) && SameKeys(ms, ns)
    requires Denote(Obj(ms)) == Denote(Obj(ns))
    ensures forall i | 0 <= i < |ms| :: Denote(ms[i].value) == Denote(ns[i].value)
  {
    SameGraphSameMeaning(ms, ns);
    hide Denote, Graph, DenoteMembers;
    forall i | 0 <= i < |ms| ensures Denote(ms[i].value) == Denote(ns[i].value) {
      InGraph(ms, i);
      var j := GraphIndex(ns, (ms[i].key, Denote(ms[i].value)));
    }
  }

  /** Length and first character: enough to tell the keys of an event apart. */
  function Tag(k: string): int {
    if k == "" then 0 else |k| * 1000 + k[0] as int
  }

  const EVENT_TAGS: seq<int> := [
    8101, 12097, 14097, 8114, 10101, 5097, 15105, 11111, 7112, 12114, 6114, 11099, 8116, 10112, 12099
  ]

  lemma EventTags(e: Event)
    ensures |e.AsDict()| == 15
    ensures forall i | 0 <= i < 15 :: Tag(e.AsDict()[i].key) == EVENT_TAGS[i]
  {
    assert "event_id"[0] == 'e' && "aggregate_id"[0] == 'a' && "aggregate_type"[0] == 'a' && "revision"[0] == 'r';
  }

  lemma EventKeys(e: Event, f: Event)
    ensures DistinctKeys(e.AsDict()) && SameKeys(e.AsDict(), f.AsDict())
    ensures WellFormed(e.payload) ==> WellFormed(Obj(e.AsDict()))
    ensures Lookup(e.AsDict(), CONTENT_HASH) == Some(Str(e.header.contentHash))
    ensures Remove(e.AsDict(), CONTENT_HASH) == e.Payload()
  {
    EventTags(e);
    assert SameKeys(e.AsDict(), f.AsDict());
    EventIsWellFormed(e);
    EventSealIsLast(e);
    hide Event.AsDict, Event.Payload, Tag, Lookup, Remove, WellFormed;
  }

  lemma EventIsWellFormed(e: Event)
    requires forall i | 0 <= i < |e.AsDict()| :: |EVENT_TAGS| > i && Tag(e.AsDict()[i].key) == EVENT_TAGS[i]
    ensures DistinctKeys(e.AsDict())
    ensures WellFormed(e.payload) ==> WellFormed(Obj(e.AsDict()))
  {
    hide Tag;
    assert DistinctKeys(e.AsDict()) by { hide Event.AsDict, Event.Payload; }
    assert forall i | 0 <= i < |e.AsDict()| :: i == 8 || (!e.AsDict()[i].value.Obj? && !e.AsDict()[i].value.Arr?);
  }

  lemma EventSealIsLast(e: Event)
    requires DistinctKeys(e.AsDict())
    ensures Lookup(e.AsDict(), CONTENT_HASH) == Some(Str(e.header.contentHash))
    ensures Remove(e.AsDict(), CONTENT_HASH) == e.Payload()
  {
    hide Event.Payload;
    var p, d := e.Payload(), e.AsDict();
    assert d[|p|] == Member(CONTENT_HASH, Str(e.header.contentHash)) && forall i | 0 <= i < |p| :: d[i] == p[i];
    RemoveIsLocal(e.Payload(), CONTENT_HASH, Str(e.header.contentHash));
  }

  lemma EqualDictEqualEvent(e: Event, f: Event)
    requires forall i | 0 <= i < |e.AsDict()| :: Denote(e.AsDict()[i].value) == Denote(f.AsDict()[i].value)
    ensures e.header == f.header && Denote(e.payload) == Denote(f.payload)
  {
    var d, g := e.AsDict(), f.AsDict();
    assert Denote(d[0].value) == Denote(g[0].value) && Denote(d[1].value) == Denote(g[1].value);
    assert Denote(d[2].value) == Denote(g[2].value) && Denote(d[3].value) == Denote(g[3].value);
    assert Denote(d[4].value) == Denote(g[4].value) && Denote(d[5].value) == Denote(g[5].value);
    assert Denote(d[6].value) == Denote(g[6].value) && Denote(d[7].value) == Denote(g[7].value);
    assert Denote(d[8].value) == Denote(g[8].value) && Denote(d[9].value) == Denote(g[9].value);
    assert Denote(d[10].value) == Denote(g[10].value) && Denote(d[11].value) == Denote(g[11].value);
    assert Denote(d[12].value) == Denote(g[12].value) && Denote(d[13].value) == Denote(g[13].value);
    assert Denote(d[14].value) == Denote(g[14].value);
  }

  /** Two valid events with one content hash are one event, up to the order of payload keys. */
  lemma HashFixesEvent(c: Scheme, e: Event, f: Event)
    requires c.Ideal() && e.Valid(c) && f.Valid(c)
    requires e.header.contentHash == f.header.contentHash
    ensures e.header == f.header && Denote(e.payload) == Denote(f.payload)
  {
    EventKeys(e, f);
    EventKeys(f, e);
    SealBindsMeaning(c, e.AsDict(), f.AsDict(), CONTENT_HASH);
    SameMeaningFieldwise(e.AsDict(), f.AsDict());
    EqualDictEqualEvent(e, f);
  }

  /** Sorting the payload's keys leaves a valid event valid: the seal does not depend on their order. */
  lemma CanonicalPayloadIsValid(c: Scheme, e: Event)
    requires c.Ideal() && e.Valid(c)
    ensures Event(e.header, Canon(e.payload)).Valid(c)
  {
    var f := Event(e.header, Canon(e.payload));
    CanonKeepsMeaning(e.payload);
    SafeDependsOnCanon(c, e.payload, 0);
    EventKeys(e, f);
    EventKeys(f, e);
    OnlyPayloadDiffers(e, f);
    FieldwiseSameMeaning(e.AsDict(), f.AsDict());
    SealBindsMeaning(c, e.AsDict(), f.AsDict(), CONTENT_HASH);
    hide Event.AsDict, Scheme.Sealed, WellFormed, Denote, Lookup, Remove, Scheme.Safe, Scheme.IsReference;
  }

  lemma OnlyPayloadDiffers(e: Event, f: Event)
    requires e.header == f.header && Denote(e.payload) == Denote(f.payload)
    ensures |e.AsDict()| == |f.AsDict()|
    ensures forall i | 0 <= i < |e.AsDict()| :: Denote(e.AsDict()[i].value) == Denote(f.AsDict()[i].value)
  {
    hide Denote;
    assert forall i | 0 <= i < |e.AsDict()| :: i == 8 || e.AsDict()[i] == f.AsDict()[i];
  }

  lemma FieldwiseSameMeaning(ms: seq<Member>, ns: seq<Member>)
    requires DistinctKeys(ms) && DistinctKeys(ns) && SameKeys(ms, ns)
    requires forall i | 0 <= i < |ms| :: Denote(ms[i].value) == Denote(ns[i].value)
    ensures Denote(Obj(ms)) == Denote(Obj(ns))
  {
    SameGraphSameMeaning(ms, ns);
    hide Denote, Graph, DenoteMembers;
    forall p ensures p in Graph(ms) <==> p in Graph(ns) {
      if p in Graph(ms) { var i := GraphIndex(ms, p); InGraph(ns, i); }
      if p in Graph(ns) { var i := GraphIndex(ns, p); InGraph(ms, i); }
    }
    DenoteObjects(ms, ns);
  }

  lemma DenoteObjects(ms: seq<Member>, ns: seq<Member>)
    ensures DenoteMembers(ms) == DenoteMembers(ns) <==> Denote(Obj(ms)) == Denote(Obj(ns))
  {
  }

  /** What the constructor seals passes the seal check, for every content that may be stored at all. */
  lemma CreatedEventIsSealed(c: Scheme, header: EventHeader, payload: Json)
    requires c.Ideal()
    ensures
      var p := Event(header, payload).Payload();
      var e := Event(header.(contentHash := c.Hash(Obj(p))), payload);
      c.Sealed(e.AsDict(), CONTENT_HASH) <==> c.Safe(Obj(p), 0)
  {
    var p := Event(header, payload).Payload();
    var e := Event(header.(contentHash := c.Hash(Obj(p))), payload);
    EventKeys(e, e);
    assert e.Payload() == p;
    hide Event.AsDict, Event.Payload, Lookup, Remove, Scheme.Safe, Scheme.Hash;
  }
}
