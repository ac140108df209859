/** From the raw bytes of a native event, and what vouches for them, to an event of the log. */
module NativeEvents {
  import opened Bytes
  import opened Json
  import opened Canonical
  import opened Sealing
  import opened Records
  import opened Tables
  import EventLog
  import Projector

  const UNATTESTED: string := "UNATTESTED_PARTIAL"
  const ATTESTED: string := "LIVE_SOURCE_ATTESTED"

  /** What the JSON of a raw record holds once its shape and its facts have been checked. */
  datatype Fields = Fields(
    eventType: string, eventId: string, aggregateId: string, revision: int, actor: string, occurredAt: string,
    lineage: Lineage, sourceRef: string, facts: seq<Member>)

  datatype Collected = Collected(
    attestationRef: string, collectorRef: string, identityRef: string, sourceRef: string, sourceHash: string,
    getRef: string, getHash: string, observedAt: string, recordHash: string, raw: Bytes)
  {
    function Values(): seq<Member> {
      [Member("attestation_ref", Str(attestationRef)), Member("collector_ref", Str(collectorRef)),
       Member("collector_identity_ref", Str(identityRef)), Member("source_ref", Str(sourceRef)),
       Member("source_hash", Str(sourceHash)), Member("exact_get_ref", Str(getRef)),
       Member("exact_get_hash", Str(getHash)), Member("observed_at", Str(observedAt))]
    }

    predicate Valid(c: Scheme, h: Hasher) {
      && c.IsRef(attestationRef) && c.IsRef(collectorRef) && c.IsRef(identityRef) && c.IsRef(sourceRef) && c.IsRef(getRef)
      && c.IsRef(observedAt) && c.isHash(sourceHash) && c.isHash(getHash) && c.isHash(recordHash)
      && sourceHash == getHash && h.digest(raw) == getHash && recordHash == c.Hash(Obj(Values()))
    }
  }

  /** A projector's configuration: how it reads records, and what it may ask to vouch for them. */
  datatype Reader = Reader(
    h: Hasher, read: Bytes -> Option<Fields>, fetch: Option<string -> Option<Collected>>, identities: map<string, string>,
    oracles: Option<string -> Option<Oracle>>)

  /** What a projected payload says about where it comes from. */
  datatype Trust = Trust(classification: string, ref: Option<string>, hash: Option<string>, oracle: bool)

  /** None means the code raises. */
  function SourceTrust(c: Scheme, rd: Reader, raw: Bytes, sourceRef: string, supplied: Option<Collected>): Option<Trust> {
    match supplied
    case None => Some(Trust(UNATTESTED, None, None, false))
    case Some(a) =>
      if !a.Valid(c, rd.h) || rd.fetch.None? then None
      else if a.collectorRef !in rd.identities || rd.identities[a.collectorRef] != a.identityRef then None
      else if a.sourceRef != sourceRef then None
      else match rd.fetch.value(a.getRef)
        case None => None
        case Some(b) =>
          if b.Valid(c, rd.h) && b.recordHash == a.recordHash && b.raw == raw && rd.h.digest(b.raw) == a.getHash
          then Some(Trust(ATTESTED, Some(a.attestationRef), Some(a.recordHash), false))
          else None
  }

  predicate Says(f: Fields, key: string, value: string) {
    Sealing.Lookup(f.facts, key) == Some(Str(value))
  }

  function OracleVerified(c: Scheme, rd: Reader, f: Fields): Option<bool> {
    if f.eventType != "oracle_ref" || rd.oracles.None? then Some(false)
    else match Sealing.Lookup(f.facts, "oracle_attestation_ref")
      case Some(Str(ref)) =>
        (match rd.oracles.value(ref)
         case None => None
         case Some(o) =>
           if o.Valid(c) && f.lineage == o.lineage
              && Says(f, "oracle_kind", if o.kind.OutcomeOracle? then "OUTCOME" else "BOUNDARY")
              && Says(f, "oracle_identity", o.identityRef) && Says(f, "oracle_process_ref", o.processRef)
              && Says(f, "result_ref", o.resultRef) && Says(f, "result_hash", o.resultHash)
              && Says(f, "evidence_root_ref", o.rootRef) && Says(f, "evidence_root_hash", o.rootHash)
              && Says(f, "oracle_attestation_ref", o.resultId) && Says(f, "oracle_attestation_hash", o.contentHash)
           then Some(true) else None)
      case _ => None
  }

  /** An Oracle reference that is not read back counts as unattested, whoever collected it. */
  function TrustOf(c: Scheme, rd: Reader, raw: Bytes, f: Fields, supplied: Option<Collected>): Option<Trust> {
    match (SourceTrust(c, rd, raw, f.sourceRef, supplied), OracleVerified(c, rd, f))
    case (Some(t), Some(verified)) =>
      Some(t.(oracle := verified, classification := if f.eventType == "oracle_ref" && !verified then UNATTESTED else t.classification))
    case _ => None
  }

  function Marks(t: Trust, sourceRef: string, sourceHash: string): seq<Member> {
    [Member("native_source_ref", Str(sourceRef)), Member("native_source_hash", Str(sourceHash)),
     Member("projection_classification", Str(t.classification)), Member("collector_attestation_ref", OptStr(t.ref)),
     Member("collector_attestation_hash", OptStr(t.hash)), Member("oracle_readback_verified", Bool(t.oracle))]
  }

  function PayloadOf(f: Fields, sourceHash: string, t: Trust): Json {
    Obj(Marks(t, f.sourceRef, sourceHash) + f.facts)
  }

  function HeaderOf(f: Fields, sourceHash: string): EventHeader {
    EventHeader(
      f.eventId, f.aggregateId, "native-agentteams-run", f.revision, f.eventType, f.actor, "native-projection:" + sourceHash,
      f.occurredAt, sourceHash, f.lineage, f.sourceRef, "")
  }

  function Materialize(c: Scheme, rd: Reader, raw: Bytes, supplied: Option<Collected>): Option<Event> {
    if raw == [] then None
    else match rd.read(raw)
      case None => None
      case Some(f) =>
        match TrustOf(c, rd, raw, f, supplied)
        case None => None
        case Some(t) => CreateEvent(c, HeaderOf(f, rd.h.digest(raw)), PayloadOf(f, rd.h.digest(raw), t))
  }

  /******* The key comes from the bytes *******/

  lemma MaterializeParts(c: Scheme, rd: Reader, raw: Bytes, supplied: Option<Collected>)
    requires Materialize(c, rd, raw, supplied).Some?
    ensures rd.read(raw).Some? && TrustOf(c, rd, raw, rd.read(raw).value, supplied).Some?
    ensures
      var f, hash := rd.read(raw).value, rd.h.digest(raw);
      var t, e := TrustOf(c, rd, raw, f, supplied).value, Materialize(c, rd, raw, supplied).value;
      && e.Valid(c) && e.payload == PayloadOf(f, hash, t) && e.header == HeaderOf(f, hash).(contentHash := e.header.contentHash)
      && CreateEvent(c, HeaderOf(f, hash), e.payload) == Some(e)
  {
    hide TrustOf, PayloadOf, Event.Valid;
  }

  /** The idempotency key and the request hash of a projected event are functions of its raw bytes, and tell bytes apart. */
  lemma KeyIsOfTheBytes(c: Scheme, rd: Reader, raw: Bytes, supplied: Option<Collected>, other: Bytes, besides: Option<Collected>)
    requires rd.h.Ideal() && Materialize(c, rd, raw, supplied).Some? && Materialize(c, rd, other, besides).Some?
    ensures
      var e, f := Materialize(c, rd, raw, supplied).value.header, Materialize(c, rd, other, besides).value.header;
      && e.requestHash == rd.h.digest(raw)
      && (e.idempotencyKey == f.idempotencyKey <==> raw == other) && (e.requestHash == f.requestHash <==> raw == other)
  {
    MaterializeParts(c, rd, raw, supplied);
    MaterializeParts(c, rd, other, besides);
    hide Materialize, Event.Valid, TrustOf;
    SamePrefix("native-projection:", rd.h.digest(raw), rd.h.digest(other));
  }

  lemma SamePrefix(p: string, a: string, b: string)
    ensures p + a == p + b <==> a == b
  {
    assert (p + a)[|p|..] == a && (p + b)[|p|..] == b;
  }

  /******* Projecting the same bytes again *******/

  lemma TrustIsInThePayload(c: Scheme, f: Fields, hash: string, t: Trust, u: Trust)
    requires WellFormed(PayloadOf(f, hash, t)) && WellFormed(PayloadOf(f, hash, u))
    ensures Denote(PayloadOf(f, hash, t)) == Denote(PayloadOf(f, hash, u)) <==> t == u
  {
    var ms, ns := Marks(t, f.sourceRef, hash) + f.facts, Marks(u, f.sourceRef, hash) + f.facts;
    if Denote(Obj(ms)) == Denote(Obj(ns)) {
      assert SameKeys(ms, ns);
      SameMeaningFieldwise(ms, ns);
      assert Denote(ms[2].value) == Denote(ns[2].value) && Denote(ms[3].value) == Denote(ns[3].value);
      assert Denote(ms[4].value) == Denote(ns[4].value) && Denote(ms[5].value) == Denote(ns[5].value);
      OptStrIsInjective(t.ref, u.ref);
      OptStrIsInjective(t.hash, u.hash);
    }
  }

  lemma OptStrIsInjective(s: Option<string>, t: Option<string>)
    ensures Denote(OptStr(s)) == Denote(OptStr(t)) <==> s == t
  {
  }

  /** An event with the key of a stored one is accepted, as a repetition, exactly when it has its content hash. */
  lemma KeyTakenExactlyWhen(c: Scheme, db: Db, e: Event, f: Event)
    requires c.Ideal() && EventLog.LogInv(c, db) && f.Valid(c) && e.header in EventLog.Headers(db)
    requires f.header.idempotencyKey == e.header.idempotencyKey
    ensures EventLog.AppendEvent(c, db, f) ==
              if f.header.contentHash == e.header.contentHash then Ok((db, false)) else Err(AuthorityConflict)
  {
    hide *;
    if f.header.contentHash == e.header.contentHash {
      EventLog.StoredHashFixesHeader(c, db, e.header, f);
      EventLog.ReappendIsIdle(c, db, f);
    } else {
      EventLog.TakenKeyIsConflict(c, db, e, f);
    }
  }

  /**
   The same bytes projected again, perhaps by a projector configured otherwise, are a
   repetition exactly when they are vouched for in the same way: same classification, same
   attestation, same Oracle readback.  Otherwise they are a conflict.
   */
  lemma SameBytesAgain(
      c: Scheme, db: Db, rd: Reader, later: Reader, raw: Bytes, supplied: Option<Collected>, besides: Option<Collected>)
    requires c.Ideal() && EventLog.LogInv(c, db) && later.h == rd.h && later.read(raw) == rd.read(raw)
    requires Materialize(c, rd, raw, supplied).Some? && Materialize(c, later, raw, besides).Some?
    requires Materialize(c, rd, raw, supplied).value.header in EventLog.Headers(db)
    ensures rd.read(raw).Some?
    ensures
      var f := rd.read(raw).value;
      EventLog.AppendEvent(c, db, Materialize(c, later, raw, besides).value) ==
      if TrustOf(c, later, raw, f, besides) == TrustOf(c, rd, raw, f, supplied) then Ok((db, false)) else Err(AuthorityConflict)
  {
    MaterializeParts(c, rd, raw, supplied);
    MaterializeParts(c, later, raw, besides);
    var f, hash := rd.read(raw).value, rd.h.digest(raw);
    var t, u := TrustOf(c, rd, raw, f, supplied).value, TrustOf(c, later, raw, f, besides).value;
    var e, g := Materialize(c, rd, raw, supplied).value, Materialize(c, later, raw, besides).value;
    ValidPayload(c, e);
    ValidPayload(c, g);
    hide Materialize, TrustOf, PayloadOf, Event.Valid, EventLog.LogInv, EventLog.Headers, EventLog.AppendEvent;
    TrustIsInThePayload(c, f, hash, t, u);
    KeyTakenExactlyWhen(c, db, e, g);
    if g.header.contentHash == e.header.contentHash { HashFixesEvent(c, e, g); }
    hide Scheme.Ideal, Denote, HeaderOf;
  }

  /** In one run, the same bytes twice are projected exactly when both are vouched for in the same way. */
  lemma SameBytesInOneRun(
      c: Scheme, db: Db, rd: Reader, raw: Bytes, supplied: Option<Collected>, besides: Option<Collected>)
    requires c.Ideal() && EventLog.LogInv(c, db)
    requires Materialize(c, rd, raw, supplied).Some? && Materialize(c, rd, raw, besides).Some?
    requires EventLog.AppendEvent(c, db, Materialize(c, rd, raw, supplied).value).Ok?
    ensures rd.read(raw).Some?
    ensures
      var out := Projector.Projected(c, (r: (Bytes, Option<Collected>)) => Materialize(c, rd, r.0, r.1), db, [(raw, supplied), (raw, besides)]);
      var f := rd.read(raw).value;
      && out.db == EventLog.AppendEvent(c, db, Materialize(c, rd, raw, supplied).value).value.0
      && (out.result.Ok? <==> TrustOf(c, rd, raw, f, besides) == TrustOf(c, rd, raw, f, supplied))
  {
    hide Materialize, TrustOf, EventLog.AppendEvent, EventLog.LogInv, EventLog.Headers, Scheme.Ideal;
    var m := (r: (Bytes, Option<Collected>)) => Materialize(c, rd, r.0, r.1);
    var e := Materialize(c, rd, raw, supplied).value;
    var mid := EventLog.AppendEvent(c, db, e).value.0;
    EventLog.AppendKeepsLog(c, db, e);
    EventLog.SuccessMeansStored(c, db, e);
    SameBytesAgain(c, mid, rd, rd, raw, supplied, besides);
    assert [(raw, supplied), (raw, besides)][1..] == [(raw, besides)];
    Projector.SingleProjection(c, m, mid, (raw, besides));
  }

  lemma ValidPayload(c: Scheme, e: Event)
    requires e.Valid(c)
    ensures WellFormed(e.payload)
  {
    hide Scheme.Sealed, WellFormed;
  }

  /******* Attesting bytes that are already projected *******/

  /** Digests that pass the format test hold no control characters. */
  ghost predicate PlainHashes(c: Scheme) {
    forall s: string | c.isHash(s) :: PlainText(s)
  }

  predicate PlainText(s: string) {
    forall i | 0 <= i < |s| :: s[i] >= ' '
  }

  /** The same keys, and values at least as safe. */
  lemma SafeSwap(c: Scheme, ms: seq<Member>, ns: seq<Member>, depth: nat)
    requires SameKeys(ms, ns) && c.Safe(Obj(ms), depth)
    requires forall i | 0 <= i < |ms| :: c.Safe(ms[i].value, depth + 1) ==> c.Safe(ns[i].value, depth + 1)
    ensures c.Safe(Obj(ns), depth)
  {
  }

  lemma SafeMarks(c: Scheme, f: Fields, hash: string, t: Trust, u: Trust)
    requires PlainText(u.classification) && (u.ref.Some? ==> PlainText(u.ref.value)) && (u.hash.Some? ==> PlainText(u.hash.value))
    ensures forall depth: nat :: c.Safe(PayloadOf(f, hash, t), depth) ==> c.Safe(PayloadOf(f, hash, u), depth)
    ensures WellFormed(PayloadOf(f, hash, t)) ==> WellFormed(PayloadOf(f, hash, u))
  {
    var ms, ns := Marks(t, f.sourceRef, hash) + f.facts, Marks(u, f.sourceRef, hash) + f.facts;
    assert SameKeys(ms, ns);
    assert forall i | 0 <= i < |ms| :: !(2 <= i <= 5) ==> ms[i] == ns[i];
    forall depth: nat | c.Safe(Obj(ms), depth) ensures c.Safe(Obj(ns), depth) {
      assert depth + 1 <= MAX_DEPTH by { assert c.Safe(ms[0].value, depth + 1); }
      SafeText(c, u.classification, depth + 1);
      if u.ref.Some? { SafeText(c, u.ref.value, depth + 1); }
      if u.hash.Some? { SafeText(c, u.hash.value, depth + 1); }
      hide PlainText;
      SafeSwap(c, ms, ns, depth);
    }
  }

  lemma SafeText(c: Scheme, s: string, depth: nat)
    requires PlainText(s) && depth <= MAX_DEPTH
    ensures c.Safe(Str(s), depth) && c.Safe(Null, depth)
    ensures forall b :: c.Safe(Bool(b), depth)
  {
  }

  lemma ReferenceIsPlain(c: Scheme, s: string)
    ensures c.IsRef(s) ==> PlainText(s)
    ensures c.IsIdentifier(s) ==> c.IsRef(s)
  {
  }

  /** An event is created exactly when its header is right and its content may be stored. */
  lemma CreatedExactlyWhen(c: Scheme, h: EventHeader, p: Json)
    requires c.Ideal()
    ensures CreateEvent(c, h, p).Some? <==>
              h.Ok(c) && p.Obj? && WellFormed(p) && c.Safe(p, 0) && c.Safe(Obj(Event(h, p).Payload()), 0)
  {
    CreatedEventIsSealed(c, h, p);
    HashIsNoMatter(c, h, c.Hash(Obj(Event(h, p).Payload())));
    hide EventHeader.Ok, Scheme.Safe, Scheme.Sealed, Event.AsDict, Event.Payload, WellFormed, Scheme.Hash, Scheme.Ideal;
  }

  lemma HashIsNoMatter(c: Scheme, h: EventHeader, hash: string)
    ensures h.(contentHash := hash).Ok(c) == h.Ok(c)
  {
    hide Scheme.IsIdentifier;
  }

  lemma PayloadSwap(c: Scheme, h: EventHeader, p: Json, q: Json)
    requires c.Safe(p, 1) ==> c.Safe(q, 1)
    requires c.Safe(Obj(Event(h, p).Payload()), 0)
    ensures c.Safe(Obj(Event(h, q).Payload()), 0)
  {
    var ms, ns := Event(h, p).Payload(), Event(h, q).Payload();
    assert SameKeys(ms, ns) && |ms| == 14 && (forall i | 0 <= i < |ms| :: i != 8 ==> ms[i] == ns[i]) by { hide Scheme.Safe; }
    assert ms[8].value == p && ns[8].value == q by { hide Scheme.Safe; }
    hide Scheme.Safe, Event.Payload;
    SafeSwap(c, ms, ns, 0);
  }

  /** An event whose payload is replaced by one as safe, with the same header, is still created. */
  lemma CreatedWithOtherPayload(c: Scheme, h: EventHeader, p: Json, q: Json)
    requires c.Ideal() && CreateEvent(c, h, p).Some? && q.Obj? && WellFormed(q)
    requires forall depth: nat :: c.Safe(p, depth) ==> c.Safe(q, depth)
    ensures CreateEvent(c, h, q).Some?
  {
    CreatedExactlyWhen(c, h, p);
    CreatedExactlyWhen(c, h, q);
    hide *;
    PayloadSwap(c, h, p, q);
  }

  /** A receipt for these bytes, made out with the record's own source reference. */
  function Receipt(c: Scheme, rd: Reader, raw: Bytes, ref: string): Collected {
    var hash := rd.h.digest(raw);
    var a := Collected(ref, ref, ref, ref, hash, ref, hash, ref, "", raw);
    a.(recordHash := c.Hash(Obj(a.Values())))
  }

  /** The same projector with a collector that vouches for these bytes. */
  function WithCollector(c: Scheme, rd: Reader, raw: Bytes, ref: string): Reader {
    rd.(fetch := Some(_ => Some(Receipt(c, rd, raw, ref))), identities := map[ref := ref])
  }

  lemma ReceiptIsTrusted(c: Scheme, rd: Reader, raw: Bytes, ref: string)
    requires c.Ideal() && c.IsRef(ref) && c.isHash(rd.h.digest(raw))
    ensures
      var a := Receipt(c, rd, raw, ref);
      && c.isHash(a.recordHash)
      && SourceTrust(c, WithCollector(c, rd, raw, ref), raw, ref, Some(a)) == Some(Trust(ATTESTED, Some(ref), Some(a.recordHash), false))
  {
    var a := Receipt(c, rd, raw, ref);
    assert a.Valid(c, rd.h);
    hide Scheme.IsReference, CanonicalText;
  }

  /**
   For every record that is projected without an attestation there is one that could have
   vouched for it, accepted with it the record projects too, and projecting it after the
   unattested one is a conflict.
   */
  lemma AttestingLaterConflicts(c: Scheme, db: Db, rd: Reader, raw: Bytes) returns (later: Reader, a: Collected)
    requires c.Ideal() && PlainHashes(c) && EventLog.LogInv(c, db)
    requires Materialize(c, rd, raw, None).Some? && Materialize(c, rd, raw, None).value.header in EventLog.Headers(db)
    ensures Materialize(c, later, raw, None) == Materialize(c, rd, raw, None)
    ensures Materialize(c, later, raw, Some(a)).Some?
    ensures EventLog.AppendEvent(c, db, Materialize(c, later, raw, Some(a)).value) == Err(AuthorityConflict)
  {
    MaterializeParts(c, rd, raw, None);
    var f, hash := rd.read(raw).value, rd.h.digest(raw);
    ValidSource(c, Materialize(c, rd, raw, None).value);
    ReferenceIsPlain(c, f.sourceRef);
    later, a := WithCollector(c, rd, raw, f.sourceRef), Receipt(c, rd, raw, f.sourceRef);
    ReceiptIsTrusted(c, rd, raw, f.sourceRef);
    TrustsDiffer(c, rd, later, raw, f, a);
    var t, u := TrustOf(c, rd, raw, f, None).value, TrustOf(c, later, raw, f, Some(a)).value;
    PlainMarks(c, u);
    SafeMarks(c, f, hash, t, u);
    ValidPayload(c, Materialize(c, rd, raw, None).value);
    hide TrustOf, Event.Valid, EventLog.LogInv, EventLog.Headers, CreateEvent, WellFormed, Scheme.Safe, Scheme.Ideal, PlainHashes;
    CreatedWithOtherPayload(c, HeaderOf(f, hash), PayloadOf(f, hash, t), PayloadOf(f, hash, u));
    hide PayloadOf, HeaderOf;
    SameBytesAgain(c, db, rd, later, raw, None, Some(a));
  }

  lemma ValidSource(c: Scheme, e: Event)
    requires e.Valid(c)
    ensures c.IsIdentifier(e.header.provenance) && c.isHash(e.header.requestHash)
  {
    hide Scheme.Sealed, WellFormed, Scheme.IsIdentifier, Scheme.Safe;
  }

  lemma PlainMarks(c: Scheme, t: Trust)
    requires t.classification in {ATTESTED, UNATTESTED} && PlainHashes(c)
    requires (t.ref.Some? ==> c.IsRef(t.ref.value)) && (t.hash.Some? ==> c.isHash(t.hash.value))
    ensures PlainText(t.classification) && (t.ref.Some? ==> PlainText(t.ref.value)) && (t.hash.Some? ==> PlainText(t.hash.value))
  {
    if t.ref.Some? { ReferenceIsPlain(c, t.ref.value); }
    hide Scheme.IsReference;
  }

  lemma TrustsDiffer(c: Scheme, rd: Reader, later: Reader, raw: Bytes, f: Fields, a: Collected)
    requires later.oracles == rd.oracles && later.h == rd.h && TrustOf(c, rd, raw, f, None).Some?
    requires SourceTrust(c, later, raw, f.sourceRef, Some(a)) == Some(Trust(ATTESTED, Some(f.sourceRef), Some(a.recordHash), false))
    ensures TrustOf(c, later, raw, f, None) == TrustOf(c, rd, raw, f, None)
    ensures TrustOf(c, later, raw, f, Some(a)).Some?
    ensures
      var t, u := TrustOf(c, rd, raw, f, None).value, TrustOf(c, later, raw, f, Some(a)).value;
      t != u && u.classification in {ATTESTED, UNATTESTED} && u.ref == Some(f.sourceRef) && u.hash == Some(a.recordHash)
  {
    assert OracleVerified(c, later, f) == OracleVerified(c, rd, f);
    assert SourceTrust(c, later, raw, f.sourceRef, None) == SourceTrust(c, rd, raw, f.sourceRef, None);
    hide OracleVerified;
    assert SourceTrust(c, rd, raw, f.sourceRef, None).value.ref == None;
    hide SourceTrust;
  }
}
