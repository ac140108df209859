/**
 Human decisions: an approval is a chain of records, each naming the revision before it.  The
 guards look only at the last record and at the phases there are; that this is enough for the
 whole history to be lawful, and that no decision or resume is recorded without an external
 readback of it, is what is proved here.
 */
module Hitl {
  import opened Json
  import opened Canonical
  import opened Sealing
  import opened Records
  import opened Tables
  import opened Store

  function HitlRows(db: Db): seq<HitlRecord> {
    if db == [] then []
    else HitlRows(db[..|db| - 1]) + (if db[|db| - 1].HitlRow? then [db[|db| - 1].hitl] else [])
  }

  /** The records of one approval in insertion order. */
  function Chain(rs: seq<HitlRecord>, approvalId: string): seq<HitlRecord> {
    if rs == [] then []
    else Chain(rs[..|rs| - 1], approvalId) + (if rs[|rs| - 1].approvalId == approvalId then [rs[|rs| - 1]] else [])
  }

  function ByEvent(rs: seq<HitlRecord>, eventId: string): (r: Option<HitlRecord>)
    ensures r.Some? ==> r.value in rs && r.value.eventId == eventId
    ensures r.None? ==> forall x | x in rs :: x.eventId != eventId
  {
    if rs == [] then None else if rs[0].eventId == eventId then Some(rs[0]) else ByEvent(rs[1..], eventId)
  }

  function Place(r: HitlRecord, rs: seq<HitlRecord>): seq<HitlRecord> {
    if rs == [] || rs[|rs| - 1].revision <= r.revision then rs + [r]
    else Place(r, rs[..|rs| - 1]) + [rs[|rs| - 1]]
  }

  /** ORDER BY revision. */
  function ByRevision(rs: seq<HitlRecord>): seq<HitlRecord> {
    if rs == [] then [] else Place(rs[|rs| - 1], ByRevision(rs[..|rs| - 1]))
  }

  function History(db: Db, approvalId: string): seq<HitlRecord> {
    ByRevision(Chain(HitlRows(db), approvalId))
  }

  /** What may follow a non-empty history. */
  predicate Follows(history: seq<HitlRecord>, r: HitlRecord)
    requires history != []
  {
    var last := history[|history| - 1];
    && r.lineage == last.lineage
    && r.previousRevision == Some(last.revision) && r.revision > last.revision
    && (r.phase.Approve? || r.phase.Deny? ==> last.phase.Pause?)
    && (r.phase.Resume? ==> last.phase.Approve?)
  }

  predicate Starts(r: HitlRecord) {
    r.revision == 1 && r.previousRevision.None? && r.actorKind.NativePolicy?
  }

  /** `readback` is what the external verifier returned, or None if there is none or it failed. */
  function Appended(c: Scheme, db: Db, r: HitlRecord, readback: Option<Attestation>): Result<(Db, bool)> {
    if !r.Valid(c) then Err(AuthorityError)
    else match ByEvent(HitlRows(db), r.eventId)
      case Some(x) => if x.contentHash == r.contentHash then Ok((db, false)) else Err(AuthorityConflict)
      case None =>
        var history := History(db, r.approvalId);
        if r.phase.Pause? && (history != [] || !Starts(r)) then Err(AuthorityError)
        else if !r.phase.Pause? && (history == [] || !Follows(history, r)) then Err(AuthorityError)
        else if r.phase.NeedsHuman() && !(readback.Some? && readback.value.Valid(c) && r.MatchedBy(readback.value)) then
          Err(AuthorityError)
        else InsertOnce(db, HitlRow(r))
  }

  /******* The language of approval chains *******/

  predicate AllStops(ps: seq<Phase>) {
    forall i | 0 <= i < |ps| :: ps[i].Stop?
  }

  /** PAUSE STOP*, PAUSE DENY STOP*, PAUSE APPROVE STOP* or PAUSE APPROVE RESUME STOP*. */
  predicate Lawful(ps: seq<Phase>) {
    || ps == []
    || (ps[0].Pause? && AllStops(ps[1..]))
    || (|ps| >= 2 && ps[0].Pause? && (ps[1].Deny? || ps[1].Approve?) && AllStops(ps[2..]))
    || (|ps| >= 3 && ps[0].Pause? && ps[1].Approve? && ps[2].Resume? && AllStops(ps[3..]))
  }

  function Phases(rs: seq<HitlRecord>): (ps: seq<Phase>)
    ensures |ps| == |rs| && forall i | 0 <= i < |rs| :: ps[i] == rs[i].phase
  {
    seq(|rs|, i requires 0 <= i < |rs| => rs[i].phase)
  }

  /** Each record names its predecessor's revision, revisions grow, and the run never changes. */
  predicate Linked(rs: seq<HitlRecord>) {
    && (rs != [] ==> Starts(rs[0]))
    && (forall i | 0 < i < |rs| ::
          rs[i].previousRevision == Some(rs[i - 1].revision) && rs[i - 1].revision < rs[i].revision && rs[i].lineage == rs[i - 1].lineage)
  }

  ghost predicate Attested(c: Scheme, r: HitlRecord) {
    r.phase.NeedsHuman() ==>
      r.actorKind.ExternalHuman? && exists a: Attestation :: a.Valid(c) && r.MatchedBy(a)
  }

  ghost predicate HitlInv(c: Scheme, db: Db) {
    && Unique(db)
    && (forall a: string :: Linked(Chain(HitlRows(db), a)) && Lawful(Phases(Chain(HitlRows(db), a))))
    && (forall r | r in HitlRows(db) :: r.Valid(c) && Attested(c, r))
  }

  lemma LawfulStep(ps: seq<Phase>, p: Phase)
    requires Lawful(ps)
    requires if ps == [] then p.Pause? else
               !p.Pause? && (p.Approve? || p.Deny? ==> ps[|ps| - 1].Pause?) && (p.Resume? ==> ps[|ps| - 1].Approve?)
    ensures Lawful(ps + [p])
  {
    var qs := ps + [p];
    if ps != [] {
      assert qs[1..] == ps[1..] + [p];
      if |ps| >= 2 { assert qs[2..] == ps[2..] + [p]; }
      if |ps| >= 3 { assert qs[3..] == ps[3..] + [p]; }
    }
  }

  lemma LinkedPrefix(rs: seq<HitlRecord>)
    requires rs != [] && Linked(rs)
    ensures Linked(rs[..|rs| - 1]) && (|rs| > 1 ==> rs[|rs| - 2].revision < rs[|rs| - 1].revision)
  {
    var qs := rs[..|rs| - 1];
    assert forall i | 0 <= i < |qs| :: qs[i] == rs[i];
    hide Starts;
  }

  lemma {:induction false} LinkedIsOrdered(rs: seq<HitlRecord>)
    requires Linked(rs)
    ensures ByRevision(rs) == rs
  {
    if rs != [] {
      LinkedPrefix(rs);
      hide Linked;
      LinkedIsOrdered(rs[..|rs| - 1]);
      assert rs == rs[..|rs| - 1] + [rs[|rs| - 1]];
    }
  }

  /** Reading a chain ordered by revision is reading it in the order it was written. */
  lemma RevisionOrderIsInsertionOrder(c: Scheme, db: Db, approvalId: string)
    requires HitlInv(c, db)
    ensures History(db, approvalId) == Chain(HitlRows(db), approvalId)
  {
    LinkedIsOrdered(Chain(HitlRows(db), approvalId));
  }

  lemma LinkedStep(rs: seq<HitlRecord>, r: HitlRecord)
    requires Linked(rs) && if rs == [] then Starts(r) else Follows(rs, r)
    ensures Linked(rs + [r])
  {
  }

  lemma HitlRowsOfAppend(db: Db, x: Row)
    ensures HitlRows(db + [x]) == HitlRows(db) + if x.HitlRow? then [x.hitl] else []
  {
    assert (db + [x])[..|db|] == db;
  }

  lemma ChainOfAppend(rs: seq<HitlRecord>, r: HitlRecord, a: string)
    ensures Chain(rs + [r], a) == Chain(rs, a) + if r.approvalId == a then [r] else []
  {
    assert (rs + [r])[..|rs|] == rs;
  }

  lemma Guards(c: Scheme, db: Db, r: HitlRecord, readback: Option<Attestation>)
    requires Appended(c, db, r, readback).Ok? && Appended(c, db, r, readback).value.1
    ensures InsertOnce(db, HitlRow(r)) == Appended(c, db, r, readback) && r.Valid(c)
    ensures r.phase.NeedsHuman() ==> readback.Some? && readback.value.Valid(c) && r.MatchedBy(readback.value)
    ensures
      var history := History(db, r.approvalId);
      if r.phase.Pause? then history == [] && Starts(r) else history != [] && Follows(history, r)
  {
    hide HitlRecord.Valid, Attestation.Valid, HitlRecord.MatchedBy, InsertOnce, Starts, Follows, History, HitlRows;
  }

  /** The guards of Appended, seen from the accepted case. */
  lemma AcceptedRecord(c: Scheme, db: Db, r: HitlRecord, readback: Option<Attestation>)
    requires HitlInv(c, db) && Appended(c, db, r, readback).Ok? && Appended(c, db, r, readback).value.1
    ensures InsertOnce(db, HitlRow(r)) == Appended(c, db, r, readback) && r.Valid(c)
    ensures r.phase.NeedsHuman() ==> readback.Some? && readback.value.Valid(c) && r.MatchedBy(readback.value)
    ensures
      var chain := Chain(HitlRows(db), r.approvalId);
      if r.phase.Pause? then chain == [] && Starts(r) else chain != [] && Follows(chain, r)
  {
    hide *;
    Guards(c, db, r, readback);
    RevisionOrderIsInsertionOrder(c, db, r.approvalId);
  }

  lemma RepetitionKeepsRows(c: Scheme, db: Db, r: HitlRecord, readback: Option<Attestation>)
    requires Appended(c, db, r, readback).Ok? && !Appended(c, db, r, readback).value.1
    ensures Appended(c, db, r, readback).value.0 == db
  {
    InsertOnceFacts(db, HitlRow(r));
    hide HitlRecord.Valid, Attestation.Valid, HitlRecord.MatchedBy, InsertOnce, History, Starts, Follows, Unique, Bound, Known;
  }

  lemma ChainsGrow(rs: seq<HitlRecord>, r: HitlRecord, a: string)
    requires Linked(Chain(rs, a)) && Lawful(Phases(Chain(rs, a)))
    requires
      var chain := Chain(rs, r.approvalId);
      if r.phase.Pause? then chain == [] && Starts(r) else chain != [] && Follows(chain, r)
    ensures Linked(Chain(rs + [r], a)) && Lawful(Phases(Chain(rs + [r], a)))
  {
    hide *;
    ChainOfAppend(rs, r, a);
    if r.approvalId == a {
      var chain := Chain(rs, a);
      PhasesStep(chain, r);
      LinkedStep(chain, r);
      FollowsAllows(chain, r);
      LawfulStep(Phases(chain), r.phase);
    } else {
      assert Chain(rs, a) + [] == Chain(rs, a);
    }
  }

  lemma FollowsAllows(chain: seq<HitlRecord>, r: HitlRecord)
    requires if r.phase.Pause? then chain == [] else chain != [] && Follows(chain, r)
    ensures
      var ps := Phases(chain);
      if ps == [] then r.phase.Pause? else
        !r.phase.Pause? && (r.phase.Approve? || r.phase.Deny? ==> ps[|ps| - 1].Pause?)
        && (r.phase.Resume? ==> ps[|ps| - 1].Approve?)
  {
  }

  lemma PhasesStep(rs: seq<HitlRecord>, r: HitlRecord)
    ensures Phases(rs + [r]) == Phases(rs) + [r.phase]
  {
  }

  lemma AcceptedIsAttested(c: Scheme, r: HitlRecord, readback: Option<Attestation>)
    requires r.Valid(c)
    requires r.phase.NeedsHuman() ==> readback.Some? && readback.value.Valid(c) && r.MatchedBy(readback.value)
    ensures Attested(c, r)
  {
    hide HitlRecord.MatchedBy, Attestation.Valid, Scheme.Sealed, Scheme.IsReference;
  }

  lemma HitlInvGrows(c: Scheme, db: Db, r: HitlRecord)
    requires HitlInv(c, db) && Unique(db + [HitlRow(r)]) && r.Valid(c) && Attested(c, r)
    requires
      var chain := Chain(HitlRows(db), r.approvalId);
      if r.phase.Pause? then chain == [] && Starts(r) else chain != [] && Follows(chain, r)
    ensures HitlInv(c, db + [HitlRow(r)])
  {
    HitlRowsOfAppend(db, HitlRow(r));
    hide HitlRecord.Valid, Attested, Unique, Linked, Lawful, Phases, Starts, Follows, Chain, HitlRows;
    forall a: string ensures Linked(Chain(HitlRows(db) + [r], a)) && Lawful(Phases(Chain(HitlRows(db) + [r], a))) {
      ChainsGrow(HitlRows(db), r, a);
    }
  }

  lemma AcceptedKeepsHitl(c: Scheme, db: Db, r: HitlRecord, readback: Option<Attestation>)
    requires HitlInv(c, db) && Appended(c, db, r, readback).Ok? && Appended(c, db, r, readback).value.1
    ensures Appended(c, db, r, readback).value.0 == db + [HitlRow(r)] && HitlInv(c, db + [HitlRow(r)])
  {
    AcceptedRecord(c, db, r, readback);
    assert Unique(db);
    hide *;
    InsertedRow(db, HitlRow(r));
    AcceptedIsAttested(c, r, readback);
    HitlInvGrows(c, db, r);
  }

  /** One append, accepted or not, keeps every approval chain linked, lawful and attested. */
  lemma AppendKeepsHitl(c: Scheme, db: Db, r: HitlRecord, readback: Option<Attestation>)
    requires HitlInv(c, db) && Appended(c, db, r, readback).Ok?
    ensures
      var (db', flag) := Appended(c, db, r, readback).value;
      HitlInv(c, db') && db' == if flag then db + [HitlRow(r)] else db
  {
    if Appended(c, db, r, readback).value.1 {
      AcceptedKeepsHitl(c, db, r, readback);
    } else {
      RepetitionKeepsRows(c, db, r, readback);
    }
    hide Appended, HitlInv;
  }

  /** The guards of a phase, read off the two descriptions of a good chain. */
  lemma GuardsAreExact(chain: seq<HitlRecord>, r: HitlRecord)
    requires Linked(chain) && Lawful(Phases(chain))
    ensures
      (if r.phase.Pause? then chain == [] && Starts(r) else chain != [] && Follows(chain, r))
      <==> Linked(chain + [r]) && Lawful(Phases(chain + [r]))
  {
    PhasesStep(chain, r);
    if (if r.phase.Pause? then chain == [] && Starts(r) else chain != [] && Follows(chain, r)) {
      LinkedStep(chain, r);
      FollowsAllows(chain, r);
      hide Linked, Starts, Follows;
      LawfulStep(Phases(chain), r.phase);
    }
    if Linked(chain + [r]) && Lawful(Phases(chain + [r])) {
      LawfulLast(Phases(chain), r.phase);
      LinkedLast(chain, r);
      hide Linked, Lawful, Starts;
    }
  }

  lemma LawfulLast(ps: seq<Phase>, p: Phase)
    requires Lawful(ps) && Lawful(ps + [p])
    ensures if ps == [] then p.Pause? else
              !p.Pause? && (p.Approve? || p.Deny? ==> ps[|ps| - 1].Pause?) && (p.Resume? ==> ps[|ps| - 1].Approve?)
  {
    var qs, n := ps + [p], |ps|;
    assert qs[n] == p && forall i | 0 <= i < n :: qs[i] == ps[i];
    if n >= 1 && AllStops(qs[1..]) { assert qs[1..][n - 1] == p; }
    if n >= 2 && AllStops(qs[2..]) { assert qs[2..][n - 2] == p; }
    if n >= 3 && AllStops(qs[3..]) { assert qs[3..][n - 3] == p; }
  }

  lemma LinkedLast(rs: seq<HitlRecord>, r: HitlRecord)
    requires Linked(rs + [r])
    ensures if rs == [] then Starts(r) else
              r.previousRevision == Some(rs[|rs| - 1].revision) && rs[|rs| - 1].revision < r.revision
              && r.lineage == rs[|rs| - 1].lineage
  {
    var n := |rs|;
    assert (rs + [r])[n] == r && (n > 0 ==> (rs + [r])[n - 1] == rs[n - 1]);
    hide Starts;
  }

  lemma {:induction false} LinkedGrows(rs: seq<HitlRecord>, i: nat)
    requires Linked(rs) && i < |rs|
    ensures rs[i].revision <= rs[|rs| - 1].revision
    decreases |rs|
  {
    if i < |rs| - 1 {
      LinkedPrefix(rs);
      hide Linked;
      LinkedGrows(rs[..|rs| - 1], i);
    }
  }

  lemma {:induction false} ChainMembers(rs: seq<HitlRecord>, r: HitlRecord)
    requires r in rs
    ensures r in Chain(rs, r.approvalId)
  {
    if rs[|rs| - 1] != r {
      assert rs == rs[..|rs| - 1] + [rs[|rs| - 1]];
      ChainMembers(rs[..|rs| - 1], r);
    }
  }

  /** A record that follows its chain and has a new identifier clashes with nothing. */
  lemma NextRecordFits(db: Db, r: HitlRecord)
    requires ByEvent(HitlRows(db), r.eventId).None? && Linked(Chain(HitlRows(db), r.approvalId))
    requires
      var chain := Chain(HitlRows(db), r.approvalId);
      chain != [] ==> chain[|chain| - 1].revision < r.revision
    ensures InsertOnce(db, HitlRow(r)) == Ok((db + [HitlRow(r)], true))
  {
    var rs := HitlRows(db);
    var chain := Chain(rs, r.approvalId);
    HitlRowsAreRows(db);
    hide HitlRows, Chain, Linked, ByEvent;
    forall q | q in db ensures !Clash(q, HitlRow(r)) && !SameIdentity(q, HitlRow(r)) {
      if q.HitlRow? && q.hitl.approvalId == r.approvalId {
        ChainMembers(rs, q.hitl);
        var i :| 0 <= i < |chain| && chain[i] == q.hitl;
        LinkedGrows(chain, i);
      }
    }
    FreshInsert(db, HitlRow(r));
  }

  /**
   A valid new record, with its external readback where one is needed, is accepted exactly
   when its approval's chain stays linked and lawful with it.
   */
  lemma AppendAcceptsExactly(c: Scheme, db: Db, r: HitlRecord, readback: Option<Attestation>)
    requires HitlInv(c, db) && r.Valid(c) && ByEvent(HitlRows(db), r.eventId).None?
    requires r.phase.NeedsHuman() ==> readback.Some? && readback.value.Valid(c) && r.MatchedBy(readback.value)
    ensures
      var chain := Chain(HitlRows(db), r.approvalId) + [r];
      Appended(c, db, r, readback) == if Linked(chain) && Lawful(Phases(chain)) then Ok((db + [HitlRow(r)], true)) else Err(AuthorityError)
  {
    hide *;
    var chain := Chain(HitlRows(db), r.approvalId);
    ChainIsGood(c, db, r.approvalId);
    GuardsAreExact(chain, r);
    RevisionOrderIsInsertionOrder(c, db, r.approvalId);
    AppendedByGuards(c, db, r, readback);
    if Linked(chain + [r]) && Lawful(Phases(chain + [r])) {
      LinkedLast(chain, r);
      NextRecordFits(db, r);
    }
  }

  lemma ChainIsGood(c: Scheme, db: Db, a: string)
    requires HitlInv(c, db)
    ensures Linked(Chain(HitlRows(db), a)) && Lawful(Phases(Chain(HitlRows(db), a)))
  {
    hide Linked, Lawful, Phases, Chain, HitlRows, HitlRecord.Valid, Attested, Unique;
  }

  lemma AppendedByGuards(c: Scheme, db: Db, r: HitlRecord, readback: Option<Attestation>)
    requires r.Valid(c) && ByEvent(HitlRows(db), r.eventId).None?
    requires r.phase.NeedsHuman() ==> readback.Some? && readback.value.Valid(c) && r.MatchedBy(readback.value)
    ensures
      var history := History(db, r.approvalId);
      Appended(c, db, r, readback) ==
      if (if r.phase.Pause? then history == [] && Starts(r) else history != [] && Follows(history, r))
      then InsertOnce(db, HitlRow(r)) else Err(AuthorityError)
  {
    hide HitlRecord.Valid, Attestation.Valid, HitlRecord.MatchedBy, InsertOnce, Starts, Follows, History, HitlRows;
  }

  /** Without a matching readback no new decision or resume is accepted. */
  lemma NoDecisionWithoutReadback(c: Scheme, db: Db, r: HitlRecord, readback: Option<Attestation>)
    requires r.Valid(c) && r.phase.NeedsHuman() && ByEvent(HitlRows(db), r.eventId).None?
    requires !(readback.Some? && readback.value.Valid(c) && r.MatchedBy(readback.value))
    ensures Appended(c, db, r, readback) == Err(AuthorityError)
  {
    hide HitlRecord.Valid, Attestation.Valid, HitlRecord.MatchedBy, InsertOnce, Starts, Follows, History, HitlRows;
  }

  lemma {:induction false} HitlRowsAreRows(db: Db)
    ensures forall r :: r in HitlRows(db) <==> HitlRow(r) in db
  {
    if db != [] {
      var n := |db| - 1;
      HitlRowsAreRows(db[..n]);
      assert db == db[..n] + [db[n]];
    }
  }

  lemma AppendedIsValid(c: Scheme, db: Db, r: HitlRecord, readback: Option<Attestation>)
    requires Appended(c, db, r, readback).Ok?
    ensures r.Valid(c)
    ensures ByEvent(HitlRows(db), r.eventId).Some? ==> ByEvent(HitlRows(db), r.eventId).value.contentHash == r.contentHash
    ensures ByEvent(HitlRows(db), r.eventId).None? ==> Appended(c, db, r, readback) == InsertOnce(db, HitlRow(r))
  {
    hide HitlRecord.Valid, Attestation.Valid, HitlRecord.MatchedBy, InsertOnce, History, Starts, Follows, HitlRows;
  }

  lemma SuccessBinds(c: Scheme, db: Db, r: HitlRecord, readback: Option<Attestation>)
    requires HitlInv(c, db) && Appended(c, db, r, readback).Ok?
    ensures r.Valid(c) && Bound(Appended(c, db, r, readback).value.0, HitlRow(r))
  {
    hide *;
    AppendedIsValid(c, db, r, readback);
    var x := ByEvent(HitlRows(db), r.eventId);
    if x.Some? {
      HitlRowsAreRows(db);
      SameHashIsBound(db, x.value, r);
      AppendKeepsHitl(c, db, r, readback);
      BoundStays(db, Appended(c, db, r, readback).value.0, HitlRow(r));
    } else {
      InsertOnceFacts(db, HitlRow(r));
    }
  }

  lemma SameHashIsBound(db: Db, x: HitlRecord, r: HitlRecord)
    requires HitlRow(x) in db && x.eventId == r.eventId && x.contentHash == r.contentHash
    ensures Bound(db, HitlRow(r))
  {
    assert SameIdentity(HitlRow(x), HitlRow(r)) && HitlRow(x).Hash() == HitlRow(r).Hash();
  }

  /** A record that is stored needs no readback to be repeated: it is recognised before anything else is looked at. */
  lemma BoundIsIdle(c: Scheme, db: Db, r: HitlRecord, readback: Option<Attestation>)
    requires HitlInv(c, db) && r.Valid(c) && Bound(db, HitlRow(r))
    ensures Appended(c, db, r, readback) == Ok((db, false))
  {
    HitlRowsAreRows(db);
    assert Unique(db);
    hide HitlRecord.Valid, History, InsertOnce, HitlRows, HitlInv, Attestation.Valid, HitlRecord.MatchedBy, Starts, Follows;
    var q :| q in db && SameIdentity(q, HitlRow(r)) && q.Hash() == HitlRow(r).Hash();
    assert q.HitlRow? && q.hitl in HitlRows(db);
    var x := ByEvent(HitlRows(db), r.eventId).value;
    SameKeySameRow(db, HitlRow(x), q);
  }

  /** The authority over a held store; `readback` is what its external verifier answers for the record. */
  class HitlAuthority {
    const store: AuthorityStore

    constructor (store: AuthorityStore)
      ensures this.store == store
    {
      this.store := store;
    }

    method Append(c: Scheme, r: HitlRecord, readback: Option<Attestation>) returns (res: Result<bool>)
      requires store.Valid()
      modifies store
      ensures store.Valid()
      ensures
        match Appended(c, old(store.committed), r, readback)
        case Ok((db, flag)) => res == Ok(flag) && store.committed == db
        case Err(error) => res == Err(error) && store.committed == old(store.committed)
    {
      hide HitlRecord.Valid, Attestation.Valid, HitlRecord.MatchedBy, InsertOnce, InsertAll, History, Starts, Follows;
      if !r.Valid(c) { return Err(AuthorityError); }
      var existing := ByEvent(HitlRows(store.working), r.eventId);
      if existing.Some? {
        if existing.value.contentHash == r.contentHash { return Ok(false); }
        return Err(AuthorityConflict);
      }
      var history := History(store.working, r.approvalId);
      if r.phase.Pause? {
        if history != [] || !Starts(r) { return Err(AuthorityError); }
      } else if history == [] || !Follows(history, r) {
        return Err(AuthorityError);
      }
      if r.phase.NeedsHuman() && !(readback.Some? && readback.value.Valid(c) && r.MatchedBy(readback.value)) {
        return Err(AuthorityError);
      }
      res := store.AppendRecord(HitlRow(r));
    }
  }
}
