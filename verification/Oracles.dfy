/**
 Independent Oracle results of a run.  A result is valid on its own terms: sealed, with its
 evidence, and without reference to another result.  That two results of one run are of
 different kinds, by different identities and processes, with different results, is what the
 unique constraints of the table say, so it is proved of every store rather than of a pair.
 */
module Oracles {
  import opened Json
  import opened Sealing
  import opened Records
  import opened Tables
  import opened Store

  predicate ValidPair(c: Scheme, o: Oracle, b: Oracle) {
    && o.Valid(c) && b.Valid(c) && o.kind.OutcomeOracle? && b.kind.BoundaryOracle?
    && o.lineage == b.lineage && o.rootRef == b.rootRef && o.rootHash == b.rootHash
    && (exists r | r in o.evidence :: r in b.evidence)
    && o.identityRef != b.identityRef && o.processRef != b.processRef
    && o.resultRef != b.resultRef && o.resultHash != b.resultHash
  }

  function Persist(c: Scheme, db: Db, o: Oracle): Result<(Db, bool)> {
    if !o.Valid(c) then Err(AuthorityError) else InsertOnce(db, OracleRow(o))
  }

  function PersistPair(c: Scheme, db: Db, o: Oracle, b: Oracle): Result<(Db, seq<bool>)> {
    if !ValidPair(c, o, b) then Err(AuthorityError) else InsertAll(db, [OracleRow(o), OracleRow(b)])
  }

  ghost predicate OracleInv(c: Scheme, db: Db) {
    Unique(db) && forall r | r in db && r.OracleRow? :: r.oracle.Valid(c)
  }

  predicate Independent(o: Oracle, p: Oracle) {
    o.kind != p.kind && o.identityRef != p.identityRef && o.processRef != p.processRef && o.resultRef != p.resultRef
  }

  lemma ClashOfOracles(o: Oracle, p: Oracle)
    requires o.lineage.runId == p.lineage.runId
    ensures Clash(OracleRow(o), OracleRow(p)) || Independent(o, p)
  {
  }

  /** Whatever was persisted, singly or in pairs: two results of one run never share kind, identity, process or reference. */
  lemma OraclesOfOneRunAreIndependent(c: Scheme, db: Db, i: nat, j: nat)
    requires OracleInv(c, db) && i < j < |db| && db[i].OracleRow? && db[j].OracleRow?
    requires db[i].oracle.lineage.runId == db[j].oracle.lineage.runId
    ensures Independent(db[i].oracle, db[j].oracle)
  {
    hide Oracle.Valid;
    assert !Clash(db[i], db[j]);
    ClashOfOracles(db[i].oracle, db[j].oracle);
    hide *;
  }

  /** So a run has at most its Outcome and its Boundary: never a third result. */
  lemma AtMostOnePairPerRun(c: Scheme, db: Db, i: nat, j: nat, k: nat)
    requires OracleInv(c, db) && i < j < k < |db| && db[i].OracleRow? && db[j].OracleRow? && db[k].OracleRow?
    requires db[i].oracle.lineage.runId == db[j].oracle.lineage.runId
    ensures db[k].oracle.lineage.runId != db[i].oracle.lineage.runId
  {
    hide Oracle.Valid, Clash, Unique;
    if db[k].oracle.lineage.runId == db[i].oracle.lineage.runId {
      OraclesOfOneRunAreIndependent(c, db, i, j);
      OraclesOfOneRunAreIndependent(c, db, j, k);
      OraclesOfOneRunAreIndependent(c, db, i, k);
    }
  }

  lemma InvIsUnique(c: Scheme, db: Db)
    requires OracleInv(c, db)
    ensures Unique(db)
  {
    hide Unique, Oracle.Valid;
  }

  lemma OracleInvGrows(c: Scheme, db: Db, db': Db, batch: seq<Row>)
    requires OracleInv(c, db) && Unique(db') && (forall x | x in db' :: x in db || x in batch)
    requires forall r | r in batch && r.OracleRow? :: r.oracle.Valid(c)
    ensures OracleInv(c, db')
  {
    hide Oracle.Valid, Unique;
  }

  /** A successful pair is stored whole, each result bound to its own hash, and persisting it again does nothing. */
  lemma PersistPairBindsBoth(c: Scheme, db: Db, o: Oracle, b: Oracle)
    requires OracleInv(c, db) && PersistPair(c, db, o, b).Ok?
    ensures
      var (db', flags) := PersistPair(c, db, o, b).value;
      && OracleInv(c, db') && Bound(db', OracleRow(o)) && Bound(db', OracleRow(b))
      && db <= db' && |flags| == 2 && |db'| == |db| + Count(flags)
      && PersistPair(c, db', o, b) == Ok((db', [false, false]))
  {
    hide *;
    var batch := [OracleRow(o), OracleRow(b)];
    AcceptedPair(c, db, o, b);
    InvIsUnique(c, db);
    var (db', flags) := InsertAll(db, batch).value;
    BatchFacts(db, batch);
    assert OracleRow(o) in batch && OracleRow(b) in batch;
    OracleInvGrows(c, db, db', batch);
    RepeatedBatchIsIdle(db, batch);
    RepeatedPair(c, db', o, b);
    TwoFalse();
  }

  lemma TwoFalse()
    ensures AllFalse(2) == [false, false]
  {
    assert AllFalse(1) == [false];
  }

  lemma AcceptedPair(c: Scheme, db: Db, o: Oracle, b: Oracle)
    requires PersistPair(c, db, o, b).Ok?
    ensures PersistPair(c, db, o, b) == InsertAll(db, [OracleRow(o), OracleRow(b)]) && ValidPair(c, o, b) && o.Valid(c) && b.Valid(c)
  {
    hide InsertAll, Oracle.Valid;
  }

  lemma RepeatedPair(c: Scheme, db: Db, o: Oracle, b: Oracle)
    requires ValidPair(c, o, b)
    ensures PersistPair(c, db, o, b) == InsertAll(db, [OracleRow(o), OracleRow(b)])
  {
    hide InsertAll, ValidPair;
  }

  lemma PersistBinds(c: Scheme, db: Db, o: Oracle)
    requires OracleInv(c, db) && Persist(c, db, o).Ok?
    ensures
      var (db', flag) := Persist(c, db, o).value;
      OracleInv(c, db') && Bound(db', OracleRow(o)) && db' == if flag then db + [OracleRow(o)] else db
  {
    assert Unique(db) && o.Valid(c) && Persist(c, db, o) == InsertOnce(db, OracleRow(o));
    hide Oracle.Valid, InsertOnce, Bound, Known, Unique;
    InsertOnceFacts(db, OracleRow(o));
    OracleInvGrows(c, db, Persist(c, db, o).value.0, [OracleRow(o)]);
  }

  /** Over an empty slot in the run a valid pair is refused only when some identity is taken elsewhere. */
  lemma FreshPairIsStored(c: Scheme, db: Db, o: Oracle, b: Oracle)
    requires ValidPair(c, o, b) && o.resultId != b.resultId
    requires forall r | r in db && r.OracleRow? ::
               r.oracle.lineage.runId != o.lineage.runId && r.oracle.resultId != o.resultId && r.oracle.resultId != b.resultId
    ensures PersistPair(c, db, o, b) == Ok((db + [OracleRow(o), OracleRow(b)], [true, true]))
  {
    hide *;
    var x, y := OracleRow(o), OracleRow(b);
    RepeatedPair(c, db, o, b);
    ValidPairDiffers(c, o, b);
    NoClashWith(db, o);
    NoClashWith(db, b);
    DifferentKindsFit(o, b);
    FreshInsert(db, x);
    assert forall q | q in db + [x] :: q in db || q == x;
    FreshInsert(db + [x], y);
    TwoInserts(db, x, y);
    assert db + [x] + [y] == db + [x, y];
  }

  lemma ValidPairDiffers(c: Scheme, o: Oracle, b: Oracle)
    requires ValidPair(c, o, b)
    ensures o.lineage == b.lineage && Independent(o, b)
  {
    hide Oracle.Valid;
  }

  lemma NoClashWith(db: Db, o: Oracle)
    requires forall r | r in db && r.OracleRow? :: r.oracle.lineage.runId != o.lineage.runId && r.oracle.resultId != o.resultId
    ensures forall q | q in db :: !Clash(q, OracleRow(o)) && !SameIdentity(q, OracleRow(o))
  {
  }

  lemma DifferentKindsFit(o: Oracle, b: Oracle)
    requires Independent(o, b) && o.resultId != b.resultId
    ensures !Clash(OracleRow(o), OracleRow(b)) && !SameIdentity(OracleRow(o), OracleRow(b))
  {
  }

  lemma TwoInserts(db: Db, x: Row, y: Row)
    requires InsertOnce(db, x) == Ok((db + [x], true)) && InsertOnce(db + [x], y) == Ok((db + [x] + [y], true))
    ensures InsertAll(db, [x, y]) == Ok((db + [x] + [y], [true, true]))
  {
    hide InsertOnce;
    InsertAllSnoc(db + [x], [], y);
    InsertAllSnoc(db, [], x);
    InsertAllSnoc(db, [x], y);
    assert [] + [x] == [x] && [x] + [y] == [x, y] && [true] + [true] == [true, true] && [] + [true] == [true];
  }

  lemma AcceptedResult(c: Scheme, db: Db, o: Oracle)
    requires Persist(c, db, o).Ok?
    ensures o.Valid(c)
  {
    hide Oracle.Valid, InsertOnce;
  }

  lemma BoundResultIsIdle(c: Scheme, db: Db, o: Oracle)
    requires Unique(db) && o.Valid(c) && Bound(db, OracleRow(o))
    ensures Persist(c, db, o) == Ok((db, false))
  {
    BoundIsPresent(db, OracleRow(o));
    hide Oracle.Valid, InsertOnce, Unique, Bound;
  }

  lemma BoundPairIsIdle(c: Scheme, db: Db, o: Oracle, b: Oracle)
    requires Unique(db) && ValidPair(c, o, b) && Bound(db, OracleRow(o)) && Bound(db, OracleRow(b))
    ensures PersistPair(c, db, o, b) == Ok((db, [false, false]))
  {
    hide *;
    RepeatedPair(c, db, o, b);
    BoundBatchIsIdle(db, [OracleRow(o), OracleRow(b)]);
    TwoFalse();
  }

  class OracleAuthority {
    const store: AuthorityStore

    constructor (store: AuthorityStore)
      ensures this.store == store
    {
      this.store := store;
    }

    method PersistResult(c: Scheme, o: Oracle) returns (res: Result<bool>)
      requires store.Valid()
      modifies store
      ensures store.Valid()
      ensures
        match Persist(c, old(store.committed), o)
        case Ok((db, flag)) => res == Ok(flag) && store.committed == db
        case Err(error) => res == Err(error) && store.committed == old(store.committed)
    {
      hide Oracle.Valid, InsertOnce;
      if !o.Valid(c) { return Err(AuthorityError); }
      res := store.AppendRecord(OracleRow(o));
    }

    method PersistBoth(c: Scheme, o: Oracle, b: Oracle) returns (res: Result<seq<bool>>)
      requires store.Valid()
      modifies store
      ensures store.Valid()
      ensures
        match PersistPair(c, old(store.committed), o, b)
        case Ok((db, flags)) => res == Ok(flags) && store.committed == db
        case Err(error) => res == Err(error) && store.committed == old(store.committed)
    {
      hide ValidPair, InsertAll;
      if !ValidPair(c, o, b) { return Err(AuthorityError); }
      res := store.AppendRecords([OracleRow(o), OracleRow(b)]);
    }
  }
}
