/**
 All the domain authorities over one store.  A run is any sequence of their calls, with any
 arguments, starting from an empty store; a call either commits its rows or leaves the store
 as it was.  What each authority keeps of its own tables is proved in its own module; here it
 is shown that the others do not disturb it, and that repeating a successful call at any later
 time is idle.
 */
module Authority {
  import opened Json
  import opened Sealing
  import opened Records
  import opened Tables
  import EventLog
  import Hitl
  import Capsules
  import Oracles

  datatype Op =
    | AppendEvent(e: Event)
    | AppendHitl(r: HitlRecord, readback: Option<Attestation>)
    | PersistCapsule(p: Capsule)
    | RecordHit(h: Hit)
    | PersistOracle(o: Oracle)
    | PersistOraclePair(outcome: Oracle, boundary: Oracle)

  function Lift(res: Result<(Db, bool)>): Result<(Db, seq<bool>)> {
    match res
    case Err(e) => Err(e)
    case Ok((db, flag)) => Ok((db, [flag]))
  }

  /** What one call returns, with the rows it would leave committed. */
  function Try(c: Scheme, db: Db, op: Op): Result<(Db, seq<bool>)> {
    match op
    case AppendEvent(e) => Lift(EventLog.AppendEvent(c, db, e))
    case AppendHitl(r, readback) => Lift(Hitl.Appended(c, db, r, readback))
    case PersistCapsule(p) => Lift(Capsules.Persist(c, db, p))
    case RecordHit(h) => Lift(Capsules.RecordHit(c, db, h))
    case PersistOracle(o) => Lift(Oracles.Persist(c, db, o))
    case PersistOraclePair(o, b) => Oracles.PersistPair(c, db, o, b)
  }

  /** A refused call leaves the committed rows as they were. */
  function Apply(c: Scheme, db: Db, op: Op): Db {
    match Try(c, db, op)
    case Ok((db', _)) => db'
    case Err(_) => db
  }

  function Run(c: Scheme, db: Db, ops: seq<Op>): Db
    decreases |ops|
  {
    if ops == [] then db else Run(c, Apply(c, db, ops[0]), ops[1..])
  }

  ghost predicate Inv(c: Scheme, db: Db) {
    EventLog.LogInv(c, db) && Hitl.HitlInv(c, db) && Capsules.CapsuleInv(c, db) && Oracles.OracleInv(c, db)
  }

  /******* One table's rows say nothing about another table *******/

  lemma LogSkips(c: Scheme, db: Db, r: Row)
    requires EventLog.LogInv(c, db) && Unique(db + [r]) && !r.EventRow?
    ensures EventLog.LogInv(c, db + [r])
  {
    EventLog.HeadersOfAppend(db, r);
    assert EventLog.Headers(db + [r]) == EventLog.Headers(db);
    hide Unique, EventLog.Headers, EventLog.Revisions, Event.Valid, EventLog.RowOf;
  }

  lemma HitlSkips(c: Scheme, db: Db, r: Row)
    requires Hitl.HitlInv(c, db) && Unique(db + [r]) && !r.HitlRow?
    ensures Hitl.HitlInv(c, db + [r])
  {
    Hitl.HitlRowsOfAppend(db, r);
    assert Hitl.HitlRows(db + [r]) == Hitl.HitlRows(db);
    hide Unique, Hitl.HitlRows, HitlRecord.Valid, Hitl.Linked, Hitl.Lawful, Hitl.Chain, Hitl.Attested, Hitl.Phases;
  }

  lemma CapsulesSkip(c: Scheme, db: Db, r: Row)
    requires Capsules.CapsuleInv(c, db) && Unique(db + [r]) && !r.CapsuleRow? && !r.HitRow?
    ensures Capsules.CapsuleInv(c, db + [r])
  {
    Capsules.StoredOfAppend(db, r);
    assert Capsules.Stored(db + [r]) == Capsules.Stored(db);
    Capsules.FoundedGrows(c, db, r);
    Capsules.KeyedGrows(c, db, r);
    hide Unique, Capsules.Stored, Capsules.Revisions, Capsules.HitsAreFounded, Capsules.Keyed;
  }

  lemma OraclesSkip(c: Scheme, db: Db, r: Row)
    requires Oracles.OracleInv(c, db) && Unique(db + [r]) && !r.OracleRow?
    ensures Oracles.OracleInv(c, db + [r])
  {
    Oracles.OracleInvGrows(c, db, db + [r], [r]);
  }

  lemma InvIsUnique(c: Scheme, db: Db)
    requires Inv(c, db)
    ensures Unique(db)
  {
    Oracles.InvIsUnique(c, db);
    hide Unique;
  }

  lemma EventKeepsInv(c: Scheme, db: Db, e: Event)
    requires Inv(c, db) && EventLog.AppendEvent(c, db, e).Ok?
    ensures var db' := EventLog.AppendEvent(c, db, e).value.0; Inv(c, db') && db <= db'
  {
    hide EventLog.AppendEvent, EventLog.LogInv, Hitl.HitlInv, Capsules.CapsuleInv, Oracles.OracleInv;
    EventLog.AppendKeepsLog(c, db, e);
    if EventLog.AppendEvent(c, db, e).value.1 {
      var r := EventLog.RowOf(e);
      LogIsUnique(c, db + [r]);
      HitlSkips(c, db, r);
      CapsulesSkip(c, db, r);
      OraclesSkip(c, db, r);
    }
  }

  lemma LogIsUnique(c: Scheme, db: Db)
    requires EventLog.LogInv(c, db)
    ensures Unique(db)
  {
    hide Unique;
  }

  lemma HitlIsUnique(c: Scheme, db: Db)
    requires Hitl.HitlInv(c, db)
    ensures Unique(db)
  {
    hide Unique;
  }

  lemma CapsulesAreUnique(c: Scheme, db: Db)
    requires Capsules.CapsuleInv(c, db)
    ensures Unique(db)
  {
    hide Unique;
  }

  lemma HitlKeepsInv(c: Scheme, db: Db, r: HitlRecord, readback: Option<Attestation>)
    requires Inv(c, db) && Hitl.Appended(c, db, r, readback).Ok?
    ensures var db' := Hitl.Appended(c, db, r, readback).value.0; Inv(c, db') && db <= db'
  {
    hide Hitl.Appended, EventLog.LogInv, Hitl.HitlInv, Capsules.CapsuleInv, Oracles.OracleInv;
    Hitl.AppendKeepsHitl(c, db, r, readback);
    if Hitl.Appended(c, db, r, readback).value.1 {
      var x := HitlRow(r);
      HitlIsUnique(c, db + [x]);
      LogSkips(c, db, x);
      CapsulesSkip(c, db, x);
      OraclesSkip(c, db, x);
    }
  }

  lemma CapsuleRowKeepsInv(c: Scheme, db: Db, x: Row)
    requires Inv(c, db) && Capsules.CapsuleInv(c, db + [x]) && (x.CapsuleRow? || x.HitRow?)
    ensures Inv(c, db + [x])
  {
    hide EventLog.LogInv, Hitl.HitlInv, Capsules.CapsuleInv, Oracles.OracleInv;
    CapsulesAreUnique(c, db + [x]);
    LogSkips(c, db, x);
    HitlSkips(c, db, x);
    OraclesSkip(c, db, x);
  }

  lemma CapsuleKeepsInv(c: Scheme, db: Db, p: Capsule)
    requires Inv(c, db) && Capsules.Persist(c, db, p).Ok?
    ensures var db' := Capsules.Persist(c, db, p).value.0; Inv(c, db') && db <= db'
  {
    hide Capsules.Persist, EventLog.LogInv, Hitl.HitlInv, Capsules.CapsuleInv, Oracles.OracleInv;
    Capsules.PersistKeepsCapsules(c, db, p);
    hide Inv;
    if Capsules.Persist(c, db, p).value.1 { CapsuleRowKeepsInv(c, db, Capsules.RowOf(p)); }
  }

  lemma HitKeepsInv(c: Scheme, db: Db, h: Hit)
    requires Inv(c, db) && Capsules.RecordHit(c, db, h).Ok?
    ensures var db' := Capsules.RecordHit(c, db, h).value.0; Inv(c, db') && db <= db'
  {
    hide Capsules.RecordHit, EventLog.LogInv, Hitl.HitlInv, Capsules.CapsuleInv, Oracles.OracleInv, Capsules.Names;
    Capsules.RecordHitKeepsCapsules(c, db, h);
    hide Inv;
    if Capsules.RecordHit(c, db, h).value.1 { CapsuleRowKeepsInv(c, db, HitRow(h)); }
  }

  /** A batch of Oracle rows, one row at a time. */
  lemma {:induction false} OracleRowsKeepOthers(c: Scheme, db: Db, batch: seq<Row>)
    requires EventLog.LogInv(c, db) && Hitl.HitlInv(c, db) && Capsules.CapsuleInv(c, db)
    requires InsertAll(db, batch).Ok? && forall r | r in batch :: r.OracleRow?
    ensures
      var db' := InsertAll(db, batch).value.0;
      EventLog.LogInv(c, db') && Hitl.HitlInv(c, db') && Capsules.CapsuleInv(c, db') && db <= db'
    decreases |batch|
  {
    hide EventLog.LogInv, Hitl.HitlInv, Capsules.CapsuleInv, InsertOnce;
    if batch != [] {
      var r := batch[0];
      assert r in batch;
      LogIsUnique(c, db);
      InsertOnceFacts(db, r);
      hide Bound, Known, Unique;
      if InsertOnce(db, r).value.1 {
        LogSkips(c, db, r);
        HitlSkips(c, db, r);
        CapsulesSkip(c, db, r);
      }
      OracleRowsKeepOthers(c, InsertOnce(db, r).value.0, batch[1..]);
    }
  }

  lemma OracleKeepsInv(c: Scheme, db: Db, o: Oracle)
    requires Inv(c, db) && Oracles.Persist(c, db, o).Ok?
    ensures var db' := Oracles.Persist(c, db, o).value.0; Inv(c, db') && db <= db'
  {
    hide Oracle.Valid, EventLog.LogInv, Hitl.HitlInv, Capsules.CapsuleInv, Oracles.OracleInv, InsertOnce, Bound;
    SingleInsert(db, OracleRow(o));
    OracleRowsKeepOthers(c, db, [OracleRow(o)]);
    Oracles.PersistBinds(c, db, o);
  }

  lemma OraclePairKeepsInv(c: Scheme, db: Db, o: Oracle, b: Oracle)
    requires Inv(c, db) && Oracles.PersistPair(c, db, o, b).Ok?
    ensures var db' := Oracles.PersistPair(c, db, o, b).value.0; Inv(c, db') && db <= db'
  {
    hide Oracles.PersistPair, EventLog.LogInv, Hitl.HitlInv, Capsules.CapsuleInv, Oracles.OracleInv, InsertAll, Bound;
    Oracles.AcceptedPair(c, db, o, b);
    OracleRowsKeepOthers(c, db, [OracleRow(o), OracleRow(b)]);
    Oracles.PersistPairBindsBoth(c, db, o, b);
  }

  /** One operation, refused or not, keeps every table's rules and every row. */
  lemma ApplyKeepsInv(c: Scheme, db: Db, op: Op)
    requires Inv(c, db)
    ensures Inv(c, Apply(c, db, op)) && db <= Apply(c, db, op)
  {
    hide Inv, EventLog.AppendEvent, Hitl.Appended, Capsules.Persist, Capsules.RecordHit, Oracles.Persist, Oracles.PersistPair;
    if Try(c, db, op).Ok? {
      match op
      case AppendEvent(e) => EventKeepsInv(c, db, e);
      case AppendHitl(r, readback) => HitlKeepsInv(c, db, r, readback);
      case PersistCapsule(p) => CapsuleKeepsInv(c, db, p);
      case RecordHit(h) => HitKeepsInv(c, db, h);
      case PersistOracle(o) => OracleKeepsInv(c, db, o);
      case PersistOraclePair(o, b) => OraclePairKeepsInv(c, db, o, b);
    }
  }

  lemma {:induction false} RunKeepsInv(c: Scheme, db: Db, ops: seq<Op>)
    requires Inv(c, db)
    ensures Inv(c, Run(c, db, ops)) && db <= Run(c, db, ops)
    decreases |ops|
  {
    hide Inv, Apply;
    if ops != [] {
      ApplyKeepsInv(c, db, ops[0]);
      RunKeepsInv(c, Apply(c, db, ops[0]), ops[1..]);
    }
  }

  lemma EmptyStore(c: Scheme)
    ensures Inv(c, [])
  {
    assert EventLog.Headers([]) == [] && Hitl.HitlRows([]) == [] && Capsules.Stored([]) == [];
    forall a: string ensures EventLog.Revisions(EventLog.Headers([]), a) == [] == UpTo(0) {}
    forall a: string ensures Capsules.Revisions(Capsules.Stored([]), a) == [] == UpTo(0) {}
    forall a: string ensures Hitl.Chain(Hitl.HitlRows([]), a) == [] {}
  }

  /** From an empty store: every reachable store keeps all four sets of rules. */
  lemma EveryReachableStore(c: Scheme, ops: seq<Op>)
    ensures Inv(c, Run(c, [], ops))
  {
    EmptyStore(c);
    RunKeepsInv(c, [], ops);
  }

  /******* Retrying *******/

  /** The rows whose presence makes a call a repetition. */
  ghost predicate Done(c: Scheme, db: Db, op: Op) {
    match op
    case AppendEvent(e) => e.Valid(c) && e.header in EventLog.Headers(db)
    case AppendHitl(r, _) => r.Valid(c) && Bound(db, HitlRow(r))
    case PersistCapsule(p) => p.Valid(c) && Bound(db, Capsules.RowOf(p))
    case RecordHit(h) => h.Valid(c) && Bound(db, HitRow(h)) && exists p | p in Capsules.Stored(db) :: Capsules.Names(h, p)
    case PersistOracle(o) => o.Valid(c) && Bound(db, OracleRow(o))
    case PersistOraclePair(o, b) => Oracles.ValidPair(c, o, b) && Bound(db, OracleRow(o)) && Bound(db, OracleRow(b))
  }

  lemma CapsuleStays(db: Db, later: Db, h: Hit)
    requires db <= later && exists p | p in Capsules.Stored(db) :: Capsules.Names(h, p)
    ensures exists p | p in Capsules.Stored(later) :: Capsules.Names(h, p)
  {
    Capsules.StoredAreRows(db);
    Capsules.StoredAreRows(later);
    hide Capsules.Stored, Capsules.Names;
    var p :| p in Capsules.Stored(db) && Capsules.Names(h, p);
    var r :| r in db && r.CapsuleRow? && r.capsule == p;
    assert r in later;
  }

  lemma DoneStays(c: Scheme, db: Db, op: Op, later: Db)
    requires Done(c, db, op) && db <= later
    ensures Done(c, later, op)
  {
    hide Bound, EventLog.Headers, Capsules.Stored, Capsules.Names, Oracles.ValidPair;
    match op
    case AppendEvent(e) => EventLog.HeaderStays(db, later, e.header);
    case AppendHitl(r, _) => BoundStays(db, later, HitlRow(r));
    case PersistCapsule(p) => BoundStays(db, later, Capsules.RowOf(p));
    case RecordHit(h) =>
      BoundStays(db, later, HitRow(h));
      CapsuleStays(db, later, h);
    case PersistOracle(o) => BoundStays(db, later, OracleRow(o));
    case PersistOraclePair(o, b) =>
      BoundStays(db, later, OracleRow(o));
      BoundStays(db, later, OracleRow(b));
  }

  /** A call that returned normally has its rows stored. */
  lemma SuccessIsDone(c: Scheme, db: Db, op: Op)
    requires c.Ideal() && Inv(c, db) && Try(c, db, op).Ok?
    ensures Done(c, Apply(c, db, op), op)
  {
    hide EventLog.AppendEvent, Hitl.Appended, Capsules.Persist, Capsules.RecordHit, Oracles.Persist, Oracles.PersistPair;
    hide EventLog.LogInv, Hitl.HitlInv, Capsules.CapsuleInv, Oracles.OracleInv, Bound, Scheme.Ideal, Capsules.Names;
    match op
    case AppendEvent(e) =>
      EventLog.SuccessMeansValid(c, db, e);
      EventLog.SuccessMeansStored(c, db, e);
    case AppendHitl(r, readback) =>
      Hitl.SuccessBinds(c, db, r, readback);
    case PersistCapsule(p) =>
      Capsules.SuccessBinds(c, db, p);
    case RecordHit(h) =>
      Capsules.AcceptedHit(c, db, h);
      Capsules.RecordHitKeepsCapsules(c, db, h);
      CapsuleStays(db, Capsules.RecordHit(c, db, h).value.0, h);
    case PersistOracle(o) =>
      Oracles.AcceptedResult(c, db, o);
      Oracles.PersistBinds(c, db, o);
    case PersistOraclePair(o, b) =>
      Oracles.AcceptedPair(c, db, o, b);
      Oracles.PersistPairBindsBoth(c, db, o, b);
  }

  /** A call whose rows are stored changes nothing, and reports so. */
  lemma DoneIsIdle(c: Scheme, db: Db, op: Op)
    requires Inv(c, db) && Done(c, db, op)
    ensures Try(c, db, op) == Ok((db, if op.PersistOraclePair? then [false, false] else [false]))
  {
    hide EventLog.AppendEvent, Hitl.Appended, Capsules.Persist, Capsules.RecordHit, Oracles.Persist, Oracles.PersistPair;
    hide EventLog.LogInv, Hitl.HitlInv, Capsules.CapsuleInv, Oracles.OracleInv, Bound, Capsules.Names;
    match op
    case AppendEvent(e) =>
      EventLog.ReappendIsIdle(c, db, e);
    case AppendHitl(r, readback) =>
      Hitl.BoundIsIdle(c, db, r, readback);
    case PersistCapsule(p) =>
      Capsules.BoundIsIdle(c, db, p);
    case RecordHit(h) =>
      Capsules.BoundHitIsIdle(c, db, h);
    case PersistOracle(o) =>
      InvIsUnique(c, db);
      Oracles.BoundResultIsIdle(c, db, o);
    case PersistOraclePair(o, b) =>
      InvIsUnique(c, db);
      Oracles.BoundPairIsIdle(c, db, o, b);
  }

  /**
   Exactly-once under retries.  Take any reachable store, any call that succeeds there, and
   any calls after it: the same call again returns normally, reports that it inserted
   nothing, and leaves the store alone.
   */
  lemma RetryIsIdle(c: Scheme, before: seq<Op>, op: Op, after: seq<Op>)
    requires c.Ideal() && Try(c, Run(c, [], before), op).Ok?
    ensures
      var db := Run(c, Apply(c, Run(c, [], before), op), after);
      Try(c, db, op) == Ok((db, if op.PersistOraclePair? then [false, false] else [false]))
  {
    hide *;
    var start := Run(c, [], before);
    EveryReachableStore(c, before);
    ApplyKeepsInv(c, start, op);
    SuccessIsDone(c, start, op);
    RunKeepsInv(c, Apply(c, start, op), after);
    DoneStays(c, Apply(c, start, op), op, Run(c, Apply(c, start, op), after));
    DoneIsIdle(c, Run(c, Apply(c, start, op), after), op);
  }
}
