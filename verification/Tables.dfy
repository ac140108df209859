/** Tables as one list of rows in insertion order, with the unique constraints of the schema. */
module Tables {
  import opened Json
  import opened Records

  datatype Error = AuthorityError | AuthorityConflict
  datatype Result<+T> = Ok(value: T) | Err(error: Error)

  /** A stored event keeps its payload as text. */
  datatype Row =
    | EventRow(header: EventHeader, payloadText: string)
    | HitlRow(hitl: HitlRecord)
    | CapsuleRow(key: string, capsule: Capsule)
    | HitRow(hit: Hit)
    | OracleRow(oracle: Oracle)
  {
    /** The value of the identity column an insert names. */
    function Identity(): string {
      match this
      case EventRow(h, _) => h.idempotencyKey
      case HitlRow(r) => r.eventId
      case CapsuleRow(key, _) => key
      case HitRow(h) => h.hitId
      case OracleRow(o) => o.resultId
    }

    function Hash(): string {
      match this
      case EventRow(h, _) => h.contentHash
      case HitlRow(r) => r.contentHash
      case CapsuleRow(_, c) => c.contentHash
      case HitRow(h) => h.contentHash
      case OracleRow(o) => o.contentHash
    }
  }

  type Db = seq<Row>

  predicate SameIdentity(a: Row, b: Row) {
    match (a, b)
    case (EventRow(_, _), EventRow(_, _)) => a.Identity() == b.Identity()
    case (HitlRow(_), HitlRow(_)) => a.Identity() == b.Identity()
    case (CapsuleRow(_, _), CapsuleRow(_, _)) => a.Identity() == b.Identity()
    case (HitRow(_), HitRow(_)) => a.Identity() == b.Identity()
    case (OracleRow(_), OracleRow(_)) => a.Identity() == b.Identity()
    case _ => false
  }

  /** Two rows no table may hold together: the primary keys and unique constraints. */
  predicate Clash(a: Row, b: Row) {
    match (a, b)
    case (EventRow(h, _), EventRow(g, _)) =>
      h.eventId == g.eventId || h.idempotencyKey == g.idempotencyKey
      || (h.aggregateId == g.aggregateId && h.revision == g.revision)
    case (HitlRow(r), HitlRow(q)) =>
      r.eventId == q.eventId || (r.approvalId == q.approvalId && r.revision == q.revision)
    case (CapsuleRow(j, _), CapsuleRow(k, _)) => j == k
    case (HitRow(h), HitRow(g)) =>
      h.hitId == g.hitId
      || (h.capsuleId == g.capsuleId && h.lineage.runId == g.lineage.runId && h.lineage.traceId == g.lineage.traceId)
    case (OracleRow(o), OracleRow(p)) =>
      o.resultId == p.resultId
      || (o.lineage.runId == p.lineage.runId
          && (o.kind == p.kind || o.identityRef == p.identityRef || o.processRef == p.processRef || o.resultRef == p.resultRef))
    case _ => false
  }

  lemma SameIdentityClashes(a: Row, b: Row)
    requires SameIdentity(a, b)
    ensures Clash(a, b)
  {
  }

  predicate Unique(db: Db) {
    forall i, j | 0 <= i < j < |db| :: !Clash(db[i], db[j])
  }

  datatype Attempt = Inserted | Present | Conflicts

  function Find(db: Db, r: Row): (q: Option<Row>)
    ensures q.Some? ==> q.value in db && SameIdentity(q.value, r)
    ensures q.None? ==> forall x | x in db :: !SameIdentity(x, r)
  {
    if db == [] then None
    else if SameIdentity(db[0], r) then Some(db[0])
    else Find(db[1..], r)
  }

  /**
   An insert first looks for its identity: the same hash is a repetition, another hash a
   conflict.  The insert itself is dropped by any other unique constraint, which the second
   look cannot explain away.
   */
  function TryInsert(db: Db, r: Row): Attempt {
    match Find(db, r)
    case Some(q) => if q.Hash() == r.Hash() then Present else Conflicts
    case None => if exists x | x in db :: Clash(x, r) then Conflicts else Inserted
  }

  function InsertOnce(db: Db, r: Row): Result<(Db, bool)> {
    match TryInsert(db, r)
    case Inserted => Ok((db + [r], true))
    case Present => Ok((db, false))
    case Conflicts => Err(AuthorityConflict)
  }

  /** A batch is a left fold of single inserts that stops at the first conflict. */
  function InsertAll(db: Db, batch: seq<Row>): Result<(Db, seq<bool>)>
    decreases |batch|
  {
    if batch == [] then Ok((db, []))
    else match InsertOnce(db, batch[0])
      case Err(e) => Err(e)
      case Ok((db', flag)) =>
        match InsertAll(db', batch[1..])
        case Err(e) => Err(e)
        case Ok((db'', flags)) => Ok((db'', [flag] + flags))
  }

  function Count(flags: seq<bool>): nat {
    if flags == [] then 0 else (if flags[0] then 1 else 0) + Count(flags[1..])
  }

  predicate Bound(db: Db, r: Row) {
    exists q | q in db :: SameIdentity(q, r) && q.Hash() == r.Hash()
  }

  predicate Known(db: Db, r: Row) {
    exists q | q in db :: SameIdentity(q, r)
  }

  lemma InsertOnceFacts(db: Db, r: Row)
    ensures
      match InsertOnce(db, r)
      case Err(_) => exists q | q in db :: Clash(q, r)
      case Ok((db', flag)) =>
        && (flag <==> !Known(db, r))
        && db' == (if flag then db + [r] else db)
        && Bound(db', r)
        && (Unique(db) ==> Unique(db'))
  {
    SymmetricClash();
    if InsertOnce(db, r).Ok? && InsertOnce(db, r).value.1 {
      assert r in db + [r] && SameIdentity(r, r);
    }
    if Find(db, r).Some? { SameIdentityClashes(Find(db, r).value, r); }
  }

  lemma InsertedRow(db: Db, x: Row)
    requires Unique(db) && InsertOnce(db, x).Ok? && InsertOnce(db, x).value.1
    ensures InsertOnce(db, x).value.0 == db + [x] && Unique(db + [x])
  {
    InsertOnceFacts(db, x);
    hide InsertOnce, Unique, Bound, Known;
  }

  lemma SymmetricClash()
    ensures forall a, b :: Clash(a, b) <==> Clash(b, a)
  {
  }

  lemma SameKeySameRow(db: Db, r: Row, s: Row)
    requires Unique(db) && r in db && s in db && Clash(r, s)
    ensures r == s
  {
    SymmetricClash();
    hide Clash;
    var i :| 0 <= i < |db| && db[i] == r;
    var j :| 0 <= j < |db| && db[j] == s;
  }

  lemma FreshInsert(db: Db, x: Row)
    requires forall q | q in db :: !Clash(q, x) && !SameIdentity(q, x)
    ensures InsertOnce(db, x) == Ok((db + [x], true))
  {
    hide Clash, SameIdentity;
  }

  lemma EquivalentIdentity(a: Row, b: Row, c: Row)
    requires SameIdentity(a, b)
    ensures SameIdentity(a, c) <==> SameIdentity(b, c)
  {
  }

  lemma BoundStays(db: Db, later: Db, r: Row)
    requires db <= later && Bound(db, r)
    ensures Bound(later, r)
  {
    hide SameIdentity, Row.Hash;
    var q :| q in db && SameIdentity(q, r) && q.Hash() == r.Hash();
    assert q in later;
  }

  /** In a table without clashes a bound record is found, so inserting it again does nothing. */
  lemma BoundIsPresent(db: Db, r: Row)
    requires Unique(db) && Bound(db, r)
    ensures InsertOnce(db, r) == Ok((db, false))
  {
    var q :| q in db && SameIdentity(q, r) && q.Hash() == r.Hash();
    var f := Find(db, r).value;
    var i :| 0 <= i < |db| && db[i] == q;
    var j :| 0 <= j < |db| && db[j] == f;
    assert SameIdentity(q, f) && SameIdentity(f, q);
    SameIdentityClashes(q, f);
    SameIdentityClashes(f, q);
    assert i == j;
  }

  /** An insert is refused exactly when the record is not stored and some row stands in its way. */
  lemma InsertIsRefusedExactly(db: Db, r: Row)
    requires Unique(db)
    ensures InsertOnce(db, r) == Err(AuthorityConflict) <==> !Bound(db, r) && exists q | q in db :: Clash(q, r)
    ensures InsertOnce(db, r).Err? ==> InsertOnce(db, r) == Err(AuthorityConflict)
  {
    InsertOnceFacts(db, r);
    if Bound(db, r) {
      BoundIsPresent(db, r);
    } else {
      hide Clash, Unique;
    }
  }

  /**
   A successful batch: the rows before it stay, as many rows are added as flags are set,
   and every record of the batch ends up bound.
   */
  lemma {:induction false} BatchFacts(db: Db, batch: seq<Row>)
    requires InsertAll(db, batch).Ok?
    ensures
      var (db', flags) := InsertAll(db, batch).value;
      && |flags| == |batch|
      && db <= db' && |db'| == |db| + Count(flags)
      && (Unique(db) ==> Unique(db'))
      && (forall r | r in batch :: Bound(db', r))
      && (forall x | x in db' :: x in db || x in batch)
    decreases |batch|
  {
    hide *;
    if batch == [] {
      NoBatch(db);
    } else {
      var r, rest := batch[0], batch[1..];
      BatchStep(db, batch);
      var mid := InsertOnce(db, r).value.0;
      InsertOnceFacts(db, r);
      BatchFacts(mid, rest);
      BoundStays(mid, InsertAll(mid, rest).value.0, r);
      assert batch == [r] + rest;
    }
  }

  lemma NoBatch(db: Db)
    ensures InsertAll(db, []) == Ok((db, [])) && Count([]) == 0
  {
  }

  lemma BatchStep(db: Db, batch: seq<Row>)
    requires InsertAll(db, batch).Ok? && batch != []
    ensures InsertOnce(db, batch[0]).Ok?
    ensures
      var (mid, flag) := InsertOnce(db, batch[0]).value;
      && InsertAll(mid, batch[1..]).Ok?
      && InsertAll(db, batch).value.0 == InsertAll(mid, batch[1..]).value.0
      && InsertAll(db, batch).value.1 == [flag] + InsertAll(mid, batch[1..]).value.1
      && Count(InsertAll(db, batch).value.1) == (if flag then 1 else 0) + Count(InsertAll(mid, batch[1..]).value.1)
  {
    hide InsertOnce;
    var flags := InsertAll(db, batch).value.1;
    assert flags[1..] == InsertAll(InsertOnce(db, batch[0]).value.0, batch[1..]).value.1;
  }

  /** Flag i is set exactly when its identity was neither stored before nor earlier in the batch. */
  lemma {:induction false} FlagsAreFirstSights(db: Db, batch: seq<Row>, i: nat)
    requires InsertAll(db, batch).Ok? && i < |batch|
    ensures |InsertAll(db, batch).value.1| == |batch|
    ensures InsertAll(db, batch).value.1[i] <==> !Known(db + batch[..i], batch[i])
    decreases |batch|
  {
    var r, rest := batch[0], batch[1..];
    var (mid, flag) := InsertOnce(db, r).value;
    BatchFacts(db, batch);
    if i == 0 {
      InsertOnceFacts(db, r);
      assert db + batch[..0] == db;
    } else {
      FlagsAreFirstSights(mid, rest, i - 1);
      hide InsertOnce, SameIdentity, Row.Hash;
      assert batch[..i] == [r] + rest[..i - 1];
      KnownAcross(db, r, rest[..i - 1], batch[i]);
    }
  }

  lemma KnownAcross(db: Db, r: Row, between: seq<Row>, x: Row)
    requires InsertOnce(db, r).Ok?
    ensures Known(InsertOnce(db, r).value.0 + between, x) <==> Known(db + ([r] + between), x)
  {
    InsertOnceFacts(db, r);
    var mid := InsertOnce(db, r).value.0;
    if Known(db + ([r] + between), x) {
      var q :| q in db + ([r] + between) && SameIdentity(q, x);
      if q == r {
        var k :| k in mid && SameIdentity(k, r);
        EquivalentIdentity(k, r, x);
        assert k in mid + between;
      } else {
        assert q in mid + between;
      }
    }
    if Known(mid + between, x) {
      var q :| q in mid + between && SameIdentity(q, x);
      assert q in db + ([r] + between);
    }
  }

  /** n times False. */
  function AllFalse(n: nat): seq<bool> {
    if n == 0 then [] else [false] + AllFalse(n - 1)
  }

  /** A batch whose records are all bound changes nothing and sets no flag. */
  lemma {:induction false} BoundBatchIsIdle(db: Db, batch: seq<Row>)
    requires Unique(db) && forall r | r in batch :: Bound(db, r)
    ensures InsertAll(db, batch) == Ok((db, AllFalse(|batch|)))
    decreases |batch|
  {
    hide Unique, Bound, InsertOnce;
    if batch != [] {
      assert batch[0] in batch && forall r | r in batch[1..] :: r in batch;
      BoundIsPresent(db, batch[0]);
      BoundBatchIsIdle(db, batch[1..]);
    }
  }

  /** Repeating a successful batch is a no-op that sets no flag. */
  lemma RepeatedBatchIsIdle(db: Db, batch: seq<Row>)
    requires Unique(db) && InsertAll(db, batch).Ok?
    ensures var db' := InsertAll(db, batch).value.0; InsertAll(db', batch) == Ok((db', AllFalse(|batch|)))
  {
    BatchFacts(db, batch);
    BoundBatchIsIdle(InsertAll(db, batch).value.0, batch);
  }

  lemma {:induction false} InsertAllSnoc(db: Db, a: seq<Row>, r: Row)
    ensures
      InsertAll(db, a + [r]) ==
      match InsertAll(db, a)
      case Err(e) => Err(e)
      case Ok((mid, flags)) =>
        match InsertOnce(mid, r)
        case Err(e) => Err(e)
        case Ok((db', flag)) => Ok((db', flags + [flag]))
    decreases |a|
  {
    hide InsertOnce;
    if a == [] {
      assert a + [r] == [r] && [r][1..] == [];
      assert forall f: bool :: [f] + [] == [] + [f];
    } else {
      assert (a + [r])[1..] == a[1..] + [r];
      if InsertOnce(db, a[0]).Ok? {
        var (mid, first) := InsertOnce(db, a[0]).value;
        InsertAllSnoc(mid, a[1..], r);
        if InsertAll(mid, a[1..]).Ok? {
          var (end, flags) := InsertAll(mid, a[1..]).value;
          if InsertOnce(end, r).Ok? {
            var flag := InsertOnce(end, r).value.1;
            assert [first] + (flags + [flag]) == [first] + flags + [flag];
          }
        }
      }
    }
  }

  lemma SingleInsert(db: Db, r: Row)
    ensures
      InsertAll(db, [r]) ==
      match InsertOnce(db, r)
      case Err(e) => Err(e)
      case Ok((db', flag)) => Ok((db', [flag]))
  {
    hide InsertOnce;
    InsertAllSnoc(db, [], r);
    assert [] + [r] == [r];
    assert forall f: bool :: [] + [f] == [f];
  }

  /** A conflict anywhere fails the batch, whatever follows. */
  lemma {:induction false} PrefixFailureFails(db: Db, a: seq<Row>, b: seq<Row>)
    requires InsertAll(db, a).Err?
    ensures InsertAll(db, a + b) == InsertAll(db, a)
    decreases |a|
  {
    hide InsertOnce;
    assert (a + b)[1..] == a[1..] + b;
    if InsertOnce(db, a[0]).Ok? { PrefixFailureFails(InsertOnce(db, a[0]).value.0, a[1..], b); }
  }

  /******* Revision numbers *******/

  function Max(ns: seq<int>): (m: int)
    requires ns != []
    ensures m in ns && forall n | n in ns :: n <= m
  {
    assert ns == [ns[0]] + ns[1..];
    if |ns| == 1 then ns[0] else var m := Max(ns[1..]); if ns[0] >= m then ns[0] else m
  }

  /** The chain 1, 2, ..., n. */
  function UpTo(n: nat): seq<int> {
    seq(n, i => i + 1)
  }

  lemma MaxOfUpTo(n: nat, m: int)
    requires n > 0 && m in UpTo(n) && (forall k | k in UpTo(n) :: k <= m)
    ensures m == n
  {
    var ns := UpTo(n);
    var i :| 0 <= i < n && ns[i] == m;
    assert ns[n - 1] == n && n in ns;
  }

  lemma ExtendChain(n: nat, revision: int)
    requires revision == if n == 0 then 1 else Max(UpTo(n)) + 1
    ensures UpTo(n) + [revision] == UpTo(n + 1)
  {
    if n > 0 { MaxOfUpTo(n, Max(UpTo(n))); }
  }
}
