/** The repository over one held connection: what is committed, and what the open transaction sees. */
module Store {
  import opened Json
  import opened Sealing
  import opened Records
  import opened Tables
  import opened EventLog

  class AuthorityStore {
    var committed: Db
    var working: Db

    /** No transaction is open. */
    ghost predicate Valid()
      reads this
    {
      working == committed
    }

    constructor ()
      ensures Valid() && committed == []
    {
      committed, working := [], [];
    }

    method Commit()
      modifies this
      ensures working == old(working) && committed == old(working)
    {
      committed := working;
    }

    method Rollback()
      modifies this
      ensures working == old(committed) && committed == old(committed)
    {
      working := committed;
    }

    /** One idempotent insert; with `commit` it is a transaction of its own. */
    method Insert(r: Row, commit: bool) returns (res: Result<bool>)
      modifies this
      ensures
        match InsertOnce(old(working), r)
        case Ok((db, flag)) => res == Ok(flag) && working == db && committed == if commit && flag then db else old(committed)
        case Err(e) => res == Err(e) && working == old(working) && committed == old(committed)
    {
      var existing := Find(working, r);
      if existing.Some? {
        if existing.value.Hash() == r.Hash() { return Ok(false); }
        return Err(AuthorityConflict);
      }
      if exists x | x in working :: Clash(x, r) { return Err(AuthorityConflict); }
      working := working + [r];
      if commit { Commit(); }
      return Ok(true);
    }

    /** A batch is atomic: it commits as a whole or leaves the committed rows untouched. */
    method AppendRecords(batch: seq<Row>) returns (res: Result<seq<bool>>)
      requires Valid()
      modifies this
      ensures Valid()
      ensures
        match InsertAll(old(committed), batch)
        case Ok((db, flags)) => res == Ok(flags) && committed == db
        case Err(e) => res == Err(e) && committed == old(committed)
    {
      var flags: seq<bool> := [];
      for i := 0 to |batch|
        invariant committed == old(committed)
        invariant InsertAll(old(committed), batch[..i]) == Ok((working, flags))
      {
        InsertAllSnoc(old(committed), batch[..i], batch[i]);
        assert batch[..i + 1] == batch[..i] + [batch[i]] && batch == batch[..i + 1] + batch[i + 1..];
        var step := Insert(batch[i], false);
        if step.Err? {
          PrefixFailureFails(old(committed), batch[..i + 1], batch[i + 1..]);
          Rollback();
          return Err(step.error);
        }
        flags := flags + [step.value];
      }
      assert batch[..|batch|] == batch;
      Commit();
      return Ok(flags);
    }

    /** One record is a batch of one. */
    method AppendRecord(r: Row) returns (res: Result<bool>)
      requires Valid()
      modifies this
      ensures Valid()
      ensures
        match InsertOnce(old(committed), r)
        case Ok((db, flag)) => res == Ok(flag) && committed == db
        case Err(e) => res == Err(e) && committed == old(committed)
    {
      hide InsertOnce, InsertAll;
      SingleInsert(committed, r);
      var flags := AppendRecords([r]);
      match flags
      case Ok(bs) => return Ok(bs[0]);
      case Err(e) => return Err(e);
    }

    /** The three looks before the insert, then the insert, which commits on its own. */
    method AppendEvent(c: Scheme, e: Event) returns (res: Result<bool>)
      requires Valid()
      modifies this
      ensures Valid()
      ensures
        match EventLog.AppendEvent(c, old(committed), e)
        case Ok((db, flag)) => res == Ok(flag) && committed == db
        case Err(error) => res == Err(error) && committed == old(committed)
    {
      if !e.Valid(c) { return Err(AuthorityError); }
      var hs, h := Headers(working), e.header;
      var same := ById(hs, h.eventId);
      if same.Some? {
        if same.value.contentHash == h.contentHash { return Ok(false); }
        return Err(AuthorityConflict);
      }
      same := ByKey(hs, h.idempotencyKey);
      if same.Some? {
        if same.value.contentHash == h.contentHash { return Ok(false); }
        return Err(AuthorityConflict);
      }
      var chain := Revisions(hs, h.aggregateId);
      if chain != [] && h.revision != Max(chain) + 1 { return Err(AuthorityError); }
      if chain == [] && h.revision != 1 { return Err(AuthorityError); }
      InsertOnceFacts(working, RowOf(e));
      res := Insert(RowOf(e), true);
    }
  }
}
