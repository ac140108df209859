/** Projecting completed native events into the log, one committed append per record. */
module Projector {
  import opened Json
  import opened Sealing
  import opened Records
  import opened Tables
  import opened EventLog
  import opened Store

  /** What a run leaves behind: the committed rows, and the events or the error that ended it. */
  datatype Outcome = Outcome(db: Db, result: Result<seq<Event>>)

  /** `materialize` reads one raw record; it is None for a record that may not be projected. */
  function Projected<Raw>(c: Scheme, materialize: Raw -> Option<Event>, db: Db, raws: seq<Raw>): Outcome
    decreases |raws|
  {
    if raws == [] then Outcome(db, Ok([]))
    else match materialize(raws[0])
      case None => Outcome(db, Err(AuthorityError))
      case Some(e) =>
        match EventLog.AppendEvent(c, db, e)
        case Err(error) => Outcome(db, Err(error))
        case Ok((db', _)) =>
          var rest := Projected(c, materialize, db', raws[1..]);
          match rest.result
          case Err(error) => Outcome(rest.db, Err(error))
          case Ok(es) => Outcome(rest.db, Ok([e] + es))
  }

  lemma {:induction false} ProjectKeepsLog<Raw>(c: Scheme, materialize: Raw -> Option<Event>, db: Db, raws: seq<Raw>)
    requires LogInv(c, db)
    ensures var out := Projected(c, materialize, db, raws); LogInv(c, out.db) && db <= out.db
    decreases |raws|
  {
    hide LogInv, EventLog.AppendEvent;
    if raws != [] && materialize(raws[0]).Some? {
      var e := materialize(raws[0]).value;
      if EventLog.AppendEvent(c, db, e).Ok? {
        AppendKeepsLog(c, db, e);
        ProjectKeepsLog(c, materialize, EventLog.AppendEvent(c, db, e).value.0, raws[1..]);
      }
    }
  }

  /** An append that once succeeded is idle in every later store. */
  lemma SuccessIsIdleLater(c: Scheme, db: Db, e: Event, later: Db)
    requires c.Ideal() && LogInv(c, db) && LogInv(c, later)
    requires EventLog.AppendEvent(c, db, e).Ok? && EventLog.AppendEvent(c, db, e).value.0 <= later
    ensures EventLog.AppendEvent(c, later, e) == Ok((later, false))
  {
    assert e.Valid(c);
    hide *;
    SuccessMeansStored(c, db, e);
    HeaderStays(EventLog.AppendEvent(c, db, e).value.0, later, e.header);
    ReappendIsIdle(c, later, e);
  }

  /** Repeating a run right away, whether it succeeded or stopped at an error, does the same and changes nothing. */
  lemma {:induction false} RepeatIsIdle<Raw>(c: Scheme, materialize: Raw -> Option<Event>, db: Db, raws: seq<Raw>)
    requires c.Ideal() && LogInv(c, db)
    ensures var out := Projected(c, materialize, db, raws); Projected(c, materialize, out.db, raws) == out
    decreases |raws|
  {
    hide LogInv, EventLog.AppendEvent, Scheme.Ideal;
    if raws != [] && materialize(raws[0]).Some? {
      var e := materialize(raws[0]).value;
      if EventLog.AppendEvent(c, db, e).Ok? {
        var mid := EventLog.AppendEvent(c, db, e).value.0;
        AppendKeepsLog(c, db, e);
        ProjectKeepsLog(c, materialize, mid, raws[1..]);
        RepeatIsIdle(c, materialize, mid, raws[1..]);
        SuccessIsIdleLater(c, db, e, Projected(c, materialize, mid, raws[1..]).db);
      }
    }
  }

  /** Repeating a successful run in any later store returns the same events and changes nothing. */
  lemma {:induction false} LaterRepeatIsIdle<Raw>(
      c: Scheme, materialize: Raw -> Option<Event>, db: Db, raws: seq<Raw>, later: Db)
    requires c.Ideal() && LogInv(c, db) && LogInv(c, later)
    requires var out := Projected(c, materialize, db, raws); out.result.Ok? && out.db <= later
    ensures Projected(c, materialize, later, raws) == Outcome(later, Projected(c, materialize, db, raws).result)
    decreases |raws|
  {
    hide LogInv, EventLog.AppendEvent, Scheme.Ideal;
    if raws != [] {
      var e := materialize(raws[0]).value;
      var mid := EventLog.AppendEvent(c, db, e).value.0;
      AppendKeepsLog(c, db, e);
      ProjectKeepsLog(c, materialize, mid, raws[1..]);
      SuccessIsIdleLater(c, db, e, later);
      LaterRepeatIsIdle(c, materialize, mid, raws[1..], later);
    }
  }

  class NativeEventProjector<Raw> {
    const store: AuthorityStore
    const materialize: Raw -> Option<Event>

    constructor (store: AuthorityStore, materialize: Raw -> Option<Event>)
      ensures this.store == store && this.materialize == materialize
    {
      this.store, this.materialize := store, materialize;
    }

    method Project(c: Scheme, raw: Raw) returns (res: Result<Event>)
      requires store.Valid()
      modifies store
      ensures store.Valid()
      ensures
        var out := Projected(c, materialize, old(store.committed), [raw]);
        store.committed == out.db && match res case Ok(e) => out.result == Ok([e]) case Err(error) => out.result == Err(error)
    {
      hide EventLog.AppendEvent, Projected;
      SingleProjection(c, materialize, store.committed, raw);
      var e := materialize(raw);
      if e.None? { return Err(AuthorityError); }
      var step := store.AppendEvent(c, e.value);
      match step
      case Ok(_) => return Ok(e.value);
      case Err(error) => return Err(error);
    }

    method ProjectMany(c: Scheme, raws: seq<Raw>) returns (res: Result<seq<Event>>)
      requires store.Valid()
      modifies store
      ensures store.Valid()
      ensures Outcome(store.committed, res) == Projected(c, materialize, old(store.committed), raws)
    {
      hide EventLog.AppendEvent, Prepend;
      PrependNothing(Projected(c, materialize, store.committed, raws));
      assert raws[0..] == raws;
      var projected: seq<Event> := [];
      for i := 0 to |raws|
        invariant store.Valid()
        invariant Prepend(projected, Projected(c, materialize, store.committed, raws[i..]))
               == Projected(c, materialize, old(store.committed), raws)
      {
        hide Projected;
        ProjectOne(c, materialize, store.committed, raws[i], raws[i + 1..]);
        PrependError(projected, Projected(c, materialize, store.committed, [raws[i]]));
        assert raws[i..] == [raws[i]] + raws[i + 1..];
        var step := Project(c, raws[i]);
        if step.Err? { return Err(step.error); }
        PrependTwice(projected, step.value, Projected(c, materialize, store.committed, raws[i + 1..]));
        projected := projected + [step.value];
      }
      assert raws[|raws|..] == [];
      EmptyProjection(c, materialize, store.committed, projected);
      return Ok(projected);
    }
  }

  ghost function Prepend(es: seq<Event>, out: Outcome): Outcome {
    match out.result
    case Err(_) => out
    case Ok(fs) => Outcome(out.db, Ok(es + fs))
  }

  lemma PrependNothing(out: Outcome)
    ensures Prepend([], out) == out
  {
    if out.result.Ok? { assert [] + out.result.value == out.result.value; }
  }

  lemma PrependError(es: seq<Event>, out: Outcome)
    ensures out.result.Err? ==> Prepend(es, out) == out
  {
  }

  lemma EmptyProjection<Raw>(c: Scheme, materialize: Raw -> Option<Event>, db: Db, es: seq<Event>)
    ensures Prepend(es, Projected(c, materialize, db, [])) == Outcome(db, Ok(es))
  {
    assert es + [] == es;
  }

  lemma SingleProjection<Raw>(c: Scheme, materialize: Raw -> Option<Event>, db: Db, raw: Raw)
    ensures
      Projected(c, materialize, db, [raw]) ==
      match materialize(raw)
      case None => Outcome(db, Err(AuthorityError))
      case Some(e) =>
        match EventLog.AppendEvent(c, db, e)
        case Err(error) => Outcome(db, Err(error))
        case Ok((db', _)) => Outcome(db', Ok([e]))
  {
    hide EventLog.AppendEvent;
    assert [raw][1..] == [];
    assert forall e: Event :: [e] + [] == [e];
  }

  lemma PrependTwice(es: seq<Event>, e: Event, out: Outcome)
    ensures Prepend(es, Prepend([e], out)) == Prepend(es + [e], out)
  {
    if out.result.Ok? { assert es + ([e] + out.result.value) == es + [e] + out.result.value; }
  }

  lemma ProjectOne<Raw>(c: Scheme, materialize: Raw -> Option<Event>, db: Db, raw: Raw, rest: seq<Raw>)
    ensures
      var one := Projected(c, materialize, db, [raw]);
      && (one.result.Err? ==> Projected(c, materialize, db, [raw] + rest) == one)
      && (one.result.Ok? ==> |one.result.value| == 1
                             && Projected(c, materialize, db, [raw] + rest)
                                == Prepend(one.result.value, Projected(c, materialize, one.db, rest)))
  {
    hide EventLog.AppendEvent;
    assert ([raw] + rest)[1..] == rest && [raw][1..] == [];
    if materialize(raw).Some? {
      assert forall e: Event :: [e] + [] == [e];
    }
  }
}
