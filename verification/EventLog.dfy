/** The append-only event log: one contiguous revision chain per aggregate. */
module EventLog {
  import opened Json
  import opened Canonical
  import opened Sealing
  import opened Records
  import opened Tables

  function RowOf(e: Event): Row {
    EventRow(e.header, CanonicalText(e.payload))
  }

  /** The headers of the stored events, in insertion order. */
  function Headers(db: Db): seq<EventHeader> {
    if db == [] then []
    else Headers(db[..|db| - 1]) + (if db[|db| - 1].EventRow? then [db[|db| - 1].header] else [])
  }

  function ById(hs: seq<EventHeader>, eventId: string): (r: Option<EventHeader>)
    ensures r.Some? ==> r.value in hs && r.value.eventId == eventId
    ensures r.None? ==> forall h | h in hs :: h.eventId != eventId
  {
    if hs == [] then None else if hs[0].eventId == eventId then Some(hs[0]) else ById(hs[1..], eventId)
  }

  function ByKey(hs: seq<EventHeader>, key: string): (r: Option<EventHeader>)
    ensures r.Some? ==> r.value in hs && r.value.idempotencyKey == key
    ensures r.None? ==> forall h | h in hs :: h.idempotencyKey != key
  {
    if hs == [] then None else if hs[0].idempotencyKey == key then Some(hs[0]) else ByKey(hs[1..], key)
  }

  /** The revisions of one aggregate, in insertion order. */
  function Revisions(hs: seq<EventHeader>, aggregateId: string): seq<int> {
    if hs == [] then []
    else Revisions(hs[..|hs| - 1], aggregateId) + (
           if hs[|hs| - 1].aggregateId == aggregateId then [hs[|hs| - 1].revision] else [])
  }

  function AppendEvent(c: Scheme, db: Db, e: Event): Result<(Db, bool)> {
    var hs, h := Headers(db), e.header;
    if !e.Valid(c) then Err(AuthorityError)
    else match ById(hs, h.eventId)
      case Some(x) => if x.contentHash == h.contentHash then Ok((db, false)) else Err(AuthorityConflict)
      case None =>
        match ByKey(hs, h.idempotencyKey)
        case Some(x) => if x.contentHash == h.contentHash then Ok((db, false)) else Err(AuthorityConflict)
        case None =>
          var chain := Revisions(hs, h.aggregateId);
          if chain != [] && h.revision != Max(chain) + 1 then Err(AuthorityError)
          else if chain == [] && h.revision != 1 then Err(AuthorityError)
          else InsertOnce(db, RowOf(e))
  }

  /******* What the log keeps *******/

  ghost predicate Chained(db: Db) {
    forall a: string :: Revisions(Headers(db), a) == UpTo(|Revisions(Headers(db), a)|)
  }

  /** Every stored event is the row of some valid event. */
  ghost predicate Genuine(c: Scheme, db: Db) {
    forall r | r in db && r.EventRow? :: exists e: Event :: e.Valid(c) && r == RowOf(e)
  }

  ghost predicate LogInv(c: Scheme, db: Db) {
    Unique(db) && Chained(db) && Genuine(c, db)
  }

  lemma HeadersOfAppend(db: Db, r: Row)
    ensures Headers(db + [r]) == Headers(db) + if r.EventRow? then [r.header] else []
  {
    assert (db + [r])[..|db|] == db;
  }

  lemma RevisionsOfAppend(hs: seq<EventHeader>, h: EventHeader, a: string)
    ensures Revisions(hs + [h], a) == Revisions(hs, a) + if h.aggregateId == a then [h.revision] else []
  {
    assert (hs + [h])[..|hs|] == hs;
  }

  lemma {:induction false} HeadersAreRows(db: Db)
    ensures forall h :: h in Headers(db) <==> exists r :: r in db && r.EventRow? && r.header == h
  {
    if db != [] {
      var n := |db| - 1;
      HeadersAreRows(db[..n]);
      assert db == db[..n] + [db[n]];
      forall h ensures h in Headers(db) <==> exists r :: r in db && r.EventRow? && r.header == h {
        if h in Headers(db[..n]) { var r :| r in db[..n] && r.EventRow? && r.header == h; assert r in db; }
        if r :| r in db && r.EventRow? && r.header == h { assert r in db[..n] || r == db[n]; }
      }
    }
  }

  /** The guard of AppendEvent, seen from the accepted case. */
  lemma AcceptedRevision(c: Scheme, db: Db, e: Event)
    requires AppendEvent(c, db, e).Ok? && AppendEvent(c, db, e).value.1
    ensures AppendEvent(c, db, e).value.0 == db + [RowOf(e)] && e.Valid(c) && InsertOnce(db, RowOf(e)) == AppendEvent(c, db, e)
    ensures
      var chain := Revisions(Headers(db), e.header.aggregateId);
      e.header.revision == if chain == [] then 1 else Max(chain) + 1
  {
    InsertOnceFacts(db, RowOf(e));
    hide Event.Valid, RowOf, InsertOnce, Revisions, Max;
  }

  /** With a contiguous chain the accepted revision is the next one, so the chain stays contiguous. */
  lemma AppendKeepsChains(c: Scheme, db: Db, e: Event)
    requires Chained(db) && AppendEvent(c, db, e).Ok? && AppendEvent(c, db, e).value.1
    ensures Chained(db + [RowOf(e)])
  {
    var hs, h := Headers(db), e.header;
    AcceptedRevision(c, db, e);
    HeadersOfAppend(db, RowOf(e));
    hide AppendEvent, Max;
    forall a: string ensures Revisions(hs + [h], a) == UpTo(|Revisions(hs + [h], a)|) {
      RevisionsOfAppend(hs, h, a);
      var chain := Revisions(hs, a);
      assert chain == UpTo(|chain|);
      if h.aggregateId == a { ExtendChain(|chain|, h.revision); }
    }
  }

  lemma RepetitionKeepsRows(c: Scheme, db: Db, e: Event)
    requires AppendEvent(c, db, e).Ok? && !AppendEvent(c, db, e).value.1
    ensures AppendEvent(c, db, e).value.0 == db
  {
    InsertOnceFacts(db, RowOf(e));
    hide Event.Valid, RowOf, InsertOnce, Revisions, Max, Headers, Unique, Bound, Known;
  }

  /** One append, accepted or not: rows are only ever added, and the log stays in order. */
  lemma AppendKeepsLog(c: Scheme, db: Db, e: Event)
    requires LogInv(c, db) && AppendEvent(c, db, e).Ok?
    ensures var (db', flag) := AppendEvent(c, db, e).value; LogInv(c, db') && db' == if flag then db + [RowOf(e)] else db
  {
    if AppendEvent(c, db, e).value.1 {
      AcceptedRevision(c, db, e);
      hide AppendEvent, Chained, Unique, Genuine, Event.Valid;
      InsertOnceFacts(db, RowOf(e));
      AppendKeepsChains(c, db, e);
      GenuineGrows(c, db, e);
    } else {
      hide AppendEvent, Chained, Unique, Genuine;
      RepetitionKeepsRows(c, db, e);
    }
  }

  lemma GenuineGrows(c: Scheme, db: Db, e: Event)
    requires Genuine(c, db) && e.Valid(c)
    ensures Genuine(c, db + [RowOf(e)])
  {
    hide Event.Valid;
  }

  lemma HeaderStays(db: Db, later: Db, h: EventHeader)
    requires db <= later && h in Headers(db)
    ensures h in Headers(later)
  {
    HeadersAreRows(db);
    HeadersAreRows(later);
    hide Headers;
    var r :| r in db && r.EventRow? && r.header == h;
    assert r in later;
  }

  lemma {:induction false} RevisionIsListed(hs: seq<EventHeader>, h: EventHeader)
    requires h in hs
    ensures h.revision in Revisions(hs, h.aggregateId)
  {
    if hs[|hs| - 1] != h {
      assert hs == hs[..|hs| - 1] + [hs[|hs| - 1]];
      RevisionIsListed(hs[..|hs| - 1], h);
    }
  }

  /** With a new identifier, a new key and the next revision there is nothing to clash with. */
  lemma NextRevisionFits(db: Db, e: Event)
    requires Chained(db) && ById(Headers(db), e.header.eventId).None? && ByKey(Headers(db), e.header.idempotencyKey).None?
    requires e.header.revision == |Revisions(Headers(db), e.header.aggregateId)| + 1
    ensures InsertOnce(db, RowOf(e)) == Ok((db + [RowOf(e)], true))
  {
    var hs, h, chain := Headers(db), e.header, Revisions(Headers(db), e.header.aggregateId);
    HeadersAreRows(db);
    assert h.revision !in chain by { assert chain == UpTo(|chain|); }
    hide Headers, Revisions, Chained, ById, ByKey;
    forall q | q in db ensures !Clash(q, RowOf(e)) && !SameIdentity(q, RowOf(e)) {
      if q.EventRow? {
        assert q.header in hs;
        RevisionIsListed(hs, q.header);
      }
    }
    hide RowOf;
    FreshInsert(db, RowOf(e));
  }

  /** A valid event with a new identifier and key is accepted exactly when it is the next of its aggregate. */
  lemma AppendAcceptsExactly(c: Scheme, db: Db, e: Event)
    requires LogInv(c, db) && e.Valid(c)
    requires ById(Headers(db), e.header.eventId).None? && ByKey(Headers(db), e.header.idempotencyKey).None?
    ensures
      AppendEvent(c, db, e) ==
      if e.header.revision == |Revisions(Headers(db), e.header.aggregateId)| + 1 then Ok((db + [RowOf(e)], true))
      else Err(AuthorityError)
  {
    var chain := Revisions(Headers(db), e.header.aggregateId);
    assert Chained(db) && chain == UpTo(|chain|);
    if chain != [] { MaxOfUpTo(|chain|, Max(chain)); }
    if e.header.revision == |chain| + 1 { NextRevisionFits(db, e); }
    hide Event.Valid, Headers, Revisions, InsertOnce, LogInv, Chained, Max, RowOf;
  }

  /** Two stored events that share an identifier or a key are one. */
  lemma StoredHeaderIsUnique(db: Db, h: EventHeader, g: EventHeader)
    requires Unique(db) && h in Headers(db) && g in Headers(db)
    requires h.eventId == g.eventId || h.idempotencyKey == g.idempotencyKey
    ensures h == g
  {
    HeadersAreRows(db);
    hide Headers, Unique;
    var r :| r in db && r.EventRow? && r.header == h;
    var q :| q in db && q.EventRow? && q.header == g;
    SameKeySameRow(db, r, q);
  }

  /** Appending an event that is stored, however many events came after it, changes nothing. */
  lemma ReappendIsIdle(c: Scheme, db: Db, e: Event)
    requires LogInv(c, db) && e.Valid(c) && e.header in Headers(db)
    ensures AppendEvent(c, db, e) == Ok((db, false))
  {
    var x := ById(Headers(db), e.header.eventId).value;
    StoredHeaderIsUnique(db, x, e.header);
  }

  lemma SuccessMeansValid(c: Scheme, db: Db, e: Event)
    requires AppendEvent(c, db, e).Ok?
    ensures e.Valid(c)
  {
    hide Event.Valid;
  }

  /** The content hash picks out one row: the canonical payload text leaves no room for another. */
  lemma SameHashSameRow(c: Scheme, e: Event, f: Event)
    requires c.Ideal() && e.Valid(c) && f.Valid(c) && e.header.contentHash == f.header.contentHash
    ensures RowOf(e) == RowOf(f)
  {
    HashFixesEvent(c, e, f);
    assert WellFormed(e.payload) && WellFormed(f.payload);
    SameTextIffSameMeaning(e.payload, f.payload);
    hide Event.Valid, Denote, CanonicalText, WellFormed, Scheme.Ideal;
  }

  lemma GenuineRow(c: Scheme, db: Db, h: EventHeader) returns (f: Event)
    requires Genuine(c, db) && h in Headers(db)
    ensures f.Valid(c) && f.header == h && RowOf(f) in db
  {
    HeadersAreRows(db);
    hide Headers, Event.Valid;
    var r :| r in db && r.EventRow? && r.header == h;
    f :| f.Valid(c) && r == RowOf(f);
  }

  /** Success always means that the row of this very event is stored, whether it was inserted now or found. */
  lemma SuccessMeansStored(c: Scheme, db: Db, e: Event)
    requires c.Ideal() && LogInv(c, db) && AppendEvent(c, db, e).Ok?
    ensures
      var db' := AppendEvent(c, db, e).value.0;
      e.header in Headers(db') && RowOf(e) in db'
  {
    assert Genuine(c, db);
    hide *;
    SuccessMeansValid(c, db, e);
    AppendKeepsLog(c, db, e);
    if AppendEvent(c, db, e).value.1 {
      assert RowOf(e) in db + [RowOf(e)];
    } else {
      var x := RepeatedHeader(c, db, e);
      var f := GenuineRow(c, db, x);
      SameHashSameRow(c, e, f);
    }
    RowHasHeader(AppendEvent(c, db, e).value.0, e);
  }

  lemma RowHasHeader(db: Db, e: Event)
    requires RowOf(e) in db
    ensures e.header in Headers(db)
  {
    HeadersAreRows(db);
    hide Headers;
  }

  lemma IdentityIsKey(db: Db, e: Event)
    ensures Known(db, RowOf(e)) <==> ByKey(Headers(db), e.header.idempotencyKey).Some?
  {
    HeadersAreRows(db);
    forall q | q in db && SameIdentity(q, RowOf(e)) ensures q.EventRow? && q.header in Headers(db) {}
    if x :| x in Headers(db) && x.idempotencyKey == e.header.idempotencyKey {
      var r :| r in db && r.EventRow? && r.header == x;
      assert SameIdentity(r, RowOf(e));
    }
  }

  lemma RepeatedHeader(c: Scheme, db: Db, e: Event) returns (x: EventHeader)
    requires AppendEvent(c, db, e).Ok? && !AppendEvent(c, db, e).value.1
    ensures x in Headers(db) && x.contentHash == e.header.contentHash
  {
    InsertOnceFacts(db, RowOf(e));
    IdentityIsKey(db, e);
    hide Event.Valid, RowOf, InsertOnce, Known;
    var hs := Headers(db);
    if ById(hs, e.header.eventId).Some? {
      x := ById(hs, e.header.eventId).value;
    } else {
      x := ByKey(hs, e.header.idempotencyKey).value;
    }
  }

  /** A different event with the idempotency key of a stored one is a conflict, whatever its identifier. */
  lemma TakenKeyIsConflict(c: Scheme, db: Db, e: Event, f: Event)
    requires c.Ideal() && LogInv(c, db) && f.Valid(c) && e.header in Headers(db)
    requires f.header.idempotencyKey == e.header.idempotencyKey && f.header.contentHash != e.header.contentHash
    ensures AppendEvent(c, db, f) == Err(AuthorityConflict)
  {
    var x := ById(Headers(db), f.header.eventId);
    if x.Some? && x.value.contentHash == f.header.contentHash {
      StoredHashFixesHeader(c, db, x.value, f);
      StoredHeaderIsUnique(db, x.value, e.header);
    }
    var y := ByKey(Headers(db), f.header.idempotencyKey).value;
    StoredHeaderIsUnique(db, y, e.header);
    hide Event.Valid, Headers, LogInv, InsertOnce, Revisions;
  }

  lemma StoredHashFixesHeader(c: Scheme, db: Db, x: EventHeader, f: Event)
    requires c.Ideal() && LogInv(c, db) && f.Valid(c) && x in Headers(db) && x.contentHash == f.header.contentHash
    ensures x == f.header
  {
    HeadersAreRows(db);
    hide Event.Valid, Headers, Chained, Unique, Scheme.Ideal;
    var r :| r in db && r.EventRow? && r.header == x;
    var g: Event :| g.Valid(c) && r == RowOf(g);
    HashFixesEvent(c, f, g);
  }

  /******* Reading events back *******/

  function ReadRow(r: Row): Option<Event>
    requires r.EventRow?
  {
    match Loads(r.payloadText)
    case None => None
    case Some(payload) => Some(Event(r.header, payload))
  }

  /** What was appended reads back, passes validation again, and is the same event. */
  lemma StoredEventReadsBack(c: Scheme, e: Event)
    requires c.Ideal() && e.Valid(c)
    ensures
      var r := ReadRow(RowOf(e));
      && r.Some? && r.value.Valid(c)
      && r.value.header == e.header && Denote(r.value.payload) == Denote(e.payload)
      && RowOf(r.value) == RowOf(e)
  {
    LoadsCanonicalText(e.payload);
    CanonicalPayloadIsValid(c, e);
    LoadsKeepsMeaning(e.payload);
  }

  /** Reading never raises: every stored row gives a valid event, and that event has this very row. */
  lemma ReadingNeverRaises(c: Scheme, db: Db, r: Row)
    requires c.Ideal() && LogInv(c, db) && r in db && r.EventRow?
    ensures ReadRow(r).Some? && ReadRow(r).value.Valid(c) && RowOf(ReadRow(r).value) == r
  {
    assert Genuine(c, db);
    hide Event.Valid, Chained, Unique, Scheme.Ideal, ReadRow, RowOf;
    var e: Event :| e.Valid(c) && r == RowOf(e);
    StoredEventReadsBack(c, e);
  }
}
