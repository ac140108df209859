/** Capsule revisions and the hits that refer to them. */
module Capsules {
  import opened Json
  import opened Canonical
  import opened Sealing
  import opened Records
  import opened CapsuleColumns
  import opened Tables
  import opened Store

  function Key(capsuleId: string, revision: int): string {
    capsuleId + ":" + EmitInt(revision)
  }

  function RowOf(p: Capsule): Row {
    CapsuleRow(Key(p.capsuleId, p.revision), p)
  }

  /** The stored capsule revisions, in insertion order. */
  function Stored(db: Db): seq<Capsule> {
    if db == [] then []
    else Stored(db[..|db| - 1]) + (if db[|db| - 1].CapsuleRow? then [db[|db| - 1].capsule] else [])
  }

  function Revisions(ps: seq<Capsule>, capsuleId: string): seq<int> {
    if ps == [] then []
    else Revisions(ps[..|ps| - 1], capsuleId) + (
           if ps[|ps| - 1].capsuleId == capsuleId then [ps[|ps| - 1].revision] else [])
  }

  function Persist(c: Scheme, db: Db, p: Capsule): Result<(Db, bool)> {
    if !p.Valid(c) then Err(AuthorityError)
    else match Find(db, RowOf(p))
      case Some(q) => if q.Hash() == p.contentHash then Ok((db, false)) else Err(AuthorityConflict)
      case None =>
        var chain := Revisions(Stored(db), p.capsuleId);
        if chain != [] && p.revision != Max(chain) + 1 then Err(AuthorityError)
        else if chain == [] && p.revision != 1 then Err(AuthorityError)
        else if !c.IsRef(Key(p.capsuleId, p.revision)) then Err(AuthorityError)
        else InsertOnce(db, RowOf(p))
  }

  function FindRevision(ps: seq<Capsule>, capsuleId: string, revision: int): (r: Option<Capsule>)
    ensures r.Some? ==> r.value in ps && r.value.capsuleId == capsuleId && r.value.revision == revision
    ensures r.None? ==> forall p | p in ps :: p.capsuleId != capsuleId || p.revision != revision
  {
    if ps == [] then None
    else if ps[0].capsuleId == capsuleId && ps[0].revision == revision then Some(ps[0])
    else FindRevision(ps[1..], capsuleId, revision)
  }

  predicate Names(h: Hit, p: Capsule) {
    && h.capsuleId == p.capsuleId && h.capsuleRevision == p.revision
    && h.matchedFingerprint == p.fingerprint && h.capsuleContentHash == p.contentHash
  }

  function RecordHit(c: Scheme, db: Db, h: Hit): Result<(Db, bool)> {
    if !h.Valid(c) then Err(AuthorityError)
    else match FindRevision(Stored(db), h.capsuleId, h.capsuleRevision)
      case None => Err(AuthorityError)
      case Some(p) => if !Names(h, p) then Err(AuthorityError) else InsertOnce(db, HitRow(h))
  }

  /******* The record key *******/

  lemma {:induction false} DecimalHasNoColon(n: nat)
    ensures ':' !in Decimal(n)
  {
    if n >= 10 { DecimalHasNoColon(n / 10); }
  }

  lemma DecimalIsInjective(m: nat, n: nat)
    requires Decimal(m) == Decimal(n)
    ensures m == n
  {
    ReadDecimal(m, "");
    ReadDecimal(n, "");
    assert Decimal(m) + "" == Decimal(n) + "";
  }

  lemma NoLaterColon(a: string, d: string)
    requires ':' !in d
    ensures (a + ":" + d)[|a|] == ':' && forall i | |a| < i < |a| + 1 + |d| :: (a + ":" + d)[i] != ':'
  {
    forall i | |a| < i < |a| + 1 + |d| ensures (a + ":" + d)[i] != ':' { assert (a + ":" + d)[i] == d[i - |a| - 1]; }
  }

  lemma LastColon(a: string, d: string, b: string, e: string)
    requires a + ":" + d == b + ":" + e && ':' !in d && ':' !in e
    ensures a == b && d == e
  {
    var s := a + ":" + d;
    NoLaterColon(a, d);
    NoLaterColon(b, e);
    assert |a| == |b|;
    assert s[..|a|] == a && s[..|b|] == b && s[|a| + 1..] == d && s[|b| + 1..] == e;
  }

  /** The key tells capsule revisions apart even when identifiers contain colons and digits. */
  lemma KeyIsInjective(a: string, m: int, b: string, n: int)
    requires m >= 0 && n >= 0
    ensures Key(a, m) == Key(b, n) <==> a == b && m == n
  {
    if Key(a, m) == Key(b, n) {
      DecimalHasNoColon(m);
      DecimalHasNoColon(n);
      LastColon(a, Decimal(m), b, Decimal(n));
      DecimalIsInjective(m, n);
    }
  }

  /******* What the tables keep *******/

  ghost predicate Chained(db: Db) {
    forall a: string :: Revisions(Stored(db), a) == UpTo(|Revisions(Stored(db), a)|)
  }

  ghost predicate Keyed(c: Scheme, db: Db) {
    forall r | r in db && r.CapsuleRow? :: r == RowOf(r.capsule) && r.capsule.Valid(c)
  }

  ghost predicate HitsAreFounded(c: Scheme, db: Db) {
    forall r | r in db && r.HitRow? :: r.hit.Valid(c) && exists p | p in Stored(db) :: Names(r.hit, p)
  }

  ghost predicate CapsuleInv(c: Scheme, db: Db) {
    Unique(db) && Chained(db) && Keyed(c, db) && HitsAreFounded(c, db)
  }

  lemma StoredOfAppend(db: Db, r: Row)
    ensures Stored(db + [r]) == Stored(db) + if r.CapsuleRow? then [r.capsule] else []
  {
    assert (db + [r])[..|db|] == db;
  }

  lemma RevisionsOfAppend(ps: seq<Capsule>, p: Capsule, a: string)
    ensures Revisions(ps + [p], a) == Revisions(ps, a) + if p.capsuleId == a then [p.revision] else []
  {
    assert (ps + [p])[..|ps|] == ps;
  }

  lemma {:induction false} StoredAreRows(db: Db)
    ensures forall p :: p in Stored(db) <==> exists r :: r in db && r.CapsuleRow? && r.capsule == p
  {
    if db != [] {
      var n := |db| - 1;
      StoredAreRows(db[..n]);
      assert db == db[..n] + [db[n]];
      forall p ensures p in Stored(db) <==> exists r :: r in db && r.CapsuleRow? && r.capsule == p {
        if p in Stored(db[..n]) { var r :| r in db[..n] && r.CapsuleRow? && r.capsule == p; assert r in db; }
        if r :| r in db && r.CapsuleRow? && r.capsule == p { assert r in db[..n] || r == db[n]; }
      }
    }
  }

  lemma AcceptedCapsule(c: Scheme, db: Db, p: Capsule)
    requires Persist(c, db, p).Ok? && Persist(c, db, p).value.1
    ensures Persist(c, db, p) == InsertOnce(db, RowOf(p)) && p.Valid(c)
    ensures
      var chain := Revisions(Stored(db), p.capsuleId);
      p.revision == if chain == [] then 1 else Max(chain) + 1
  {
    hide Capsule.Valid, InsertOnce, Revisions, Stored, Max, RowOf, Scheme.IsReference;
  }

  lemma CapsuleChainsGrow(ps: seq<Capsule>, p: Capsule, a: string)
    requires forall x: string :: Revisions(ps, x) == UpTo(|Revisions(ps, x)|)
    requires
      var chain := Revisions(ps, p.capsuleId);
      p.revision == if chain == [] then 1 else Max(chain) + 1
    ensures Revisions(ps + [p], a) == UpTo(|Revisions(ps + [p], a)|)
  {
    RevisionsOfAppend(ps, p, a);
    var chain := Revisions(ps, a);
    assert chain == UpTo(|chain|);
    hide Max, Revisions;
    if p.capsuleId == a { ExtendChain(|chain|, p.revision); }
  }

  /** A new row that is not a hit leaves every stored hit founded. */
  lemma FoundedGrows(c: Scheme, db: Db, r: Row)
    requires HitsAreFounded(c, db)
    requires r.HitRow? ==> r.hit.Valid(c) && exists p | p in Stored(db) :: Names(r.hit, p)
    ensures HitsAreFounded(c, db + [r])
  {
    StoredOfAppend(db, r);
    hide Hit.Valid, Names, Stored;
    var ps := Stored(db);
    assert forall p | p in ps :: p in Stored(db + [r]);
    forall q | q in db + [r] && q.HitRow? ensures q.hit.Valid(c) && exists p | p in Stored(db + [r]) :: Names(q.hit, p) {
      assert q in db || q == r;
      var p :| p in ps && Names(q.hit, p);
      assert p in Stored(db + [r]);
    }
  }

  lemma KeyedGrows(c: Scheme, db: Db, r: Row)
    requires Keyed(c, db) && (r.CapsuleRow? ==> r == RowOf(r.capsule) && r.capsule.Valid(c))
    ensures Keyed(c, db + [r])
  {
    hide Capsule.Valid, RowOf;
  }

  lemma CapsuleInvGrows(c: Scheme, db: Db, p: Capsule)
    requires CapsuleInv(c, db) && Unique(db + [RowOf(p)]) && p.Valid(c)
    requires
      var chain := Revisions(Stored(db), p.capsuleId);
      p.revision == if chain == [] then 1 else Max(chain) + 1
    ensures CapsuleInv(c, db + [RowOf(p)])
  {
    StoredOfAppend(db, RowOf(p));
    FoundedGrows(c, db, RowOf(p));
    KeyedGrows(c, db, RowOf(p));
    hide Unique, Keyed, HitsAreFounded, Max, Stored, Revisions, Capsule.Valid;
    forall a: string ensures Revisions(Stored(db) + [p], a) == UpTo(|Revisions(Stored(db) + [p], a)|) {
      CapsuleChainsGrow(Stored(db), p, a);
    }
  }

  /** Persisting a capsule, accepted or not, keeps every revision chain 1..n and every hit founded. */
  lemma PersistKeepsCapsules(c: Scheme, db: Db, p: Capsule)
    requires CapsuleInv(c, db) && Persist(c, db, p).Ok?
    ensures
      var (db', flag) := Persist(c, db, p).value;
      CapsuleInv(c, db') && db' == if flag then db + [RowOf(p)] else db
  {
    assert Unique(db);
    if Persist(c, db, p).value.1 {
      AcceptedCapsule(c, db, p);
      hide *;
      InsertedRow(db, RowOf(p));
      CapsuleInvGrows(c, db, p);
    } else {
      RepeatedCapsule(c, db, p);
      hide *;
    }
  }

  lemma RepeatedCapsule(c: Scheme, db: Db, p: Capsule)
    requires Persist(c, db, p).Ok? && !Persist(c, db, p).value.1
    ensures Persist(c, db, p).value.0 == db && Bound(db, RowOf(p))
  {
    InsertOnceFacts(db, RowOf(p));
    hide Capsule.Valid, InsertOnce, Revisions, Stored, Max, Unique, SameIdentity, Known, Scheme.IsReference;
  }

  lemma AcceptedHit(c: Scheme, db: Db, h: Hit)
    requires RecordHit(c, db, h).Ok?
    ensures RecordHit(c, db, h) == InsertOnce(db, HitRow(h)) && h.Valid(c)
    ensures exists p | p in Stored(db) :: Names(h, p)
  {
    hide Hit.Valid, InsertOnce, Stored, Names;
  }

  lemma HitInvGrows(c: Scheme, db: Db, h: Hit)
    requires CapsuleInv(c, db) && Unique(db + [HitRow(h)]) && h.Valid(c) && exists p | p in Stored(db) :: Names(h, p)
    ensures CapsuleInv(c, db + [HitRow(h)])
  {
    hide Hit.Valid, Capsule.Valid, Names, Unique, Revisions, Stored, HitsAreFounded, Keyed;
    FoundedGrows(c, db, HitRow(h));
    KeyedGrows(c, db, HitRow(h));
    StoredOfAppend(db, HitRow(h));
    assert Stored(db + [HitRow(h)]) == Stored(db);
  }

  /** A hit that names no stored capsule revision, or names it wrongly, is refused; the rest keep the tables. */
  lemma RecordHitKeepsCapsules(c: Scheme, db: Db, h: Hit)
    requires CapsuleInv(c, db) && RecordHit(c, db, h).Ok?
    ensures
      var (db', flag) := RecordHit(c, db, h).value;
      && CapsuleInv(c, db') && db' == (if flag then db + [HitRow(h)] else db)
      && Bound(db', HitRow(h)) && exists p | p in Stored(db) :: Names(h, p)
  {
    AcceptedHit(c, db, h);
    assert Unique(db);
    hide *;
    InsertOnceFacts(db, HitRow(h));
    if InsertOnce(db, HitRow(h)).value.1 { HitInvGrows(c, db, h); }
  }

  lemma RowOfStored(c: Scheme, db: Db, p: Capsule)
    requires Keyed(c, db) && p in Stored(db)
    ensures RowOf(p) in db && p.Valid(c)
  {
    StoredAreRows(db);
    hide Capsule.Valid, Stored, RowOf;
  }

  lemma SameNumberSameRow(p: Capsule, q: Capsule)
    requires p.capsuleId == q.capsuleId && p.revision == q.revision
    ensures Clash(RowOf(p), RowOf(q))
    ensures RowOf(p) == RowOf(q) <==> p == q
  {
    hide Key;
  }

  /** A stored revision is found by its number: no two rows claim one number. */
  lemma RevisionIsFound(c: Scheme, db: Db, p: Capsule)
    requires CapsuleInv(c, db) && p in Stored(db)
    ensures FindRevision(Stored(db), p.capsuleId, p.revision) == Some(p)
  {
    assert Unique(db) && Keyed(c, db);
    hide *;
    var q := FindRevision(Stored(db), p.capsuleId, p.revision).value;
    RowOfStored(c, db, p);
    RowOfStored(c, db, q);
    SameNumberSameRow(p, q);
    SameKeySameRow(db, RowOf(p), RowOf(q));
  }

  lemma SuccessBinds(c: Scheme, db: Db, p: Capsule)
    requires Persist(c, db, p).Ok?
    ensures p.Valid(c) && Bound(Persist(c, db, p).value.0, RowOf(p))
  {
    InsertOnceFacts(db, RowOf(p));
    if Persist(c, db, p).value.1 { AcceptedCapsule(c, db, p); } else { RepeatedCapsule(c, db, p); }
    hide Capsule.Valid, InsertOnce, Revisions, Stored, Max, Unique, Bound, Known, Scheme.IsReference, RowOf;
  }

  lemma BoundIsIdle(c: Scheme, db: Db, p: Capsule)
    requires CapsuleInv(c, db) && p.Valid(c) && Bound(db, RowOf(p))
    ensures Persist(c, db, p) == Ok((db, false))
  {
    BoundIsPresent(db, RowOf(p));
    hide Capsule.Valid, Revisions, Stored, Max, Unique, Bound, Scheme.IsReference, CapsuleInv;
  }

  lemma BoundHitIsIdle(c: Scheme, db: Db, h: Hit)
    requires CapsuleInv(c, db) && h.Valid(c) && Bound(db, HitRow(h)) && exists p | p in Stored(db) :: Names(h, p)
    ensures RecordHit(c, db, h) == Ok((db, false))
  {
    BoundIsPresent(db, HitRow(h));
    hide Hit.Valid, Stored, InsertOnce, Unique, Bound, CapsuleInv;
    var p :| p in Stored(db) && Names(h, p);
    RevisionIsFound(c, db, p);
  }

  lemma {:induction false} RevisionIsListed(ps: seq<Capsule>, p: Capsule)
    requires p in ps
    ensures p.revision in Revisions(ps, p.capsuleId)
  {
    if ps[|ps| - 1] != p {
      assert ps == ps[..|ps| - 1] + [ps[|ps| - 1]];
      RevisionIsListed(ps[..|ps| - 1], p);
    }
  }

  /** The next revision has a key nothing stored has. */
  lemma NextCapsuleFits(c: Scheme, db: Db, p: Capsule)
    requires CapsuleInv(c, db) && p.revision == |Revisions(Stored(db), p.capsuleId)| + 1
    ensures InsertOnce(db, RowOf(p)) == Ok((db + [RowOf(p)], true)) && Find(db, RowOf(p)).None?
  {
    var chain := Revisions(Stored(db), p.capsuleId);
    assert Keyed(c, db) && chain == UpTo(|chain|);
    assert p.revision !in chain;
    StoredAreRows(db);
    hide Stored, Revisions, CapsuleInv, Capsule.Valid, Key;
    forall q | q in db ensures !Clash(q, RowOf(p)) && !SameIdentity(q, RowOf(p)) {
      if q.CapsuleRow? {
        assert q == RowOf(q.capsule) && q.capsule in Stored(db);
        RevisionIsListed(Stored(db), q.capsule);
        CapsuleIsPositive(c, q.capsule);
        KeyIsInjective(q.capsule.capsuleId, q.capsule.revision, p.capsuleId, p.revision);
      }
    }
    hide RowOf;
    FreshInsert(db, RowOf(p));
  }

  lemma CapsuleIsPositive(c: Scheme, p: Capsule)
    requires p.Valid(c)
    ensures p.revision >= 1
  {
    hide Scheme.Sealed;
  }

  /** A valid capsule whose key is new is accepted exactly when it is the next revision and its key is a reference. */
  lemma PersistAcceptsExactly(c: Scheme, db: Db, p: Capsule)
    requires CapsuleInv(c, db) && p.Valid(c) && Find(db, RowOf(p)).None?
    ensures
      Persist(c, db, p) ==
      if p.revision == |Revisions(Stored(db), p.capsuleId)| + 1 && c.IsRef(Key(p.capsuleId, p.revision))
      then Ok((db + [RowOf(p)], true)) else Err(AuthorityError)
  {
    var chain := Revisions(Stored(db), p.capsuleId);
    assert chain == UpTo(|chain|);
    if chain != [] { MaxOfUpTo(|chain|, Max(chain)); }
    if p.revision == |chain| + 1 { NextCapsuleFits(c, db, p); }
    hide Capsule.Valid, Stored, Revisions, InsertOnce, CapsuleInv, Max, RowOf, Key, Scheme.IsReference;
  }

  /** A hit is refused exactly when it is invalid or no stored capsule revision is what it names. */
  lemma HitsAreRefusedExactly(c: Scheme, db: Db, h: Hit)
    requires CapsuleInv(c, db)
    ensures RecordHit(c, db, h) == Err(AuthorityError) <==> !h.Valid(c) || !exists p | p in Stored(db) :: Names(h, p)
  {
    hide Hit.Valid, Stored, CapsuleInv, InsertOnce;
    InsertIsNoError(db, HitRow(h));
    if p :| p in Stored(db) && Names(h, p) { RevisionIsFound(c, db, p); }
  }

  lemma InsertIsNoError(db: Db, r: Row)
    ensures InsertOnce(db, r) != Err(AuthorityError)
  {
  }

  /******* Searching *******/

  /** The clause of the query, on the columns of a row. */
  predicate Matches(k: Columns, fingerprint: string, kind: Option<CapsuleKind>) {
    k.fingerprint == fingerprint && (kind.Some? ==> k.kind == kind.value.Name()) && k.revision > 0 && k.evidence != "[]"
  }

  predicate Before(p: Capsule, q: Capsule) {
    p.revision < q.revision || (p.revision == q.revision && (p.capsuleId == q.capsuleId || KeyLess(p.capsuleId, q.capsuleId)))
  }

  function Place(p: Capsule, ps: seq<Capsule>): seq<Capsule> {
    if ps == [] || Before(p, ps[0]) then [p] + ps else [ps[0]] + Place(p, ps[1..])
  }

  /** The rows WHERE the clause holds ORDER BY revision, capsule_id. */
  function Search(ps: seq<Capsule>, fingerprint: string, kind: Option<CapsuleKind>): seq<Capsule> {
    if ps == [] then []
    else var rest := Search(ps[1..], fingerprint, kind);
         if Matches(ColumnsOf(ps[0]), fingerprint, kind) then Place(ps[0], rest) else rest
  }

  predicate Ordered(ps: seq<Capsule>) {
    forall i, j | 0 <= i < j < |ps| :: Before(ps[i], ps[j])
  }

  lemma BeforeIsTransitive(p: Capsule, q: Capsule, r: Capsule)
    requires Before(p, q) && Before(q, r)
    ensures Before(p, r)
  {
    if p.revision == q.revision == r.revision && p.capsuleId != q.capsuleId && q.capsuleId != r.capsuleId {
      KeyLessTransitive(p.capsuleId, q.capsuleId, r.capsuleId);
    }
  }

  lemma BeforeIsTotal(p: Capsule, q: Capsule)
    ensures Before(p, q) || Before(q, p)
  {
    KeyLessTotal(p.capsuleId, q.capsuleId);
  }

  lemma {:induction false} PlaceKeepsRows(p: Capsule, ps: seq<Capsule>)
    ensures multiset(Place(p, ps)) == multiset(ps) + multiset{p}
  {
    hide Before;
    if ps != [] {
      assert ps == [ps[0]] + ps[1..];
      PlaceKeepsRows(p, ps[1..]);
    }
  }

  lemma OrderedCons(p: Capsule, ps: seq<Capsule>)
    requires Ordered(ps) && forall x | x in ps :: Before(p, x)
    ensures Ordered([p] + ps)
  {
    hide Before;
  }

  lemma {:induction false} PlaceKeepsOrder(p: Capsule, ps: seq<Capsule>)
    requires Ordered(ps)
    ensures Ordered(Place(p, ps))
  {
    if ps == [] {
    } else if Before(p, ps[0]) {
      hide Before;
      forall j | 0 <= j < |ps| ensures Before(p, ps[j]) { if j > 0 { BeforeIsTransitive(p, ps[0], ps[j]); } }
      OrderedCons(p, ps);
    } else {
      hide Before;
      PlaceKeepsOrder(p, ps[1..]);
      PlaceKeepsRows(p, ps[1..]);
      BeforeIsTotal(p, ps[0]);
      forall x | x in Place(p, ps[1..]) ensures Before(ps[0], x) { assert x in multiset(Place(p, ps[1..])); }
      OrderedCons(ps[0], Place(p, ps[1..]));
    }
  }

  /** A search returns every stored capsule that matches, each as often as it is stored, and nothing else, in order. */
  lemma {:induction false} SearchIsExact(ps: seq<Capsule>, fingerprint: string, kind: Option<CapsuleKind>, p: Capsule)
    ensures
      var found := Search(ps, fingerprint, kind);
      && Ordered(found)
      && multiset(found)[p] == if Matches(ColumnsOf(p), fingerprint, kind) then multiset(ps)[p] else 0
  {
    hide *;
    SearchStep(ps, fingerprint, kind);
    if ps == [] {
      NothingIsOrdered();
    } else {
      SearchIsExact(ps[1..], fingerprint, kind, p);
      PlaceKeepsOrder(ps[0], Search(ps[1..], fingerprint, kind));
      PlaceKeepsRows(ps[0], Search(ps[1..], fingerprint, kind));
      assert ps == [ps[0]] + ps[1..];
    }
  }

  lemma SearchStep(ps: seq<Capsule>, fingerprint: string, kind: Option<CapsuleKind>)
    ensures
      Search(ps, fingerprint, kind) ==
      if ps == [] then []
      else if Matches(ColumnsOf(ps[0]), fingerprint, kind) then Place(ps[0], Search(ps[1..], fingerprint, kind))
      else Search(ps[1..], fingerprint, kind)
  {
    hide Matches, ColumnsOf, Place;
  }

  lemma NothingIsOrdered()
    ensures Ordered([])
  {
  }

  /** Over the rows the store accepts, the clause asks for the fingerprint and the kind and excludes nothing else. */
  lemma SearchFindsEveryPersisted(c: Scheme, db: Db, p: Capsule, fingerprint: string, kind: Option<CapsuleKind>)
    requires CapsuleInv(c, db) && p in Stored(db)
    ensures p in Search(Stored(db), fingerprint, kind) <==> p.fingerprint == fingerprint && (kind.Some? ==> p.kind == kind.value)
  {
    hide *;
    var ps := Stored(db);
    KeyedIsKept(c, db);
    RowOfStored(c, db, p);
    SearchIsExact(ps, fingerprint, kind, p);
    ValidColumnsMatch(c, p, fingerprint, kind);
    assert p in multiset(ps);
    assert p in Search(ps, fingerprint, kind) <==> p in multiset(Search(ps, fingerprint, kind));
  }

  lemma KeyedIsKept(c: Scheme, db: Db)
    requires CapsuleInv(c, db)
    ensures Keyed(c, db)
  {
  }

  lemma ValidColumnsMatch(c: Scheme, p: Capsule, fingerprint: string, kind: Option<CapsuleKind>)
    requires p.Valid(c)
    ensures Matches(ColumnsOf(p), fingerprint, kind) <==> p.fingerprint == fingerprint && (kind.Some? ==> p.kind == kind.value)
  {
    EmptyEvidenceText(p.evidence);
    assert p.evidence != [] && p.revision > 0;
    hide CanonicalText, Capsule.Valid, ReferenceArray, TextArray;
    assert "failure"[0] == 'f' && "process"[0] == 'p';
  }

  /** What a search reads back from the rows it found; None means that a row does not read. */
  function ReadFound(ps: seq<Capsule>): Option<seq<Capsule>> {
    if ps == [] then Some([])
    else match (FromColumns(ColumnsOf(ps[0])), ReadFound(ps[1..]))
      case (Some(p), Some(rest)) => Some([p] + rest)
      case _ => None
  }

  lemma {:induction false} FoundReadsBack(ps: seq<Capsule>)
    ensures ReadFound(ps) == Some(ps)
  {
    hide FromColumns, ColumnsOf;
    if ps != [] {
      CapsuleReadsBack(ps[0]);
      FoundReadsBack(ps[1..]);
      assert ps == [ps[0]] + ps[1..];
    }
  }

  /** A search never raises on what the store accepted: every row it finds reads back as the valid capsule that was stored. */
  lemma SearchReadsBack(c: Scheme, db: Db, fingerprint: string, kind: Option<CapsuleKind>)
    requires CapsuleInv(c, db)
    ensures
      var found := ReadFound(Search(Stored(db), fingerprint, kind));
      && found == Some(Search(Stored(db), fingerprint, kind))
      && forall p | p in found.value :: p.Valid(c) && p in Stored(db)
  {
    hide *;
    var ps := Stored(db);
    FoundReadsBack(Search(ps, fingerprint, kind));
    KeyedIsKept(c, db);
    forall p | p in Search(ps, fingerprint, kind) ensures p.Valid(c) && p in ps {
      SearchIsExact(ps, fingerprint, kind, p);
      assert multiset(Search(ps, fingerprint, kind))[p] > 0;
      assert multiset(ps)[p] > 0;
      RowOfStored(c, db, p);
    }
  }

  class CapsuleAuthority {
    const store: AuthorityStore

    constructor (store: AuthorityStore)
      ensures this.store == store
    {
      this.store := store;
    }

    method PersistCapsule(c: Scheme, p: Capsule) returns (res: Result<bool>)
      requires store.Valid()
      modifies store
      ensures store.Valid()
      ensures
        match Persist(c, old(store.committed), p)
        case Ok((db, flag)) => res == Ok(flag) && store.committed == db
        case Err(error) => res == Err(error) && store.committed == old(store.committed)
    {
      hide Capsule.Valid, InsertOnce, Stored, Revisions, RowOf, Row.Hash, Scheme.IsReference;
      if !p.Valid(c) { return Err(AuthorityError); }
      var existing := Find(store.working, RowOf(p));
      if existing.Some? {
        if existing.value.Hash() == p.contentHash { return Ok(false); }
        return Err(AuthorityConflict);
      }
      var chain := Revisions(Stored(store.working), p.capsuleId);
      if chain != [] && p.revision != Max(chain) + 1 { return Err(AuthorityError); }
      if chain == [] && p.revision != 1 { return Err(AuthorityError); }
      if !c.IsRef(Key(p.capsuleId, p.revision)) { return Err(AuthorityError); }
      res := store.AppendRecord(RowOf(p));
    }

    method RecordCapsuleHit(c: Scheme, h: Hit) returns (res: Result<bool>)
      requires store.Valid()
      modifies store
      ensures store.Valid()
      ensures
        match RecordHit(c, old(store.committed), h)
        case Ok((db, flag)) => res == Ok(flag) && store.committed == db
        case Err(error) => res == Err(error) && store.committed == old(store.committed)
    {
      hide Hit.Valid, InsertOnce, Stored, Names;
      if !h.Valid(c) { return Err(AuthorityError); }
      var found := FindRevision(Stored(store.working), h.capsuleId, h.capsuleRevision);
      if found.None? || !Names(h, found.value) { return Err(AuthorityError); }
      res := store.AppendRecord(HitRow(h));
    }
  }
}
