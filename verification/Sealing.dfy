/** Records sealed by a hash of their own canonical text. */
module Sealing {
  import opened Json
  import opened Canonical

  const MAX_DEPTH: nat := 8
  const FORBIDDEN: set<string> := {
    "prompt", "prompt_text", "body", "content", "secret", "api_key", "apikey", "password", "authorization",
    "access_token", "token", "credential", "result_text", "output", "message", "text", "input", "arguments", "response"
  }

  /** The digest of a text, the format test on digests, Python's case folding, and its notion of white space. */
  datatype Scheme = Scheme(digest: string -> string, isHash: string -> bool, fold: string -> string, space: char -> bool) {
    /** No two texts share a digest, and every digest passes the format test. */
    ghost predicate Ideal() {
      && (forall t: string :: isHash(digest(t)))
      && (forall t: string, u: string :: digest(t) == digest(u) ==> t == u)
    }

    /** A bounded opaque reference: neither empty nor too long, no white space, no control character. */
    predicate IsReference(s: string, max: nat) {
      1 <= |s| <= max && forall i | 0 <= i < |s| :: !space(s[i]) && s[i] >= ' '
    }

    predicate IsIdentifier(s: string) {
      IsReference(s, 512)
    }

    predicate IsRef(s: string) {
      IsReference(s, 2048)
    }

    function Hash(v: Json): string {
      digest(CanonicalText(v))
    }

    /** The values an authority record may hold. */
    predicate Safe(v: Json, depth: nat)
      decreases v
    {
      depth <= MAX_DEPTH &&
      match v
      case Obj(ms) => forall i | 0 <= i < |ms| :: fold(ms[i].key) !in FORBIDDEN && Safe(ms[i].value, depth + 1)
      case Arr(items) => forall i | 0 <= i < |items| :: Safe(items[i], depth + 1)
      case Str(s) => forall i | 0 <= i < |s| :: s[i] >= ' '
      case _ => true
    }

    /** Drops an existing seal and appends the hash of what is left. */
    function Seal(ms: seq<Member>, field: string): seq<Member> {
      Remove(ms, field) + [Member(field, Str(Hash(Obj(Remove(ms, field)))))]
    }

    predicate Sealed(ms: seq<Member>, field: string) {
      var seal := Lookup(ms, field);
      && seal.Some? && seal.value.Str? && isHash(seal.value.s)
      && Safe(Obj(Remove(ms, field)), 0)
      && seal.value.s == Hash(Obj(Remove(ms, field)))
    }
  }

  function Remove(ms: seq<Member>, field: string): seq<Member> {
    if ms == [] then []
    else if ms[0].key == field then Remove(ms[1..], field)
    else [ms[0]] + Remove(ms[1..], field)
  }

  function Lookup(ms: seq<Member>, field: string): Option<Json> {
    if ms == [] then None
    else if ms[0].key == field then Some(ms[0].value)
    else Lookup(ms[1..], field)
  }

  lemma {:induction false} RemoveDropsTheField(ms: seq<Member>, field: string)
    ensures forall m :: m in Remove(ms, field) <==> m in ms && m.key != field
  {
    if ms != [] {
      RemoveDropsTheField(ms[1..], field);
      assert ms == [ms[0]] + ms[1..];
    }
  }

  lemma {:induction false} LookupFindsAMember(ms: seq<Member>, field: string)
    ensures Lookup(ms, field).Some? ==> Member(field, Lookup(ms, field).value) in ms
    ensures Lookup(ms, field).None? <==> forall m | m in ms :: m.key != field
  {
    if ms != [] {
      LookupFindsAMember(ms[1..], field);
      assert ms == [ms[0]] + ms[1..];
    }
  }

  lemma {:induction false} RemoveKeepsWellFormed(ms: seq<Member>, field: string)
    requires WellFormed(Obj(ms))
    ensures WellFormed(Obj(Remove(ms, field)))
  {
    if ms != [] {
      RemoveKeepsWellFormed(ms[1..], field);
      RemoveDropsTheField(ms[1..], field);
      var r := Remove(ms[1..], field);
      forall i | 0 <= i < |r| ensures r[i].key != ms[0].key { assert r[i] in ms[1..]; }
    }
  }

  lemma {:induction false} RemoveIsLocal(ms: seq<Member>, field: string, v: Json)
    requires forall m | m in ms :: m.key != field
    ensures Remove(ms, field) == ms
    ensures Remove(ms + [Member(field, v)], field) == ms
    ensures Lookup(ms + [Member(field, v)], field) == Some(v)
  {
    if ms != [] {
      RemoveIsLocal(ms[1..], field, v);
      assert (ms + [Member(field, v)])[1..] == ms[1..] + [Member(field, v)];
      assert ms == [ms[0]] + ms[1..];
    } else {
      assert ms + [Member(field, v)] == [Member(field, v)];
    }
  }

  /** What Seal returns passes the seal check, and sealing it again changes nothing. */
  lemma SealThenCheck(c: Scheme, ms: seq<Member>, field: string)
    requires c.Ideal()
    ensures c.Sealed(c.Seal(ms, field), field) <==> c.Safe(Obj(Remove(ms, field)), 0)
    ensures c.Seal(c.Seal(ms, field), field) == c.Seal(ms, field)
  {
    var r := Remove(ms, field);
    RemoveDropsTheField(ms, field);
    RemoveIsLocal(r, field, Str(c.Hash(Obj(r))));
  }

  /** A sealed object is its payload and its seal. */
  lemma GraphOfSealed(ms: seq<Member>, field: string, v: Json)
    requires DistinctKeys(ms) && Lookup(ms, field) == Some(v)
    ensures Graph(ms) == Graph(Remove(ms, field)) + {(field, Denote(v))}
    ensures forall d :: (field, d) !in Graph(Remove(ms, field))
  {
    hide Denote;
    RemoveDropsTheField(ms, field);
    LookupFindsAMember(ms, field);
    var r := Remove(ms, field);
    forall p ensures p in Graph(ms) <==> p in Graph(r) + {(field, Denote(v))} {
      if p in Graph(ms) {
        var i := GraphIndex(ms, p);
        assert ms[i] in ms;
        if ms[i].key == field { assert ms[i] == Member(field, v); } else { assert ms[i] in r; }
      }
    }
  }

  lemma {:induction false} SafeDependsOnCanon(c: Scheme, v: Json, depth: nat)
    requires WellFormed(v)
    ensures c.Safe(Canon(v), depth) <==> c.Safe(v, depth)
    decreases v
  {
    match v
    case Arr(items) =>
      forall i | 0 <= i < |items| ensures c.Safe(CanonItems(items)[i], depth + 1) <==> c.Safe(items[i], depth + 1) {
        SafeDependsOnCanon(c, items[i], depth + 1);
      }
    case Obj(ms) =>
      forall i | 0 <= i < |ms| ensures c.Safe(CanonMembers(ms)[i].value, depth + 1) <==> c.Safe(ms[i].value, depth + 1) {
        SafeDependsOnCanon(c, ms[i].value, depth + 1);
      }
      SafeMembers(c, ms, depth);
    case _ =>
  }

  lemma SafeMembers(c: Scheme, ms: seq<Member>, depth: nat)
    requires DistinctKeys(ms)
    requires forall i | 0 <= i < |ms| :: c.Safe(CanonMembers(ms)[i].value, depth + 1) <==> c.Safe(ms[i].value, depth + 1)
    ensures c.Safe(Obj(Sort(CanonMembers(ms))), depth) <==> c.Safe(Obj(ms), depth)
  {
    var cs := CanonMembers(ms);
    var ss := Sort(cs);
    CanonMembersAreDistinct(ms);
    SortSorts(cs);
    assert forall m :: m in ss <==> m in cs by {
      forall m ensures m in ss <==> m in cs { assert m in Elements(ss) <==> m in Elements(cs); }
    }
    SafeIsMembership(c, ss, depth);
    SafeIsMembership(c, cs, depth);
    assert c.Safe(Obj(cs), depth) <==> c.Safe(Obj(ms), depth);
  }

  lemma SafeIsMembership(c: Scheme, ms: seq<Member>, depth: nat)
    ensures c.Safe(Obj(ms), depth) <==>
              depth <= MAX_DEPTH && forall m | m in ms :: c.fold(m.key) !in FORBIDDEN && c.Safe(m.value, depth + 1)
  {
  }

  lemma SafeDependsOnMeaning(c: Scheme, v: Json, w: Json, depth: nat)
    requires WellFormed(v) && WellFormed(w) && Denote(v) == Denote(w)
    ensures c.Safe(v, depth) <==> c.Safe(w, depth)
  {
    MeaningFixesCanon(v, w);
    SafeDependsOnCanon(c, v, depth);
    SafeDependsOnCanon(c, w, depth);
  }

  /**
   The seal binds the record: a record carrying the seal of another passes the check if
   and only if it means the same, whatever the order of its members.
   */
  lemma SealBindsMeaning(c: Scheme, ms: seq<Member>, ns: seq<Member>, field: string)
    requires c.Ideal() && WellFormed(Obj(ms)) && WellFormed(Obj(ns)) && c.Sealed(ms, field)
    requires Lookup(ns, field) == Lookup(ms, field)
    ensures c.Sealed(ns, field) <==> Denote(Obj(ns)) == Denote(Obj(ms))
  {
    var p, q, seal := Remove(ms, field), Remove(ns, field), Lookup(ms, field).value;
    RemoveKeepsWellFormed(ms, field);
    RemoveKeepsWellFormed(ns, field);
    SameTextIffSameMeaning(Obj(p), Obj(q));
    assert c.Hash(Obj(p)) == c.Hash(Obj(q)) <==> Denote(Obj(p)) == Denote(Obj(q));
    GraphOfSealed(ms, field, seal);
    GraphOfSealed(ns, field, seal);
    SameGraphSameMeaning(p, q);
    SameGraphSameMeaning(ms, ns);
    PayloadGraphs(Graph(p), Graph(q), field, Denote(seal));
    if Denote(Obj(p)) == Denote(Obj(q)) { SafeDependsOnMeaning(c, Obj(p), Obj(q), 0); }
    hide Graph, Denote, DenoteMembers, Remove, Lookup, WellFormed, DistinctKeys;
  }

  lemma PayloadGraphs(p: set<(string, Value)>, q: set<(string, Value)>, field: string, d: Value)
    requires (field, d) !in p && (field, d) !in q
    ensures p == q <==> p + {(field, d)} == q + {(field, d)}
  {
    if p + {(field, d)} == q + {(field, d)} {
      assert p == (p + {(field, d)}) - {(field, d)};
      assert q == (q + {(field, d)}) - {(field, d)};
    }
  }

  /** Changing the seal itself is noticed too. */
  lemma OtherSealFails(c: Scheme, ms: seq<Member>, ns: seq<Member>, field: string)
    requires c.Ideal() && WellFormed(Obj(ms)) && WellFormed(Obj(ns)) && c.Sealed(ms, field)
    requires Denote(Obj(Remove(ns, field))) == Denote(Obj(Remove(ms, field)))
    ensures c.Sealed(ns, field) ==> Lookup(ns, field) == Lookup(ms, field)
  {
    RemoveKeepsWellFormed(ms, field);
    RemoveKeepsWellFormed(ns, field);
    SameTextIffSameMeaning(Obj(Remove(ms, field)), Obj(Remove(ns, field)));
  }
}
