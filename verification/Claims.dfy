/** De-duplicating claims by identifier, and sources by content. */
module Claims {
  import opened Json
  import opened Sequences

  datatype Claim = Claim(id: string, contentHash: string, source: string, evidenceHash: string, body: Json)

  predicate HasId(cs: seq<Claim>, id: string) {
    exists x | x in cs :: x.id == id
  }

  /** The first claim of every identifier, in order. */
  function Firsts(cs: seq<Claim>): seq<Claim> {
    if cs == [] then []
    else
      var kept, last := Firsts(cs[..|cs| - 1]), cs[|cs| - 1];
      if HasId(kept, last.id) then kept else kept + [last]
  }

  predicate Consistent(cs: seq<Claim>) {
    forall x, y | x in cs && y in cs && x.id == y.id :: x.contentHash == y.contentHash
  }

  lemma {:induction false} FirstsCover(cs: seq<Claim>)
    ensures forall x | x in Firsts(cs) :: x in cs
    ensures forall x | x in cs :: HasId(Firsts(cs), x.id)
    ensures forall i, j | 0 <= i < j < |Firsts(cs)| :: Firsts(cs)[i].id != Firsts(cs)[j].id
  {
    if cs != [] {
      var n := |cs| - 1;
      var kept := Firsts(cs[..n]);
      assert cs == cs[..n] + [cs[n]];
      FirstsCover(cs[..n]);
      forall x | x in cs ensures HasId(Firsts(cs), x.id) {
        if x in cs[..n] { var y :| y in kept && y.id == x.id; assert y in Firsts(cs); }
        else if !HasId(kept, x.id) { assert cs[n] in Firsts(cs); }
      }
    }
  }

  lemma FirstsStep(cs: seq<Claim>, c: Claim)
    ensures Firsts(cs + [c]) == if HasId(Firsts(cs), c.id) then Firsts(cs) else Firsts(cs) + [c]
  {
    assert (cs + [c])[..|cs|] == cs;
  }

  lemma {:induction false} FirstsOfDistinct(cs: seq<Claim>)
    requires forall i, j | 0 <= i < j < |cs| :: cs[i].id != cs[j].id
    ensures Firsts(cs) == cs
  {
    if cs != [] {
      var n := |cs| - 1;
      FirstsOfDistinct(cs[..n]);
      assert cs == cs[..n] + [cs[n]];
    }
  }

  /** De-duplicating what is already de-duplicated, before more claims come in, makes no difference. */
  lemma {:induction false} FirstsAreIncremental(xs: seq<Claim>, ys: seq<Claim>)
    ensures Firsts(xs + ys) == Firsts(Firsts(xs) + ys)
    decreases |ys|
  {
    hide HasId;
    if ys == [] {
      assert xs + ys == xs && Firsts(xs) + ys == Firsts(xs);
      FirstsCover(xs);
      FirstsOfDistinct(Firsts(xs));
    } else {
      var n := |ys| - 1;
      assert xs + ys == (xs + ys[..n]) + [ys[n]] && Firsts(xs) + ys == (Firsts(xs) + ys[..n]) + [ys[n]];
      FirstsAreIncremental(xs, ys[..n]);
      FirstsStep(xs + ys[..n], ys[n]);
      FirstsStep(Firsts(xs) + ys[..n], ys[n]);
    }
  }

  /** Accepted exactly when every claim is valid and no identifier has two contents; the firsts are kept. */
  method Deduplicate(valid: Claim -> bool, cs: seq<Claim>) returns (res: Option<seq<Claim>>)
    ensures res.Some? <==> (forall x | x in cs :: valid(x)) && Consistent(cs)
    ensures res.Some? ==> res.value == Firsts(cs)
  {
    var merged: seq<Claim> := [];
    var byId: map<string, string> := map[];
    for i := 0 to |cs|
      invariant merged == Firsts(cs[..i])
      invariant forall x | x in cs[..i] :: valid(x) && x.id in byId && byId[x.id] == x.contentHash
      invariant forall id :: id in byId <==> HasId(merged, id)
    {
      var c := cs[i];
      assert cs[..i + 1] == cs[..i] + [c] && c in cs;
      FirstsCover(cs[..i]);
      FirstsStep(cs[..i], c);
      if !valid(c) { return None; }
      if c.id !in byId {
        byId := byId[c.id := c.contentHash];
        merged := merged + [c];
      } else if byId[c.id] != c.contentHash {
        var x :| x in merged && x.id == c.id;
        assert x in cs[..i] && x in cs && x.contentHash != c.contentHash;
        return None;
      }
    }
    assert cs[..|cs|] == cs;
    return Some(merged);
  }

  datatype Origin = Origin(source: string, contentHash: string)

  function OriginOf(c: Claim): Origin {
    Origin(c.source, c.evidenceHash)
  }

  /** Every origin once, in the order of first sight. */
  method UniqueOrigins(valid: Claim -> bool, cs: seq<Claim>) returns (res: Option<seq<Origin>>)
    ensures res.Some? <==> forall x | x in cs :: valid(x)
    ensures res.Some? ==> NoRepeats(res.value) && forall o :: o in res.value <==> exists x | x in cs :: OriginOf(x) == o
  {
    var unique: seq<Origin> := [];
    for i := 0 to |cs|
      invariant forall x | x in cs[..i] :: valid(x) && OriginOf(x) in unique
      invariant forall o | o in unique :: exists x | x in cs[..i] :: OriginOf(x) == o
      invariant NoRepeats(unique)
    {
      assert cs[..i + 1] == cs[..i] + [cs[i]] && cs[i] in cs;
      if !valid(cs[i]) { return None; }
      var o := OriginOf(cs[i]);
      if o !in unique { unique := unique + [o]; }
      forall p | p in unique ensures exists x | x in cs[..i + 1] :: OriginOf(x) == p {
        if p == o { assert cs[i] in cs[..i + 1]; }
        else { var x :| x in cs[..i] && OriginOf(x) == p; assert x in cs[..i + 1]; }
      }
    }
    assert cs[..|cs|] == cs;
    return Some(unique);
  }
}
