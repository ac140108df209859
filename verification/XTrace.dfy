/** The bounded read-back loop of the XTrace client, over every script of replies and clock readings. */
module XTrace {
  import opened Json

  const TERMINAL: set<int> := {401, 403}

  /******* What a successful reply shows *******/

  datatype TagValue = Text(s: string) | Number(n: int) | Other

  /** An entry of a span's tag list; anything that is not an object is NoTag. */
  datatype Tag = Tag(key: string, value: TagValue) | NoTag

  datatype Span = Span(traceId: string, tags: seq<Tag>) | NoSpan

  /** The trace asked for and the anchors it must carry. */
  datatype Query = Query(traceId: string, campaignId: string, runId: string, pgRevision: int, contentHash: string)

  const MOST: nat := 1000

  datatype Pair = Pair(key: string, value: string)

  function First<T>(xs: seq<T>): seq<T> {
    if |xs| <= MOST then xs else xs[..MOST]
  }

  function PairOf(t: Tag): Option<Pair> {
    match t
    case Tag(key, Text(s)) => Some(Pair(key, s))
    case Tag(key, Number(n)) => Some(Pair(key, EmitInt(n)))
    case _ => None
  }

  function PairsOf(tags: seq<Tag>): seq<Pair> {
    if tags == [] then []
    else PairsOf(tags[..|tags| - 1]) + (
           match PairOf(tags[|tags| - 1]) case None => [] case Some(p) => [p])
  }

  predicate Matches(q: Query, s: Span) {
    s.Span? && s.traceId == q.traceId
  }

  /** The tags of all matching spans, in order. */
  function Tagged(q: Query, spans: seq<Span>): seq<Pair> {
    if spans == [] then []
    else
      var last := spans[|spans| - 1];
      Tagged(q, spans[..|spans| - 1]) + (if Matches(q, last) then PairsOf(First(last.tags)) else [])
  }

  /** Later pairs overwrite earlier ones. */
  function Table(ps: seq<Pair>): map<string, string> {
    if ps == [] then map[] else Table(ps[..|ps| - 1])[ps[|ps| - 1].key := ps[|ps| - 1].value]
  }

  function Anchors(q: Query): seq<Pair> {
    [Pair("testweaver.campaign_id", q.campaignId), Pair("testweaver.run_id", q.runId),
     Pair("testweaver.pg_revision", EmitInt(q.pgRevision)), Pair("testweaver.content_hash", q.contentHash)]
  }

  /** The trace is there and every anchor has its value. */
  predicate Anchored(q: Query, spans: seq<Span>) {
    && (exists s | s in First(spans) :: Matches(q, s))
    && var tags := Table(Tagged(q, First(spans)));
       forall p | p in Anchors(q) :: p.key in tags && tags[p.key] == p.value
  }

  /** The last pair with this key has this value. */
  predicate LastSays(ps: seq<Pair>, p: Pair) {
    exists i :: 0 <= i < |ps| && ps[i] == p && forall j | i < j < |ps| :: ps[j].key != p.key
  }

  lemma {:induction false} TableHoldsTheLast(ps: seq<Pair>, p: Pair)
    ensures p.key in Table(ps) && Table(ps)[p.key] == p.value <==> LastSays(ps, p)
  {
    if ps != [] {
      var n := |ps| - 1;
      var front := ps[..n];
      TableHoldsTheLast(front, p);
      if ps[n].key == p.key {
        assert ps[n] == p ==> LastSays(ps, p);
      } else {
        if LastSays(front, p) {
          var i :| 0 <= i < n && front[i] == p && forall j | i < j < n :: front[j].key != p.key;
          assert ps[i] == p && forall j | i < j < |ps| :: ps[j].key != p.key;
        }
        if LastSays(ps, p) {
          var i :| 0 <= i < |ps| && ps[i] == p && forall j | i < j < |ps| :: ps[j].key != p.key;
          assert front[i] == p && forall j | i < j < n :: front[j].key != p.key;
        }
      }
    }
  }

  /**
   A reply shows the trace exactly when one of its first thousand spans carries the trace's
   identifier and, over the tags of all such spans, the last word on every anchor is right.
   */
  lemma AnchoredExactlyWhen(q: Query, spans: seq<Span>)
    ensures Anchored(q, spans) <==>
              && (exists s | s in First(spans) :: Matches(q, s))
              && forall p | p in Anchors(q) :: LastSays(Tagged(q, First(spans)), p)
  {
    hide LastSays, Table, Tagged, Matches, First, Anchors;
    forall p | p in Anchors(q)
      ensures p.key in Table(Tagged(q, First(spans))) && Table(Tagged(q, First(spans)))[p.key] == p.value
              <==> LastSays(Tagged(q, First(spans)), p)
    {
      TableHoldsTheLast(Tagged(q, First(spans)), p);
    }
  }

  lemma TableStep(ps: seq<Pair>, p: Pair)
    ensures Table(ps + [p]) == Table(ps)[p.key := p.value]
  {
    assert (ps + [p])[..|ps|] == ps;
  }

  /** The inner loop: the entries of one span. */
  method ReadEntries(start: map<string, string>, ghost before: seq<Pair>, entries: seq<Tag>) returns (tags: map<string, string>)
    requires start == Table(before)
    ensures tags == Table(before + PairsOf(entries))
  {
    hide Table;
    tags := start;
    assert before + PairsOf(entries[..0]) == before;
    for k := 0 to |entries|
      invariant tags == Table(before + PairsOf(entries[..k]))
    {
      assert entries[..k + 1][..k] == entries[..k];
      var p := PairOf(entries[k]);
      if p.Some? {
        TableStep(before + PairsOf(entries[..k]), p.value);
        assert before + (PairsOf(entries[..k]) + [p.value]) == before + PairsOf(entries[..k]) + [p.value];
        tags := tags[p.value.key := p.value.value];
      } else {
        assert PairsOf(entries[..k]) + [] == PairsOf(entries[..k]);
      }
    }
    assert entries[..|entries|] == entries;
  }

  lemma TaggedStep(q: Query, spans: seq<Span>, s: Span)
    ensures Tagged(q, spans + [s]) == if Matches(q, s) then Tagged(q, spans) + PairsOf(First(s.tags)) else Tagged(q, spans)
  {
    assert (spans + [s])[..|spans|] == spans;
    assert Tagged(q, spans) + [] == Tagged(q, spans);
    hide PairsOf, First;
  }

  /** The outer loop: one table over the tags of all matching spans. */
  method ReadTags(q: Query, spans: seq<Span>) returns (tags: map<string, string>, found: bool)
    ensures tags == Table(Tagged(q, First(spans)))
    ensures found <==> exists s | s in First(spans) :: Matches(q, s)
  {
    var head := First(spans);
    tags, found := map[], false;
    for i := 0 to |head|
      invariant tags == Table(Tagged(q, head[..i]))
      invariant found <==> exists s | s in head[..i] :: Matches(q, s)
    {
      assert head[..i + 1] == head[..i] + [head[i]];
      TaggedStep(q, head[..i], head[i]);
      if Matches(q, head[i]) {
        found := true;
        tags := ReadEntries(tags, Tagged(q, head[..i]), First(head[i].tags));
      }
    }
    assert head[..|head|] == head;
  }

  /******* The loop *******/

  /** What the services answer in one attempt. */
  datatype Reply = NoLease | NoEndpoint | Http(status: int, spans: seq<Span>)

  /** One attempt: the elapsed time read at the top of the loop, the reply, and the elapsed time read after it. */
  datatype Round = Round(before: real, reply: Reply, after: real)

  type Script = nat -> Round

  datatype Reason = CredentialUnavailable | EndpointUnavailable | PermissionDenied | ApiRejected
  datatype Status = Verified | NotVerified | Blocked(reason: Reason) | Exhausted

  /** What the call returns, the leases it asked for, and the naps it took. */
  datatype Outcome = Outcome(status: Status, attempts: nat, leases: nat, naps: seq<real>)

  datatype Config = Config(max: int, poll: real, budget: real, query: Query) {
    predicate Ok() {
      1 <= max <= 3 && 0.0 <= poll <= 45.0 && 0.0 < budget <= 90.0
    }

    /** How long the loop sleeps after an attempt that ended at this time. */
    function Nap(after: real): real {
      if poll < budget - after then poll else budget - after
    }
  }

  /** A successful HTTP reply that does not show the trace. */
  predicate Pending(c: Config, r: Reply) {
    r.Http? && r.status !in TERMINAL && 200 <= r.status < 300 && !Anchored(c.query, r.spans)
  }

  /** The end of an attempt that ends the call; None means the loop goes on. */
  function Final(c: Config, r: Reply): Option<Status> {
    match r
    case NoLease => Some(Blocked(CredentialUnavailable))
    case NoEndpoint => Some(Blocked(EndpointUnavailable))
    case Http(status, spans) =>
      if status in TERMINAL then Some(Blocked(PermissionDenied))
      else if !(200 <= status < 300) then Some(Blocked(ApiRejected))
      else if Anchored(c.query, spans) then Some(Verified) else None
  }

  /** Leaving the loop without a final reply: the last receipt, or the one that says the budget ran out. */
  function Leave(made: nat, naps: seq<real>): Outcome {
    if made > 0 then Outcome(NotVerified, made, made, naps) else Outcome(Exhausted, 1, 0, naps)
  }

  /** The loop from attempt k on. */
  function From(c: Config, script: Script, k: nat, naps: seq<real>): Outcome
    requires k >= 1
    decreases c.max - k + 1
  {
    if k > c.max || (k > 1 && script(k).before >= c.budget) then Leave(k - 1, naps)
    else match Final(c, script(k).reply)
      case Some(status) => Outcome(status, k, k, naps)
      case None =>
        if k == c.max || c.budget - script(k).after <= 0.0 then Leave(k, naps)
        else From(c, script, k + 1, naps + [c.Nap(script(k).after)])
  }

  /** None for arguments outside the bounds, which raise. */
  function GetTrace(c: Config, script: Script): Option<Outcome> {
    if c.Ok() then Some(From(c, script, 1, [])) else None
  }

  function Sum(xs: seq<real>): real {
    if xs == [] then 0.0 else Sum(xs[..|xs| - 1]) + xs[|xs| - 1]
  }

  /** Time does not run backwards, and a nap takes at least as long as asked. */
  ghost predicate Honest(c: Config, script: Script) {
    && script(1).before >= 0.0
    && (forall k: nat | k >= 1 :: script(k).after >= script(k).before)
    && (forall k: nat | k >= 1 && script(k).after < c.budget :: script(k + 1).before >= script(k).after + c.Nap(script(k).after))
  }

  /** Attempt k is reached and pending, and the nap after it uses up the budget. */
  predicate WastedAt(c: Config, script: Script, k: nat) {
    && 1 <= k < c.max
    && (forall j: nat | 1 <= j <= k :: Pending(c, script(j).reply) && script(j).after < c.budget)
    && (forall j: nat | 2 <= j <= k :: script(j).before < c.budget)
    && script(k + 1).before >= c.budget
  }

  /** The script makes the loop sleep once for nothing. */
  ghost predicate Wasted(c: Config, script: Script) {
    exists k: nat :: WastedAt(c, script, k)
  }

  /** What holds of the loop from attempt k on, when the earlier attempts were all pending. */
  ghost predicate LoopFacts(c: Config, script: Script, k: nat, naps: seq<real>, o: Outcome) {
    && (if k > 1 then k - 1 else 1) <= o.attempts <= c.max && o.leases == o.attempts && !o.status.Exhausted?
    && |naps| <= |o.naps| <= c.max - 1 && |o.naps| == (if Wasted(c, script) then o.attempts else o.attempts - 1)
    && (o.status.Verified? ==> o.attempts >= k && Final(c, script(o.attempts).reply) == Some(Verified))
    && (o.status.Blocked? ==> o.attempts >= k && Final(c, script(o.attempts).reply) == Some(o.status))
    && (o.status.NotVerified? ==> o.attempts >= 1 && Final(c, script(o.attempts).reply) == None)
    && (forall j: nat | k <= j < o.attempts :: Final(c, script(j).reply) == None)
  }

  /** All attempts before k were pending and left time. */
  predicate Reached(c: Config, script: Script, k: nat) {
    && (forall j: nat | 1 <= j < k :: Final(c, script(j).reply) == None && script(j).after < c.budget)
    && (forall j: nat | 2 <= j < k :: script(j).before < c.budget)
  }

  lemma PendingIsNotFinal(c: Config, r: Reply)
    ensures Pending(c, r) <==> Final(c, r) == None
  {
  }

  lemma FinalEnds(c: Config, r: Reply)
    ensures Final(c, r).Some? ==> Final(c, r).value.Verified? || Final(c, r).value.Blocked?
  {
    hide Anchored;
  }

  lemma WastedHere(c: Config, script: Script, k: nat)
    requires 2 <= k <= c.max && Reached(c, script, k) && script(k).before >= c.budget
    ensures Wasted(c, script)
  {
    forall r: Reply ensures Pending(c, r) <==> Final(c, r) == None { PendingIsNotFinal(c, r); }
    hide Pending, Final;
    assert WastedAt(c, script, k - 1);
  }

  lemma NotWasted(c: Config, script: Script, k: nat)
    requires 1 <= k <= c.max && Reached(c, script, k) && (k > 1 ==> script(k).before < c.budget)
    requires k == c.max || Final(c, script(k).reply).Some? || script(k).after >= c.budget
    ensures !Wasted(c, script)
  {
    forall r: Reply ensures Pending(c, r) <==> Final(c, r) == None { PendingIsNotFinal(c, r); }
    hide Pending, Final;
    forall i: nat ensures !WastedAt(c, script, i) {
      if 1 <= i < k { assert i + 1 == k || script(i + 1).before < c.budget; }
    }
  }

  lemma {:induction false} LoopIsBounded(c: Config, script: Script, k: nat, naps: seq<real>)
    requires c.Ok() && 1 <= k <= c.max && |naps| == k - 1 && Reached(c, script, k)
    ensures LoopFacts(c, script, k, naps, From(c, script, k, naps))
    decreases c.max - k
  {
    hide Final, Wasted;
    if k > 1 && script(k).before >= c.budget {
      WastedHere(c, script, k);
    } else if Final(c, script(k).reply).Some? || k == c.max || c.budget - script(k).after <= 0.0 {
      NotWasted(c, script, k);
      FinalEnds(c, script(k).reply);
    } else {
      LoopIsBounded(c, script, k + 1, naps + [c.Nap(script(k).after)]);
    }
  }

  /**
   The call makes between one and the maximum number of attempts, asks for one lease in
   each, and goes on only past replies that do not show the trace; it stops at the first
   that does; and it never returns the receipt that says the budget ran out.
   */
  lemma AttemptsAreBounded(c: Config, script: Script)
    requires c.Ok()
    ensures
      var o := GetTrace(c, script).value;
      && 1 <= o.attempts <= c.max && o.leases == o.attempts && !o.status.Exhausted?
      && (forall j: nat | 1 <= j < o.attempts :: Pending(c, script(j).reply))
      && (o.status.Verified? <==> Final(c, script(o.attempts).reply) == Some(Verified))
      && (o.status.NotVerified? <==> Pending(c, script(o.attempts).reply))
  {
    LoopIsBounded(c, script, 1, []);
    forall r: Reply ensures Pending(c, r) <==> Final(c, r) == None { PendingIsNotFinal(c, r); }
    hide From, Final, Pending, Wasted;
  }

  /** A blocked call says why: no lease, no endpoint, no permission, or any other reply outside the 200s. */
  lemma BlockedSaysWhy(c: Config, script: Script)
    requires c.Ok()
    ensures
      var o := GetTrace(c, script).value;
      var r := script(o.attempts).reply;
      && (o.status == Blocked(CredentialUnavailable) <==> r.NoLease?)
      && (o.status == Blocked(EndpointUnavailable) <==> r.NoEndpoint?)
      && (o.status == Blocked(PermissionDenied) <==> r.Http? && (r.status == 401 || r.status == 403))
      && (o.status == Blocked(ApiRejected) <==> r.Http? && r.status != 401 && r.status != 403 && !(200 <= r.status < 300))
  {
    LoopIsBounded(c, script, 1, []);
    hide From, Anchored, Wasted;
  }

  /** Naps lie between attempts, and never follow the last attempt allowed; one more is taken exactly when the script wastes it. */
  lemma NapsLieBetweenAttempts(c: Config, script: Script)
    requires c.Ok()
    ensures
      var o := GetTrace(c, script).value;
      |o.naps| <= c.max - 1 && |o.naps| == if Wasted(c, script) then o.attempts else o.attempts - 1
  {
    LoopIsBounded(c, script, 1, []);
    hide From, Final, Wasted;
  }

  /** A pending reply half way through the budget, and a clock that has used it up after the nap. */
  function Slow(c: Config): Script {
    (k: nat) => if k <= 1 then Round(0.0, Http(200, []), c.budget / 2.0) else Round(c.budget, NoLease, c.budget)
  }

  /**
   So a call can sleep after the last attempt it makes.  Over all honest clocks and replies
   it never does if and only if it is allowed one attempt only.
   */
  lemma NoNapIsWastedExactlyWhen(c: Config)
    requires c.Ok()
    ensures (forall script: Script | Honest(c, script) ::
               |GetTrace(c, script).value.naps| == GetTrace(c, script).value.attempts - 1)
            <==> c.max == 1
  {
    if c.max == 1 {
      forall script: Script | Honest(c, script)
        ensures |GetTrace(c, script).value.naps| == GetTrace(c, script).value.attempts - 1
      {
        NapsLieBetweenAttempts(c, script);
      }
    } else {
      var script := Slow(c);
      SlowIsWasted(c);
      NapsLieBetweenAttempts(c, script);
    }
    hide GetTrace, Honest, Slow;
  }

  lemma SlowIsWasted(c: Config)
    requires c.Ok() && c.max > 1
    ensures Honest(c, Slow(c)) && Wasted(c, Slow(c))
  {
    assert First<Span>([]) == [];
    assert Pending(c, Http(200, [])) && 200 !in TERMINAL;
    assert WastedAt(c, Slow(c), 1);
  }

  /** For instance: three attempts allowed, one made, and the rest of the budget slept away. */
  lemma ANapCanBeWasted(query: Query)
    ensures
      var c := Config(3, 45.0, 10.0, query);
      GetTrace(c, Slow(c)) == Some(Outcome(NotVerified, 1, 1, [5.0]))
  {
    var c := Config(3, 45.0, 10.0, query);
    assert First<Span>([]) == [];
    assert Final(c, Http(200, [])) == None;
    assert c.Nap(5.0) == 5.0 && [] + [5.0] == [5.0];
    assert From(c, Slow(c), 2, [5.0]) == Leave(1, [5.0]);
    assert From(c, Slow(c), 1, []) == From(c, Slow(c), 2, [] + [5.0]);
  }

  lemma SumAppend(xs: seq<real>, x: real)
    ensures Sum(xs + [x]) == Sum(xs) + x
  {
    assert (xs + [x])[..|xs|] == xs;
  }

  lemma HonestNap(c: Config, script: Script, k: nat, naps: seq<real>)
    requires c.Ok() && Honest(c, script) && 1 <= k && script(k).after < c.budget
    requires 0.0 <= Sum(naps) <= script(k).before
    ensures
      var more := Sum(naps + [c.Nap(script(k).after)]);
      0.0 <= more <= script(k + 1).before && more <= c.budget
  {
    SumAppend(naps, c.Nap(script(k).after));
    hide Sum;
  }

  lemma {:induction false} LoopSleepsWithinBudget(c: Config, script: Script, k: nat, naps: seq<real>)
    requires c.Ok() && Honest(c, script) && 1 <= k <= c.max
    requires 0.0 <= Sum(naps) <= script(k).before && Sum(naps) <= c.budget
    ensures 0.0 <= Sum(From(c, script, k, naps).naps) <= c.budget
    decreases c.max - k
  {
    hide Honest, Sum, Final, Config.Nap;
    if !(k > 1 && script(k).before >= c.budget) && Final(c, script(k).reply).None? {
      if !(k == c.max || c.budget - script(k).after <= 0.0) {
        HonestNap(c, script, k, naps);
        LoopSleepsWithinBudget(c, script, k + 1, naps + [c.Nap(script(k).after)]);
      }
    }
  }

  /** With an honest clock all naps together never exceed the elapsed budget. */
  lemma SleepIsWithinBudget(c: Config, script: Script)
    requires c.Ok() && Honest(c, script)
    ensures 0.0 <= Sum(GetTrace(c, script).value.naps) <= c.budget
  {
    LoopSleepsWithinBudget(c, script, 1, []);
  }

  /** The loop itself. */
  method Poll(c: Config, script: Script) returns (res: Option<Outcome>)
    ensures res == GetTrace(c, script)
  {
    if !c.Ok() { return None; }
    var naps: seq<real> := [];
    var made := 0;
    for attempt := 1 to c.max + 1
      invariant made == attempt - 1
      invariant From(c, script, attempt, naps) == From(c, script, 1, [])
    {
      if attempt > 1 && script(attempt).before >= c.budget { break; }
      var final := Final(c, script(attempt).reply);
      if final.Some? { return Some(Outcome(final.value, attempt, attempt, naps)); }
      made := attempt;
      if attempt < c.max {
        var remaining := c.budget - script(attempt).after;
        if remaining <= 0.0 { break; }
        naps := naps + [if c.poll < remaining then c.poll else remaining];
      }
    }
    return Some(Leave(made, naps));
  }
}
