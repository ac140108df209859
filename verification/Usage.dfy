/** Flattening the usage tree of a native export and adding it up. */
module Usage {
  import opened Json
  import opened Numbers
  import opened Sequences

  /** A JSON usage value; the keys of a map are distinct. */
  datatype Tree =
    | Nothing
    | Scalar(num: Num)
    | Text(s: string)
    | Flag(b: bool)
    | List(items: seq<Tree>)
    | Map(entries: seq<Entry>)

  datatype Entry = Entry(key: string, value: Tree)

  datatype Field = CallCount | InputTokens | OutputTokens | TotalTokens | CostField

  datatype Record = Record(calls: Obs, input: Obs, output: Obs, total: Obs, cost: Obs) {
    function Get(f: Field): Obs {
      match f
      case CallCount => calls
      case InputTokens => input
      case OutputTokens => output
      case TotalTokens => total
      case CostField => cost
    }
  }

  const EMPTY := Record(None, None, None, None, None)

  const AGGREGATE: set<string> := {"prompt_tokens", "completion_tokens"}
  const SESSION: set<string> := {"input_tokens", "output_tokens"}
  const PLAIN: set<string> := {"total_tokens", "cost", "call_count"}
  const NAMES: set<string> := {"model_name", "provider_id"}
  const FIELDS: set<string> := AGGREGATE + SESSION + PLAIN + NAMES

  function Lookup(es: seq<Entry>, key: string): Option<Tree> {
    if es == [] then None else if es[0].key == key then Some(es[0].value) else Lookup(es[1..], key)
  }

  function Keys(es: seq<Entry>): set<string> {
    set e | e in es :: e.key
  }

  /** The value of a key that may be missing; a missing key counts as null. */
  function Value(es: seq<Entry>, key: string): Tree {
    match Lookup(es, key) case None => Nothing case Some(v) => v
  }

  /** None means the code raises. */
  function TokenCount(v: Tree): Option<Obs> {
    match v
    case Nothing => Some(None)
    case Scalar(IntNum(n)) => if n >= 0 then Some(Some(IntNum(n))) else None
    case _ => None
  }

  function NonNegative(v: Tree): Option<Obs> {
    match v
    case Nothing => Some(None)
    case Scalar(num) => if num.Val() >= 0.0 then Some(Some(num)) else None
    case _ => None
  }

  predicate IsIdentifier(space: char -> bool, s: string) {
    1 <= |s| <= 512 && forall i | 0 <= i < |s| :: !space(s[i])
  }

  predicate NameOk(space: char -> bool, v: Tree) {
    v.Nothing? || (v.Text? && IsIdentifier(space, v.s))
  }

  /** A map with at least one usage field is one record. */
  function RecordOf(space: char -> bool, es: seq<Entry>): Option<Record> {
    var keys := Keys(es);
    if !(keys <= FIELDS) then None
    else if keys !! SESSION && keys !! AGGREGATE && keys !! PLAIN then None
    else if !(keys !! SESSION) && !(keys !! AGGREGATE) then None
    else
      var input := if "input_tokens" in keys then Value(es, "input_tokens") else Value(es, "prompt_tokens");
      var output := if "output_tokens" in keys then Value(es, "output_tokens") else Value(es, "completion_tokens");
      if !NameOk(space, Value(es, "model_name")) || !NameOk(space, Value(es, "provider_id")) then None
      else
        match (TokenCount(Value(es, "call_count")), TokenCount(input), TokenCount(output),
               TokenCount(Value(es, "total_tokens")), NonNegative(Value(es, "cost")))
        case (Some(k), Some(i), Some(o), Some(t), Some(c)) => Some(Record(k, i, o, t, c))
        case _ => None
  }

  /** What a key says, if it holds a number. */
  predicate Holds(es: seq<Entry>, key: string, o: Obs) {
    Value(es, key).Scalar? ==> o == Some(Value(es, key).num)
  }

  /** A record takes each number from the key that means it, in either of the two shapes, and mixes no shapes. */
  lemma RecordReadsItsFields(space: char -> bool, es: seq<Entry>)
    requires RecordOf(space, es).Some?
    ensures
      var r, keys := RecordOf(space, es).value, Keys(es);
      && Holds(es, "call_count", r.calls) && Holds(es, "total_tokens", r.total) && Holds(es, "cost", r.cost)
      && ("input_tokens" in keys ==> Holds(es, "input_tokens", r.input) && "prompt_tokens" !in keys)
      && ("prompt_tokens" in keys ==> Holds(es, "prompt_tokens", r.input) && "output_tokens" !in keys)
      && ("output_tokens" in keys ==> Holds(es, "output_tokens", r.output) && "completion_tokens" !in keys)
      && ("completion_tokens" in keys ==> Holds(es, "completion_tokens", r.output) && "input_tokens" !in keys)
  {
    assert "input_tokens" in SESSION && "output_tokens" in SESSION && "prompt_tokens" in AGGREGATE && "completion_tokens" in AGGREGATE;
    hide Lookup, NameOk, Keys;
  }

  function Join(a: Option<seq<Record>>, b: Option<seq<Record>>): Option<seq<Record>> {
    if a.Some? && b.Some? then Some(a.value + b.value) else None
  }

  /** The records of a usage value, left to right; None means the code raises. */
  function Records(space: char -> bool, v: Tree): Option<seq<Record>>
    decreases v, 0
  {
    match v
    case Nothing => Some([])
    case List(items) => OfChildren(space, items)
    case Map(es) =>
      if Keys(es) !! FIELDS then OfEntries(space, es)
      else (match RecordOf(space, es) case None => None case Some(r) => Some([r]))
    case _ => None
  }

  /** A null child is an unknown record, not an absent one. */
  function OfChild(space: char -> bool, v: Tree): Option<seq<Record>>
    decreases v, 1
  {
    if v.Nothing? then Some([EMPTY]) else Records(space, v)
  }

  function OfChildren(space: char -> bool, items: seq<Tree>): Option<seq<Record>>
    decreases items, 0
  {
    if items == [] then Some([]) else Join(OfChild(space, items[0]), OfChildren(space, items[1..]))
  }

  function OfEntries(space: char -> bool, es: seq<Entry>): Option<seq<Record>>
    decreases es, 0
  {
    if es == [] then Some([]) else Join(OfChild(space, es[0].value), OfEntries(space, es[1..]))
  }

  function Column(rs: seq<Record>, f: Field): (os: seq<Obs>)
    ensures |os| == |rs| && forall i | 0 <= i < |rs| :: os[i] == rs[i].Get(f)
  {
    seq(|rs|, i requires 0 <= i < |rs| => rs[i].Get(f))
  }

  function Values(os: seq<Obs>): seq<Num> {
    if os == [] then [] else Values(os[..|os| - 1]) + (if os[|os| - 1].Some? then [os[|os| - 1].value] else [])
  }

  /** One missing value makes the sum NOT_AVAILABLE. */
  function SumIfComplete(rs: seq<Record>, f: Field): Obs {
    if None in Column(rs, f) then None else Some(Sum(Values(Column(rs, f))))
  }

  function Normalize(rs: seq<Record>): Record {
    if rs == [] then EMPTY
    else
      var input, output := SumIfComplete(rs, InputTokens), SumIfComplete(rs, OutputTokens);
      var total := if input.Some? && output.Some? then Plus(input, output) else SumIfComplete(rs, TotalTokens);
      Record(SumIfComplete(rs, CallCount), input, output, total, SumIfComplete(rs, CostField))
  }

  /******* The shape of the tree does not matter *******/

  lemma JoinIsAssociative(a: Option<seq<Record>>, b: Option<seq<Record>>, c: Option<seq<Record>>)
    ensures Join(Join(a, b), c) == Join(a, Join(b, c))
    ensures Join(Some([]), a) == a && Join(a, Some([])) == a
  {
    if a.Some? && b.Some? && c.Some? { assert a.value + b.value + c.value == a.value + (b.value + c.value); }
    if a.Some? { assert [] + a.value == a.value && a.value + [] == a.value; }
  }

  lemma {:induction false} ChildrenConcat(space: char -> bool, xs: seq<Tree>, ys: seq<Tree>)
    ensures OfChildren(space, xs + ys) == Join(OfChildren(space, xs), OfChildren(space, ys))
    decreases |xs|
  {
    hide OfChild, Join;
    if xs == [] {
      assert xs + ys == ys;
      JoinIsAssociative(OfChildren(space, ys), None, None);
    } else {
      assert (xs + ys)[1..] == xs[1..] + ys;
      ChildrenConcat(space, xs[1..], ys);
      JoinIsAssociative(OfChild(space, xs[0]), OfChildren(space, xs[1..]), OfChildren(space, ys));
    }
  }

  lemma {:induction false} EntriesAreChildren(space: char -> bool, es: seq<Entry>, items: seq<Tree>)
    requires |items| == |es| && forall i | 0 <= i < |es| :: items[i] == es[i].value
    ensures OfEntries(space, es) == OfChildren(space, items)
    decreases |es|
  {
    hide OfChild;
    if es != [] { EntriesAreChildren(space, es[1..], items[1..]); }
  }

  lemma OneChild(space: char -> bool, v: Tree)
    ensures OfChildren(space, [v]) == OfChild(space, v)
  {
    hide OfChild;
    JoinIsAssociative(OfChild(space, v), None, None);
    assert [v][1..] == [];
    hide Join;
  }

  /** Splicing a nested list, or a named group, into the list around it leaves the records as they are. */
  lemma NestingIsIrrelevant(space: char -> bool, xs: seq<Tree>, ys: seq<Tree>, es: seq<Entry>, zs: seq<Tree>)
    requires |ys| == |es| && (forall i | 0 <= i < |es| :: ys[i] == es[i].value) && Keys(es) !! FIELDS
    ensures Records(space, List(xs + [List(ys)] + zs)) == Records(space, List(xs + ys + zs))
    ensures Records(space, List(xs + [Map(es)] + zs)) == Records(space, List(xs + ys + zs))
  {
    EntriesAreChildren(space, es, ys);
    GroupAndList(space, es, ys);
    hide *;
    OneChild(space, List(ys));
    OneChild(space, Map(es));
    ChildrenConcat(space, xs, ys);
    ChildrenConcat(space, xs, [List(ys)]);
    ChildrenConcat(space, xs, [Map(es)]);
    ChildrenConcat(space, xs + ys, zs);
    ChildrenConcat(space, xs + [List(ys)], zs);
    ChildrenConcat(space, xs + [Map(es)], zs);
    ListRecords(space, xs + ys + zs);
    ListRecords(space, xs + [List(ys)] + zs);
    ListRecords(space, xs + [Map(es)] + zs);
  }

  lemma ListRecords(space: char -> bool, items: seq<Tree>)
    ensures Records(space, List(items)) == OfChildren(space, items)
  {
  }

  lemma GroupAndList(space: char -> bool, es: seq<Entry>, ys: seq<Tree>)
    requires OfEntries(space, es) == OfChildren(space, ys) && Keys(es) !! FIELDS
    ensures OfChild(space, List(ys)) == OfChildren(space, ys) == OfChild(space, Map(es))
  {
    hide OfEntries, OfChildren;
  }

  /******* Neither does the order *******/

  lemma {:induction false} ValuesConcat(os: seq<Obs>, ps: seq<Obs>)
    ensures Values(os + ps) == Values(os) + Values(ps)
    decreases |ps|
  {
    if ps == [] {
      assert os + ps == os;
    } else {
      var n := |ps| - 1;
      assert (os + ps)[..|os| + n] == os + ps[..n];
      ValuesConcat(os, ps[..n]);
    }
  }

  lemma ColumnConcat(rs: seq<Record>, qs: seq<Record>, f: Field)
    ensures Column(rs + qs, f) == Column(rs, f) + Column(qs, f)
  {
  }

  /** A field of a concatenation is the sum of the fields of the parts, NOT_AVAILABLE absorbing. */
  lemma SumOfConcat(rs: seq<Record>, qs: seq<Record>, f: Field)
    ensures SumIfComplete(rs + qs, f) == Plus(SumIfComplete(rs, f), SumIfComplete(qs, f))
  {
    var a, b := Column(rs, f), Column(qs, f);
    ColumnConcat(rs, qs, f);
    ValuesConcat(a, b);
    SumConcat(Values(a), Values(b));
    hide Column, Values, Sum, Add;
    assert None in a + b <==> None in a || None in b;
  }

  lemma SumOfMiddle(a: seq<Record>, r: Record, b: seq<Record>, f: Field)
    ensures SumIfComplete(a + [r] + b, f) == Plus(SumIfComplete(a + b, f), SumIfComplete([r], f))
  {
    SumOfConcat(a + [r], b, f);
    SumOfConcat(a, [r], f);
    SumOfConcat(a, b, f);
    PlusSwaps(SumIfComplete(a, f), SumIfComplete([r], f), SumIfComplete(b, f));
    hide SumIfComplete, Plus;
  }

  lemma PlusSwaps(a: Obs, b: Obs, c: Obs)
    ensures Plus(Plus(a, b), c) == Plus(Plus(a, c), b)
  {
    if a.Some? && b.Some? && c.Some? {
      AddLaws(a.value, b.value, c.value);
      AddLaws(b.value, c.value, a.value);
      AddLaws(a.value, c.value, b.value);
    }
    hide Add;
  }

  lemma {:induction false} SumsPermute(rs: seq<Record>, qs: seq<Record>, f: Field)
    requires multiset(rs) == multiset(qs)
    ensures SumIfComplete(rs, f) == SumIfComplete(qs, f)
    decreases |rs|
  {
    hide SumIfComplete, Plus;
    if rs == [] {
      EmptyMatch(qs);
    } else {
      var i := MatchLast(rs, qs);
      SumsPermute(rs[..|rs| - 1], Without(qs, i), f);
      SumOfConcat(rs[..|rs| - 1], [qs[i]], f);
      SumOfMiddle(qs[..i], qs[i], qs[i + 1..], f);
    }
  }

  lemma NormalizeIgnoresOrder(rs: seq<Record>, qs: seq<Record>)
    requires multiset(rs) == multiset(qs)
    ensures Normalize(rs) == Normalize(qs)
  {
    forall f: Field ensures SumIfComplete(rs, f) == SumIfComplete(qs, f) { SumsPermute(rs, qs, f); }
    assert |multiset(rs)| == |rs| && |multiset(qs)| == |qs|;
    hide SumIfComplete, Plus;
  }

  /** What a usage tree normalizes to; None means the code raises. */
  function NormalizeTree(space: char -> bool, v: Tree): Option<Record> {
    match Records(space, v) case None => None case Some(rs) => Some(Normalize(rs))
  }

  lemma JoinSwaps(a: Option<seq<Record>>, x: Option<seq<Record>>, b: Option<seq<Record>>)
    ensures
      var l, r := Join(Join(a, b), x), Join(Join(a, x), b);
      (l.Some? <==> r.Some?) && (l.Some? ==> multiset(l.value) == multiset(r.value))
  {
  }

  lemma {:induction false} ChildrenPermute(space: char -> bool, xs: seq<Tree>, ys: seq<Tree>)
    requires multiset(xs) == multiset(ys)
    ensures
      var l, r := OfChildren(space, xs), OfChildren(space, ys);
      (l.Some? <==> r.Some?) && (l.Some? ==> multiset(l.value) == multiset(r.value))
    decreases |xs|
  {
    hide OfChild, OfChildren;
    if xs == [] {
      EmptyMatch(ys);
    } else {
      var i := MatchLast(xs, ys);
      ChildrenPermute(space, xs[..|xs| - 1], Without(ys, i));
      ChildrenConcat(space, xs[..|xs| - 1], [ys[i]]);
      ChildrenConcat(space, ys[..i] + [ys[i]], ys[i + 1..]);
      ChildrenConcat(space, ys[..i], [ys[i]]);
      ChildrenConcat(space, ys[..i], ys[i + 1..]);
      JoinSwaps(OfChildren(space, ys[..i]), OfChildren(space, [ys[i]]), OfChildren(space, ys[i + 1..]));
    }
  }

  /** Reordering a usage list changes neither whether it is accepted nor what it normalizes to. */
  lemma UsageIgnoresChildOrder(space: char -> bool, xs: seq<Tree>, ys: seq<Tree>)
    requires multiset(xs) == multiset(ys)
    ensures NormalizeTree(space, List(xs)) == NormalizeTree(space, List(ys))
  {
    ChildrenPermute(space, xs, ys);
    ListRecords(space, xs);
    ListRecords(space, ys);
    hide Records, Normalize;
    if OfChildren(space, xs).Some? {
      NormalizeIgnoresOrder(OfChildren(space, xs).value, OfChildren(space, ys).value);
    }
  }

  /******* The loops *******/

  /** The children are visited in order and their records extend one list. */
  method CollectRecords(space: char -> bool, v: Tree) returns (res: Option<seq<Record>>)
    ensures res == Records(space, v)
    decreases v
  {
    match v
    case Nothing => return Some([]);
    case List(items) =>
      var records: seq<Record> := [];
      JoinIsAssociative(OfChildren(space, items), None, None);
      assert items[0..] == items;
      for i := 0 to |items|
        invariant Join(Some(records), OfChildren(space, items[i..])) == OfChildren(space, items)
      {
        hide OfChild;
        if items[i].Nothing? {
          ExtendBy(records, [EMPTY], OfChildren(space, items[i + 1..]));
          NullChild(space);
          records := records + [EMPTY];
        } else {
          var more := CollectRecords(space, items[i]);
          RealChild(space, items[i]);
          if more.None? { return None; }
          ExtendBy(records, more.value, OfChildren(space, items[i + 1..]));
          records := records + more.value;
        }
      }
      assert items[|items|..] == [] && records + [] == records;
      return Some(records);
    case Map(es) =>
      if !(Keys(es) !! FIELDS) {
        var r := RecordOf(space, es);
        if r.None? { return None; }
        return Some([r.value]);
      }
      var records: seq<Record> := [];
      JoinIsAssociative(OfEntries(space, es), None, None);
      assert es[0..] == es;
      for i := 0 to |es|
        invariant Join(Some(records), OfEntries(space, es[i..])) == OfEntries(space, es)
      {
        hide OfChild;
        var child := es[i].value;
        if child.Nothing? {
          ExtendBy(records, [EMPTY], OfEntries(space, es[i + 1..]));
          NullChild(space);
          records := records + [EMPTY];
        } else {
          var more := CollectRecords(space, child);
          RealChild(space, child);
          if more.None? { return None; }
          ExtendBy(records, more.value, OfEntries(space, es[i + 1..]));
          records := records + more.value;
        }
      }
      assert es[|es|..] == [] && records + [] == records;
      return Some(records);
    case _ => return None;
  }

  lemma NullChild(space: char -> bool)
    ensures OfChild(space, Nothing) == Some([EMPTY])
  {
  }

  lemma RealChild(space: char -> bool, v: Tree)
    requires !v.Nothing?
    ensures OfChild(space, v) == Records(space, v)
  {
    hide Records;
  }

  lemma ExtendBy(records: seq<Record>, more: seq<Record>, rest: Option<seq<Record>>)
    ensures Join(Some(records), Join(Some(more), rest)) == Join(Some(records + more), rest)
  {
    JoinIsAssociative(Some(records), Some(more), rest);
  }

  /******* What the total means *******/

  lemma TotalIsInputPlusOutput(rs: seq<Record>)
    ensures
      var r := Normalize(rs);
      r.input.Some? && r.output.Some? ==> r.total == Plus(r.input, r.output)
  {
  }

  lemma ConcatenationAdds(rs: seq<Record>, qs: seq<Record>)
    requires rs != [] && qs != []
    ensures
      var r, q, both := Normalize(rs), Normalize(qs), Normalize(rs + qs);
      && both.calls == Plus(r.calls, q.calls) && both.input == Plus(r.input, q.input)
      && both.output == Plus(r.output, q.output) && both.cost == Plus(r.cost, q.cost)
  {
    SumOfConcat(rs, qs, CallCount);
    SumOfConcat(rs, qs, InputTokens);
    SumOfConcat(rs, qs, OutputTokens);
    SumOfConcat(rs, qs, CostField);
    hide SumIfComplete, Plus;
  }

  /** True when a part's total is the sum of its input and output. */
  predicate Split(rs: seq<Record>) {
    SumIfComplete(rs, InputTokens).Some? && SumIfComplete(rs, OutputTokens).Some?
  }

  predicate SaneObs(o: Obs, f: Field) {
    o.Some? ==> o.value.Val() >= 0.0 && (f != CostField ==> o.value.IntNum?)
  }

  /** Nothing is negative and token counts are integers; only the cost may be fractional. */
  predicate Sane(rs: seq<Record>) {
    forall r, f | r in rs :: SaneObs(r.Get(f), f)
  }

  lemma RecordIsSane(space: char -> bool, es: seq<Entry>)
    requires RecordOf(space, es).Some?
    ensures Sane([RecordOf(space, es).value])
  {
    hide Lookup, NameOk, Keys;
  }

  lemma {:induction false} RecordsAreSane(space: char -> bool, v: Tree)
    requires Records(space, v).Some?
    ensures Sane(Records(space, v).value)
    decreases v, 0
  {
    match v
    case List(items) => ChildrenAreSane(space, items);
    case Map(es) =>
      if Keys(es) !! FIELDS { EntriesAreSane(space, es); } else { RecordIsSane(space, es); }
    case _ =>
  }

  lemma {:induction false} ChildIsSane(space: char -> bool, v: Tree)
    requires OfChild(space, v).Some?
    ensures Sane(OfChild(space, v).value)
    decreases v, 1
  {
    hide Records;
    if !v.Nothing? { RecordsAreSane(space, v); }
  }

  lemma {:induction false} ChildrenAreSane(space: char -> bool, items: seq<Tree>)
    requires OfChildren(space, items).Some?
    ensures Sane(OfChildren(space, items).value)
    decreases items, 0
  {
    hide OfChild, SaneObs;
    if items != [] {
      ChildIsSane(space, items[0]);
      ChildrenAreSane(space, items[1..]);
    }
  }

  lemma {:induction false} EntriesAreSane(space: char -> bool, es: seq<Entry>)
    requires OfEntries(space, es).Some?
    ensures Sane(OfEntries(space, es).value)
    decreases es, 0
  {
    hide OfChild, SaneObs;
    if es != [] {
      ChildIsSane(space, es[0].value);
      EntriesAreSane(space, es[1..]);
    }
  }

  lemma {:induction false} SumOfSane(os: seq<Obs>, f: Field)
    requires forall o | o in os :: SaneObs(o, f)
    ensures SaneObs(Some(Sum(Values(os))), f)
    decreases |os|
  {
    if os != [] {
      var n := |os| - 1;
      SumOfSane(os[..n], f);
      var vs := Values(os[..n]);
      assert SaneObs(os[n], f) && vs + [] == vs;
      if os[n].Some? { assert (vs + [os[n].value])[..|vs|] == vs; }
    }
  }

  lemma SumIsSane(rs: seq<Record>, f: Field)
    requires Sane(rs)
    ensures SaneObs(SumIfComplete(rs, f), f)
  {
    hide SaneObs;
    forall o | o in Column(rs, f) ensures SaneObs(o, f) {
      var i :| 0 <= i < |rs| && Column(rs, f)[i] == o;
      assert rs[i] in rs;
    }
    SumOfSane(Column(rs, f), f);
    NothingIsSane(f);
  }

  lemma NothingIsSane(f: Field)
    ensures SaneObs(None, f)
  {
  }

  lemma NormalizedIsSane(rs: seq<Record>)
    requires Sane(rs)
    ensures Sane([Normalize(rs)])
  {
    hide SumIfComplete;
    forall f ensures SaneObs(SumIfComplete(rs, f), f) { SumIsSane(rs, f); }
    hide Sane;
    forall f ensures SaneObs(Normalize(rs).Get(f), f) {}
    OneIsSane(Normalize(rs));
  }

  lemma OneIsSane(r: Record)
    requires forall f :: SaneObs(r.Get(f), f)
    ensures Sane([r])
  {
    hide SaneObs;
  }

  lemma PlusCancels(a: Obs, b: Obs, c: Obs)
    requires a.Some? && (b.Some? ==> b.value.IntNum?) && a.value.IntNum? && (c.Some? ==> c.value.IntNum?)
    ensures Plus(a, c) == Plus(b, c) <==> a == b || c.None?
    ensures Plus(c, a) == Plus(c, b) <==> a == b || c.None?
  {
  }

  /** What the parts' declared totals add up to. */
  function Declared(rs: seq<Record>): Obs {
    SumIfComplete(rs, TotalTokens)
  }

  /**
   Totals do not always add.  They do when both parts are split or neither is.  When just
   one is, they do exactly when the other has no total, or the split part's declared totals
   are complete and agree with its input plus output.
   */
  lemma TotalsAddExactlyWhen(rs: seq<Record>, qs: seq<Record>)
    requires rs != [] && qs != [] && Sane(rs) && Sane(qs)
    ensures
      var r, q, both := Normalize(rs), Normalize(qs), Normalize(rs + qs);
      both.total == Plus(r.total, q.total) <==>
        || Split(rs) == Split(qs)
        || (Split(rs) && (q.total.None? || Declared(rs) == r.total))
        || (Split(qs) && (r.total.None? || Declared(qs) == q.total))
  {
    SumOfConcat(rs, qs, InputTokens);
    SumOfConcat(rs, qs, OutputTokens);
    SumOfConcat(rs, qs, TotalTokens);
    forall f: Field ensures SaneObs(SumIfComplete(rs, f), f) && SaneObs(SumIfComplete(qs, f), f) {
      SumIsSane(rs, f);
      SumIsSane(qs, f);
    }
    hide SumIfComplete, Sane, Plus;
    TotalLogic(
      SumIfComplete(rs, InputTokens), SumIfComplete(rs, OutputTokens), Declared(rs),
      SumIfComplete(qs, InputTokens), SumIfComplete(qs, OutputTokens), Declared(qs));
  }

  function Total(input: Obs, output: Obs, declared: Obs): Obs {
    if input.Some? && output.Some? then Plus(input, output) else declared
  }

  predicate Whole(o: Obs) {
    o.Some? ==> o.value.IntNum?
  }

  lemma PlusOfWhole(a: Obs, b: Obs)
    requires Whole(a) && Whole(b)
    ensures Whole(Plus(a, b)) && (Plus(a, b).Some? <==> a.Some? && b.Some?)
  {
  }

  lemma PlusShuffles(a: Obs, b: Obs, c: Obs, d: Obs)
    ensures Plus(Plus(a, b), Plus(c, d)) == Plus(Plus(a, c), Plus(b, d))
  {
  }

  lemma TotalLogic(ri: Obs, ro: Obs, rt: Obs, qi: Obs, qo: Obs, qt: Obs)
    requires Whole(ri) && Whole(ro) && Whole(rt) && Whole(qi) && Whole(qo) && Whole(qt)
    ensures
      var r, q := Total(ri, ro, rt), Total(qi, qo, qt);
      var rSplit, qSplit := ri.Some? && ro.Some?, qi.Some? && qo.Some?;
      Total(Plus(ri, qi), Plus(ro, qo), Plus(rt, qt)) == Plus(r, q) <==>
        rSplit == qSplit || (rSplit && (q.None? || rt == r)) || (qSplit && (r.None? || qt == q))
  {
    PlusOfWhole(ri, ro);
    PlusOfWhole(qi, qo);
    PlusOfWhole(ri, qi);
    PlusOfWhole(ro, qo);
    PlusShuffles(ri, qi, ro, qo);
    if ri.Some? && ro.Some? { PlusCancels(Plus(ri, ro), rt, qt); }
    if qi.Some? && qo.Some? { PlusCancels(Plus(qi, qo), qt, rt); }
    hide Plus;
  }

  /******* Two accepted lists whose totals do not add *******/

  function Count(n: int): Tree {
    Scalar(IntNum(n))
  }

  /** A record with input, output and a declared total, and a record with a total only. */
  function SplitEntry(input: int, output: int, total: int): Tree {
    Map([Entry("input_tokens", Count(input)), Entry("output_tokens", Count(output)), Entry("total_tokens", Count(total))])
  }

  function TotalEntry(total: int): Tree {
    Map([Entry("total_tokens", Count(total))])
  }

  lemma LookupCons(e: Entry, rest: seq<Entry>, key: string)
    ensures Lookup([e] + rest, key) == if e.key == key then Some(e.value) else Lookup(rest, key)
  {
    assert ([e] + rest)[1..] == rest;
  }

  lemma LookupThree(a: Entry, b: Entry, c: Entry, key: string)
    ensures Lookup([c], key) == if c.key == key then Some(c.value) else None
    ensures Lookup([a, b, c], key) ==
              if a.key == key then Some(a.value) else if b.key == key then Some(b.value)
              else if c.key == key then Some(c.value) else None
  {
    LookupCons(a, [b, c], key);
    LookupCons(b, [c], key);
    LookupCons(c, [], key);
    assert [a] + [b, c] == [a, b, c] && [b] + [c] == [b, c] && [c] + [] == [c];
  }

  lemma SplitEntryRecord(space: char -> bool, input: nat, output: nat, total: nat)
    ensures Records(space, SplitEntry(input, output, total)) ==
              Some([Record(None, Some(IntNum(input)), Some(IntNum(output)), Some(IntNum(total)), None)])
  {
    var es := SplitEntry(input, output, total).entries;
    assert Keys(es) == {"input_tokens", "output_tokens", "total_tokens"};
    forall key ensures Lookup(es, key) ==
                         if es[0].key == key then Some(es[0].value) else if es[1].key == key then Some(es[1].value)
                         else if es[2].key == key then Some(es[2].value) else None
    {
      LookupThree(es[0], es[1], es[2], key);
    }
    hide Lookup;
  }

  lemma TotalEntryRecord(space: char -> bool, total: nat)
    ensures Records(space, TotalEntry(total)) == Some([Record(None, None, None, Some(IntNum(total)), None)])
  {
    var es := TotalEntry(total).entries;
    assert Keys(es) == {"total_tokens"};
    forall key ensures Lookup(es, key) == if es[0].key == key then Some(es[0].value) else None { LookupThree(es[0], es[0], es[0], key); }
    hide Lookup;
  }

  lemma OneRecordSums(r: Record)
    ensures forall f :: SumIfComplete([r], f) == r.Get(f)
  {
    forall f ensures SumIfComplete([r], f) == r.Get(f) {
      var o := r.Get(f);
      assert Column([r], f) == [o];
      assert [o][..0] == [] && Values([]) == [];
      if o.Some? { SumOne(o.value); assert Values([o]) == [o.value]; }
    }
  }

  lemma ListOfOne(space: char -> bool, v: Tree)
    requires !v.Nothing?
    ensures Records(space, List([v])) == Records(space, v)
  {
    ListRecords(space, [v]);
    OneChild(space, v);
    RealChild(space, v);
    hide Records, OfChildren, OfChild;
  }

  lemma ListOfTwo(space: char -> bool, v: Tree, w: Tree)
    requires !v.Nothing? && !w.Nothing?
    ensures Records(space, List([v, w])) == Join(Records(space, v), Records(space, w))
  {
    ListRecords(space, [v, w]);
    ChildrenConcat(space, [v], [w]);
    OneChild(space, v);
    OneChild(space, w);
    RealChild(space, v);
    RealChild(space, w);
    assert [v] + [w] == [v, w];
    hide Records, OfChildren, OfChild, Join;
  }

  /** The totals of two records, apart and together. */
  lemma TotalsOfTwo(x: Record, y: Record)
    requires x.input.Some? && x.output.Some? && x.total.Some? && y.input.None? && y.output.None? && y.total.Some?
    ensures Normalize([x]).total == Plus(x.input, x.output) && Normalize([y]).total == y.total
    ensures Normalize([x] + [y]).total == Plus(x.total, y.total)
  {
    OneRecordSums(x);
    OneRecordSums(y);
    SumOfConcat([x], [y], InputTokens);
    SumOfConcat([x], [y], TotalTokens);
    hide SumIfComplete, Add;
  }

  /**
   Two lists the code accepts: the totals of the lists are 'input + output' and 'other', the
   total of both together is 'declared + other'.  So they add up only if the first record
   declares the right total; 1 + 1 declared as 5 does not.
   */
  lemma TotalsNeedNotAdd(space: char -> bool, input: nat, output: nat, declared: nat, other: nat)
    ensures
      var v, w := SplitEntry(input, output, declared), TotalEntry(other);
      var l, r, both := NormalizeTree(space, List([v])), NormalizeTree(space, List([w])), NormalizeTree(space, List([v, w]));
      && l.Some? && l.value.total == Some(IntNum(input + output))
      && r.Some? && r.value.total == Some(IntNum(other))
      && both.Some? && both.value.total == Some(IntNum(declared + other))
      && (both.value.total == Plus(l.value.total, r.value.total) <==> declared == input + output)
  {
    hide Records, SumIfComplete, Normalize, RecordOf;
    var v, w := SplitEntry(input, output, declared), TotalEntry(other);
    var x := Record(None, Some(IntNum(input)), Some(IntNum(output)), Some(IntNum(declared)), None);
    var y := Record(None, None, None, Some(IntNum(other)), None);
    SplitEntryRecord(space, input, output, declared);
    TotalEntryRecord(space, other);
    ListOfOne(space, v);
    ListOfOne(space, w);
    ListOfTwo(space, v, w);
    TotalsOfTwo(x, y);
    hide SplitEntry, TotalEntry;
  }
}
