/** Exact readbacks and the ledger that receipts carry from stage to stage. */
module Readback {
  import opened Bytes
  import opened Json
  import opened Sealing
  import opened Encoding

  const MAX_RAW: nat := 4 * 1024 * 1024

  datatype Raw = Raw(source: string, ref: string, raw: Bytes, hash: string)

  /** A readback as a receipt holds it. */
  datatype Item = Item(source: string, ref: string, text: string, hash: string)

  function AsDict(r: Raw): Item {
    Item(r.source, r.ref, Base64(r.raw), r.hash)
  }

  /** None means the code raises. */
  function Decode(c: Scheme, h: Hasher, item: Item): Option<Raw> {
    if !c.IsRef(item.source) || !c.IsRef(item.ref) then None
    else match FromBase64(item.text)
      case None => None
      case Some(raw) =>
        if raw == [] || |raw| > MAX_RAW || Base64(raw) != item.text then None
        else if !c.isHash(item.hash) || h.digest(raw) != item.hash then None
        else Some(Raw(item.source, item.ref, raw, item.hash))
  }

  predicate Acceptable(c: Scheme, h: Hasher, r: Raw) {
    && c.IsRef(r.source) && c.IsRef(r.ref) && r.raw != [] && |r.raw| <= MAX_RAW
    && c.isHash(r.hash) && h.digest(r.raw) == r.hash
  }

  /** A readback survives the trip through a receipt, and nothing else is read as it. */
  lemma ReadbackRoundTrip(c: Scheme, h: Hasher, r: Raw, item: Item)
    ensures Decode(c, h, item) == Some(r) <==> item == AsDict(r) && Acceptable(c, h, r)
  {
    OneAcceptedText(item.text, r.raw);
    hide FromBase64, Base64, Scheme.IsReference;
  }

  predicate SameKey(x: Item, y: Item) {
    x.source == y.source && x.ref == y.ref
  }

  /** Adds a readback unless the ledger has it; None when the ledger has other bytes under its key. */
  function Add(ledger: seq<Item>, x: Item): Option<seq<Item>> {
    if ledger == [] then Some([x])
    else if SameKey(ledger[0], x) then
      if ledger[0].hash != x.hash || ledger[0].text != x.text then None else Some(ledger)
    else match Add(ledger[1..], x)
      case None => None
      case Some(rest) => Some([ledger[0]] + rest)
  }

  /** The hash remembered for a source and reference. */
  function HashAt(ledger: seq<Item>, x: Item): Option<string> {
    if ledger == [] then None else if SameKey(ledger[0], x) then Some(ledger[0].hash) else HashAt(ledger[1..], x)
  }

  lemma {:induction false} HashAtNone(ledger: seq<Item>, x: Item)
    ensures HashAt(ledger, x).None? <==> forall y | y in ledger :: !SameKey(y, x)
  {
    if ledger != [] {
      assert ledger == [ledger[0]] + ledger[1..];
      HashAtNone(ledger[1..], x);
    }
  }

  /** Decodes every item and drops repetitions. */
  function Normalize(c: Scheme, h: Hasher, items: seq<Item>): Option<seq<Item>> {
    if items == [] then Some([])
    else
      var n := |items| - 1;
      match (Normalize(c, h, items[..n]), Decode(c, h, items[n]))
      case (Some(kept), Some(_)) =>
        (match HashAt(kept, items[n])
         case None => Some(kept + [items[n]])
         case Some(hash) => if hash == items[n].hash then Some(kept) else None)
      case _ => None
  }

  /** One entry per source and reference: the ledger is a function from those to bytes. */
  predicate Functional(ledger: seq<Item>) {
    forall i, j | 0 <= i < j < |ledger| :: !SameKey(ledger[i], ledger[j])
  }

  predicate AllDecode(c: Scheme, h: Hasher, ledger: seq<Item>) {
    forall x | x in ledger :: Decode(c, h, x).Some?
  }

  predicate Ledger(c: Scheme, h: Hasher, ledger: seq<Item>) {
    Functional(ledger) && AllDecode(c, h, ledger)
  }

  lemma KeepOne(c: Scheme, h: Hasher, kept: seq<Item>, x: Item)
    requires Ledger(c, h, kept) && HashAt(kept, x).None? && Decode(c, h, x).Some?
    ensures Ledger(c, h, kept + [x])
  {
    HashAtNone(kept, x);
    hide Decode, SameKey, HashAt;
  }

  lemma {:induction false} NormalizeYieldsLedger(c: Scheme, h: Hasher, items: seq<Item>)
    requires Normalize(c, h, items).Some?
    ensures
      var kept := Normalize(c, h, items).value;
      Ledger(c, h, kept) && (forall x | x in kept :: x in items) && (forall x | x in items :: HashAt(kept, x) == Some(x.hash))
  {
    if items != [] {
      hide Decode, HashAt, Ledger, SameKey;
      var n := |items| - 1;
      var kept, x := Normalize(c, h, items[..n]).value, items[n];
      NormalizeYieldsLedger(c, h, items[..n]);
      assert items == items[..n] + [x];
      if HashAt(kept, x).None? {
        KeepOne(c, h, kept, x);
        forall y | y in items ensures HashAt(kept + [x], y) == Some(y.hash) { HashAtAppend(kept, x, y); }
      }
    }
  }

  lemma {:induction false} HashAtAppend(ledger: seq<Item>, x: Item, y: Item)
    ensures HashAt(ledger + [x], y) ==
              if HashAt(ledger, y).Some? then HashAt(ledger, y) else if SameKey(x, y) then Some(x.hash) else None
  {
    hide SameKey;
    if ledger == [] {
      assert ledger + [x] == [x] && [x][1..] == [];
    } else {
      assert (ledger + [x])[1..] == ledger[1..] + [x];
      HashAtAppend(ledger[1..], x, y);
    }
  }

  /** Normalizing a ledger changes nothing: what a receipt carries is what the next stage reads. */
  lemma {:induction false} LedgerIsNormal(c: Scheme, h: Hasher, ledger: seq<Item>)
    requires Ledger(c, h, ledger)
    ensures Normalize(c, h, ledger) == Some(ledger)
  {
    hide Decode, HashAt, SameKey;
    if ledger != [] {
      var n := |ledger| - 1;
      LedgerIsNormal(c, h, ledger[..n]);
      assert ledger == ledger[..n] + [ledger[n]];
      HashAtNone(ledger[..n], ledger[n]);
    }
  }

  lemma FirstIsAlone(ledger: seq<Item>)
    requires Functional(ledger) && ledger != []
    ensures Functional(ledger[1..]) && forall y | y in ledger[1..] :: !SameKey(ledger[0], y) && !SameKey(y, ledger[0])
  {
    forall i | 0 <= i < |ledger| - 1 ensures !SameKey(ledger[0], ledger[1..][i]) { assert !SameKey(ledger[0], ledger[i + 1]); }
  }

  lemma AppendKeepsFunctional(ledger: seq<Item>, x: Item)
    requires Functional(ledger) && forall y | y in ledger :: !SameKey(y, x)
    ensures Functional(ledger + [x])
  {
    hide SameKey;
  }

  /** Adding refuses exactly a conflict, and otherwise appends or does nothing. */
  lemma {:induction false} AddIsExact(ledger: seq<Item>, x: Item)
    requires Functional(ledger)
    ensures Add(ledger, x).None? <==> exists y | y in ledger :: SameKey(y, x) && y != x
    ensures Add(ledger, x).Some? ==> Add(ledger, x).value == if x in ledger then ledger else ledger + [x]
    ensures Add(ledger, x).Some? ==> Functional(Add(ledger, x).value)
  {
    AddValue(ledger, x);
    hide Add;
    if Add(ledger, x).Some? && x !in ledger { AppendKeepsFunctional(ledger, x); }
  }

  lemma {:induction false} AddValue(ledger: seq<Item>, x: Item)
    requires Functional(ledger)
    ensures Add(ledger, x) ==
              if exists y | y in ledger :: SameKey(y, x) && y != x then None
              else Some(if x in ledger then ledger else ledger + [x])
  {
    if ledger == [] {
      assert ledger + [x] == [x];
    } else {
      var first, rest := ledger[0], ledger[1..];
      assert ledger == [first] + rest;
      FirstIsAlone(ledger);
      AddValue(rest, x);
      hide Functional;
      if SameKey(first, x) {
        assert forall y | y in rest :: !SameKey(y, x);
        assert x !in rest;
      } else {
        assert [first] + (rest + [x]) == ledger + [x];
      }
    }
  }

  /** What the ledger says about a source and reference. */
  function Content(ledger: seq<Item>, source: string, ref: string): Option<string> {
    if ledger == [] then None
    else if ledger[0].source == source && ledger[0].ref == ref then Some(ledger[0].text)
    else Content(ledger[1..], source, ref)
  }

  lemma {:induction false} PrefixKeepsContent(ledger: seq<Item>, more: seq<Item>, source: string, ref: string)
    requires Content(ledger, source, ref).Some?
    ensures Content(ledger + more, source, ref) == Content(ledger, source, ref)
  {
    assert (ledger + more)[1..] == ledger[1..] + more;
    if !(ledger[0].source == source && ledger[0].ref == ref) { PrefixKeepsContent(ledger[1..], more, source, ref); }
  }

  lemma InPrefix(l: seq<Item>, more: seq<Item>, x: Item)
    requires l <= more && x in l
    ensures x in more
  {
  }

  function AddAll(ledger: seq<Item>, xs: seq<Item>): Option<seq<Item>>
    decreases |xs|
  {
    if xs == [] then Some(ledger)
    else match Add(ledger, xs[0]) case None => None case Some(l) => AddAll(l, xs[1..])
  }

  /** Any number of additions: the ledger stays a function, keeps every entry in place, and holds what was added. */
  lemma {:induction false} AddAllOnlyGrows(ledger: seq<Item>, xs: seq<Item>)
    requires Functional(ledger) && AddAll(ledger, xs).Some?
    ensures var l := AddAll(ledger, xs).value; Functional(l) && ledger <= l && (forall x | x in xs :: x in l)
    decreases |xs|
  {
    hide Functional, SameKey, Add;
    if xs != [] {
      AddIsExact(ledger, xs[0]);
      assert xs == [xs[0]] + xs[1..];
      var l := Add(ledger, xs[0]).value;
      assert xs[0] in l && ledger <= l;
      AddAllOnlyGrows(l, xs[1..]);
      InPrefix(l, AddAll(l, xs[1..]).value, xs[0]);
    }
  }

  /** A functional ledger that normalizes at all is left as it is. */
  lemma FunctionalIsNormal(c: Scheme, h: Hasher, ledger: seq<Item>)
    requires Functional(ledger) && Normalize(c, h, ledger).Some?
    ensures Normalize(c, h, ledger) == Some(ledger) && Ledger(c, h, ledger)
  {
    EveryItemDecodes(c, h, ledger);
    LedgerIsNormal(c, h, ledger);
  }

  lemma {:induction false} EveryItemDecodes(c: Scheme, h: Hasher, items: seq<Item>)
    requires Normalize(c, h, items).Some?
    ensures AllDecode(c, h, items)
  {
    hide Decode, HashAt;
    if items != [] {
      EveryItemDecodes(c, h, items[..|items| - 1]);
      assert items == items[..|items| - 1] + [items[|items| - 1]];
    }
  }

  /** The indices of the entries a lookup matches. */
  predicate Matches(x: Item, source: string, hash: Option<string>, ref: Option<string>) {
    x.source == source && (hash.Some? ==> x.hash == hash.value) && (ref.Some? ==> x.ref == ref.value)
  }

  function Matching(ledger: seq<Item>, source: string, hash: Option<string>, ref: Option<string>): seq<Item> {
    if ledger == [] then []
    else (if Matches(ledger[0], source, hash, ref) then [ledger[0]] else []) + Matching(ledger[1..], source, hash, ref)
  }

  /** A lookup wants exactly one match. */
  function FindOne(ledger: seq<Item>, source: string, hash: Option<string>, ref: Option<string>): Option<Item> {
    var found := Matching(ledger, source, hash, ref);
    if |found| == 1 then Some(found[0]) else None
  }

  lemma {:induction false} MatchingMembers(ledger: seq<Item>, source: string, hash: Option<string>, ref: Option<string>)
    ensures forall x :: x in Matching(ledger, source, hash, ref) <==> x in ledger && Matches(x, source, hash, ref)
  {
    hide Matches;
    if ledger != [] {
      assert ledger == [ledger[0]] + ledger[1..];
      MatchingMembers(ledger[1..], source, hash, ref);
    }
  }

  lemma ConsKeepsFunctional(x: Item, rest: seq<Item>)
    requires Functional(rest) && forall y | y in rest :: !SameKey(x, y)
    ensures Functional([x] + rest)
  {
    hide SameKey;
  }

  lemma {:induction false} MatchingFinds(ledger: seq<Item>, source: string, hash: Option<string>, ref: Option<string>)
    ensures forall x :: x in Matching(ledger, source, hash, ref) <==> x in ledger && Matches(x, source, hash, ref)
    ensures Functional(ledger) ==> Functional(Matching(ledger, source, hash, ref))
  {
    MatchingMembers(ledger, source, hash, ref);
    if ledger != [] && Functional(ledger) {
      FirstIsAlone(ledger);
      hide Matches, SameKey, Functional;
      var rest := Matching(ledger[1..], source, hash, ref);
      MatchingFinds(ledger[1..], source, hash, ref);
      ConsKeepsFunctional(ledger[0], rest);
      assert [] + rest == rest;
    }
  }

  /** By source and reference a lookup finds every entry. */
  lemma LookupByReference(ledger: seq<Item>, x: Item)
    requires Functional(ledger) && x in ledger
    ensures FindOne(ledger, x.source, None, Some(x.ref)) == Some(x)
    ensures FindOne(ledger, x.source, Some(x.hash), Some(x.ref)) == Some(x)
  {
    MatchingFinds(ledger, x.source, None, Some(x.ref));
    MatchingFinds(ledger, x.source, Some(x.hash), Some(x.ref));
    OnlyOne(ledger, Matching(ledger, x.source, None, Some(x.ref)), x);
    OnlyOne(ledger, Matching(ledger, x.source, Some(x.hash), Some(x.ref)), x);
    hide Matching;
  }

  lemma FirstTwoDiffer(found: seq<Item>)
    requires Functional(found)
    ensures |found| <= 1 || !SameKey(found[0], found[1])
  {
  }

  lemma OnlyOne(ledger: seq<Item>, found: seq<Item>, x: Item)
    requires Functional(ledger) && Functional(found) && x in found
    requires forall y | y in found :: SameKey(y, x)
    ensures found == [x]
  {
    forall k | 0 <= k < |found| ensures SameKey(found[k], x) { assert found[k] in found; }
    FirstTwoDiffer(found);
  }

  /**
   By source and hash it finds an entry exactly when no other entry of that source has the
   same hash, that is, the same bytes under another reference.
   */
  lemma LookupByHashExactlyWhen(ledger: seq<Item>, x: Item)
    requires Functional(ledger) && x in ledger
    ensures FindOne(ledger, x.source, Some(x.hash), None) == Some(x) <==>
              forall y | y in ledger && y.source == x.source && y.hash == x.hash :: y.ref == x.ref
  {
    var found := Matching(ledger, x.source, Some(x.hash), None);
    MatchingFinds(ledger, x.source, Some(x.hash), None);
    assert Matches(x, x.source, Some(x.hash), None) && x in found;
    if forall y | y in ledger && y.source == x.source && y.hash == x.hash :: y.ref == x.ref {
      forall y | y in found ensures SameKey(y, x) { assert Matches(y, x.source, Some(x.hash), None); }
      OnlyOne(ledger, found, x);
    } else {
      var y :| y in ledger && y.source == x.source && y.hash == x.hash && y.ref != x.ref;
      assert Matches(y, x.source, Some(x.hash), None) && y in found;
    }
    hide Matching, Functional;
  }

  /** So a lookup by hash fails or finds the only reference under which the ledger has these bytes. */
  lemma FoundIsAlone(ledger: seq<Item>, source: string, hash: string)
    requires Functional(ledger) && FindOne(ledger, source, Some(hash), None).Some?
    ensures
      var x := FindOne(ledger, source, Some(hash), None).value;
      && x in ledger && x.source == source && x.hash == hash
      && forall y | y in ledger && y.source == source && y.hash == hash :: y.ref == x.ref
  {
    var x := FindOne(ledger, source, Some(hash), None).value;
    var found := Matching(ledger, source, Some(hash), None);
    MatchingFinds(ledger, source, Some(hash), None);
    assert x in found && Matches(x, source, Some(hash), None);
    hide Matching, Functional;
    LookupByHashExactlyWhen(ledger, x);
  }

  /** Two references to the same bytes are enough to make the lookup by hash fail. */
  lemma SameBytesTwiceAreAmbiguous(source: string, text: string, hash: string, ref: string, other: string)
    requires ref != other
    ensures
      var ledger := [Item(source, ref, text, hash), Item(source, other, text, hash)];
      Functional(ledger) && FindOne(ledger, source, Some(hash), None) == None
  {
    var x, y := Item(source, ref, text, hash), Item(source, other, text, hash);
    assert [x, y][1..] == [y] && [y][1..] == [];
    assert Matching([y], source, Some(hash), None) == [y];
    assert Matching([x, y], source, Some(hash), None) == [x] + [y];
  }

  /******* The loops *******/

  method AddReadback(ledger: seq<Item>, x: Item) returns (res: Option<seq<Item>>)
    requires Functional(ledger)
    ensures res == Add(ledger, x)
  {
    AddIsExact(ledger, x);
    hide Add;
    for i := 0 to |ledger|
      invariant forall j | 0 <= j < i :: !SameKey(ledger[j], x)
    {
      if SameKey(ledger[i], x) {
        if ledger[i].hash != x.hash || ledger[i].text != x.text {
          assert ledger[i] in ledger;
          return None;
        }
        assert ledger[i] == x;
        assert forall y | y in ledger && SameKey(y, x) :: y == x;
        return Some(ledger);
      }
    }
    return Some(ledger + [x]);
  }

  method ReadbackList(c: Scheme, h: Hasher, items: seq<Item>) returns (res: Option<seq<Item>>)
    ensures res == Normalize(c, h, items)
  {
    hide Decode, HashAt;
    var kept: seq<Item> := [];
    for i := 0 to |items|
      invariant Normalize(c, h, items[..i]) == Some(kept)
    {
      assert items[..i + 1][..i] == items[..i];
      var seen := HashAt(kept, items[i]);
      if Decode(c, h, items[i]).None? || (seen.Some? && seen.value != items[i].hash) {
        NormalizeFails(c, h, items, i + 1);
        return None;
      }
      if seen.None? { kept := kept + [items[i]]; }
    }
    assert items[..|items|] == items;
    return Some(kept);
  }

  lemma {:induction false} NormalizeFails(c: Scheme, h: Hasher, items: seq<Item>, i: nat)
    requires i <= |items| && Normalize(c, h, items[..i]).None?
    ensures Normalize(c, h, items).None?
    decreases |items|
  {
    hide Decode, HashAt;
    if i == |items| {
      assert items[..i] == items;
    } else {
      var n := |items| - 1;
      assert items[..n][..i] == items[..i];
      NormalizeFails(c, h, items[..n], i);
    }
  }
}
