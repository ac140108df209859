/** Python's integers and floats over exact arithmetic, and observations that may be NOT_AVAILABLE. */
module Numbers {
  import opened Json
  import opened Sequences

  datatype Num = IntNum(n: int) | RealNum(x: real) {
    function Val(): real {
      match this
      case IntNum(n) => n as real
      case RealNum(x) => x
    }
  }

  function Add(a: Num, b: Num): Num {
    if a.IntNum? && b.IntNum? then IntNum(a.n + b.n) else RealNum(a.Val() + b.Val())
  }

  function Sub(a: Num, b: Num): Num {
    if a.IntNum? && b.IntNum? then IntNum(a.n - b.n) else RealNum(a.Val() - b.Val())
  }

  /** Python's == across the two types. */
  predicate Same(a: Num, b: Num) {
    a.Val() == b.Val()
  }

  /** None is NOT_AVAILABLE. */
  type Obs = Option<Num>

  function Plus(a: Obs, b: Obs): Obs {
    if a.Some? && b.Some? then Some(Add(a.value, b.value)) else None
  }

  function Sum(vs: seq<Num>): Num {
    if vs == [] then IntNum(0) else Add(Sum(vs[..|vs| - 1]), vs[|vs| - 1])
  }

  lemma AddLaws(a: Num, b: Num, c: Num)
    ensures Add(a, b) == Add(b, a)
    ensures Add(Add(a, b), c) == Add(a, Add(b, c))
    ensures Add(IntNum(0), a) == a
    ensures Add(a, b).Val() == a.Val() + b.Val()
    ensures Sub(a, b).Val() == a.Val() - b.Val()
  {
  }

  lemma {:induction false} SumConcat(vs: seq<Num>, ws: seq<Num>)
    ensures Sum(vs + ws) == Add(Sum(vs), Sum(ws))
  {
    hide Add;
    if ws == [] {
      assert vs + ws == vs;
      AddLaws(IntNum(0), Sum(vs), Sum(vs));
      AddLaws(Sum(vs), IntNum(0), Sum(vs));
    } else {
      var n := |ws| - 1;
      assert (vs + ws)[..|vs| + n] == vs + ws[..n];
      SumConcat(vs, ws[..n]);
      AddLaws(Sum(vs), Sum(ws[..n]), ws[n]);
    }
  }

  lemma SumOne(v: Num)
    ensures Sum([v]) == v
  {
    AddLaws(v, v, v);
    assert [v][..0] == [];
  }

  lemma SumMiddle(a: seq<Num>, v: Num, b: seq<Num>)
    ensures Sum(a + [v] + b) == Add(Sum(a + b), v)
  {
    SumConcat(a + [v], b);
    SumConcat(a, [v]);
    SumConcat(a, b);
    SumOne(v);
    hide Sum, Add;
    AddLaws(Sum(a), v, Sum(b));
    AddLaws(v, Sum(b), v);
    AddLaws(Sum(a), Sum(b), v);
  }

  /** A sum depends only on which values there are, and how often. */
  lemma {:induction false} SumPermutes(vs: seq<Num>, ws: seq<Num>)
    requires multiset(vs) == multiset(ws)
    ensures Sum(vs) == Sum(ws)
    decreases |vs|
  {
    hide Add;
    if vs == [] {
      EmptyMatch(ws);
    } else {
      var i := MatchLast(vs, ws);
      SumPermutes(vs[..|vs| - 1], Without(ws, i));
      SumMiddle(ws[..i], ws[i], ws[i + 1..]);
    }
  }
}
