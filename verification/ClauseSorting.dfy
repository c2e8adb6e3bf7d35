/** The order in which the literals of an added clause are looked at
    (src/sat/solvers/glucose/src/core/Solver.cc:396-423). */
module ClauseSorting {
  import opened Trails

  /** Literals are numbered so that the two of a variable are neighbours. */
  function Key(q: Lit): nat {
    2 * q.x + if q.sign then 1 else 0
  }

  lemma KeyInjective(q: Lit, r: Lit)
    requires Key(q) == Key(r)
    ensures q == r
  {
  }

  predicate KeysAscend(cls: Clause) {
    forall i, j | 0 <= i < j < |cls| :: Key(cls[i]) <= Key(cls[j])
  }

  predicate KeysStrictlyAscend(cls: Clause) {
    forall i, j | 0 <= i < j < |cls| :: Key(cls[i]) < Key(cls[j])
  }

  function Insert(q: Lit, cls: Clause): (r: Clause)
    ensures |r| == |cls| + 1
  {
    if cls == [] || Key(q) <= Key(cls[0]) then [q] + cls else [cls[0]] + Insert(q, cls[1..])
  }

  function SortLits(cls: Clause): (r: Clause)
    ensures |r| == |cls|
  {
    if cls == [] then [] else Insert(cls[0], SortLits(cls[1..]))
  }

  lemma AscendingFrom(q: Lit, rest: Clause)
    requires KeysAscend(rest) && forall r | r in rest :: Key(q) <= Key(r)
    ensures KeysAscend([q] + rest)
  {
    var all := [q] + rest;
    forall i, j | 0 <= i < j < |all|
      ensures Key(all[i]) <= Key(all[j])
    {
      assert all[j] == rest[j - 1] && rest[j - 1] in rest;
      assert i > 0 ==> all[i] == rest[i - 1];
    }
  }

  lemma {:induction false} InsertKeeps(q: Lit, cls: Clause)
    ensures multiset(Insert(q, cls)) == multiset(cls) + multiset{q}
  {
    if cls == [] || Key(q) <= Key(cls[0]) {
    } else {
      InsertKeeps(q, cls[1..]);
      assert cls == [cls[0]] + cls[1..];
    }
  }

  lemma {:induction false} InsertSorts(q: Lit, cls: Clause)
    requires KeysAscend(cls)
    ensures KeysAscend(Insert(q, cls))
  {
    if cls == [] || Key(q) <= Key(cls[0]) {
      AscendingFrom(q, cls);
    } else {
      var rest := Insert(q, cls[1..]);
      InsertSorts(q, cls[1..]);
      InsertKeeps(q, cls[1..]);
      forall r | r in rest
        ensures Key(cls[0]) <= Key(r)
      {
        assert r in multiset(rest);
      }
      AscendingFrom(cls[0], rest);
    }
  }

  lemma {:induction false} SortKeeps(cls: Clause)
    ensures multiset(SortLits(cls)) == multiset(cls)
  {
    if cls != [] {
      SortKeeps(cls[1..]);
      InsertKeeps(cls[0], SortLits(cls[1..]));
      assert cls == [cls[0]] + cls[1..];
    }
  }

  lemma {:induction false} SortAscends(cls: Clause)
    ensures KeysAscend(SortLits(cls))
  {
    if cls != [] {
      SortAscends(cls[1..]);
      InsertSorts(cls[0], SortLits(cls[1..]));
    }
  }

  lemma SameElements(a: Clause, b: Clause)
    requires multiset(a) == multiset(b)
    ensures LitSet(a) == LitSet(b)
  {
    assert forall q :: q in a <==> q in multiset(a);
    assert forall q :: q in b <==> q in multiset(b);
  }

  /** Sorting orders the literals and keeps each as often as it was. */
  lemma Sorts(cls: Clause)
    ensures KeysAscend(SortLits(cls)) && multiset(SortLits(cls)) == multiset(cls)
    ensures LitSet(SortLits(cls)) == LitSet(cls)
  {
    SortAscends(cls);
    SortKeeps(cls);
    SameElements(SortLits(cls), cls);
  }

  lemma AscendingOnce(cls: Clause)
    requires KeysStrictlyAscend(cls)
    ensures NoRepeats(cls)
  {
  }

  /** A literal that is not the last kept one comes after it. */
  lemma KeepAscending(kept: Clause, q: Lit)
    requires KeysStrictlyAscend(kept)
    requires kept != [] ==> Key(kept[|kept| - 1]) <= Key(q) && kept[|kept| - 1] != q
    ensures KeysStrictlyAscend(kept + [q])
  {
    if kept != [] {
      var last := kept[|kept| - 1];
      if Key(last) == Key(q) {
        KeyInjective(last, q);
      }
      forall i | 0 <= i < |kept|
        ensures Key(kept[i]) < Key(q)
      {
        assert i == |kept| - 1 || Key(kept[i]) < Key(last);
      }
    }
  }
}
