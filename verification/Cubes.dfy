/** Sorted cubes and the finite universe they come from
    (cubes in src/pme/ic3, subsumes in src/pme/pme.cpp). */
module Cubes {
  import opened Ids

  predicate Ascending(s: seq<ID>) {
    forall i, j :: 0 <= i < j < |s| ==> s[i] < s[j]
  }

  function Lits(s: seq<ID>): set<ID> {
    set lit | lit in s
  }

  /** a has only literals of b, so b implies a. */
  predicate SubCube(a: Cube, b: Cube) {
    forall lit | lit in a :: lit in b
  }

  lemma SubCubeWeaker(v: Valuation, a: Cube, b: Cube)
    requires SubCube(a, b) && SatCube(v, b)
    ensures SatCube(v, a)
  {
  }

  lemma LitsSubCube(a: Cube, b: Cube)
    requires Lits(a) <= Lits(b)
    ensures SubCube(a, b)
  {
    forall lit | lit in a
      ensures lit in b
    {
      assert lit in Lits(a);
    }
  }

  /** Removes the literal at position i. */
  function SubtractLit(s: Cube, i: nat): (r: Cube)
    requires i < |s|
    ensures |r| == |s| - 1
  {
    s[..i] + s[i + 1..]
  }

  lemma SubtractKeeps(s: Cube, i: nat)
    requires i < |s| && Ascending(s)
    ensures Ascending(SubtractLit(s, i))
    ensures Lits(SubtractLit(s, i)) == Lits(s) - {s[i]}
    ensures SubCube(SubtractLit(s, i), s)
  {
    var r := SubtractLit(s, i);
    forall lit | lit in s && lit != s[i]
      ensures lit in r
    {
      var j :| 0 <= j < |s| && s[j] == lit;
      assert r[if j < i then j else j - 1] == lit;
    }
    forall j | 0 <= j < |r|
      ensures r[j] in s && r[j] != s[i]
    {
      assert r[j] == s[if j < i then j else j + 1];
    }
  }

  // ----- a cube is determined by its literals -----

  lemma NoLits(a: Cube)
    ensures Lits(a) == {} <==> a == []
    ensures a != [] ==> a[0] in Lits(a)
  {
    if a != [] {
      assert a[0] in Lits(a);
    }
  }

  lemma {:induction false} AscendingUnique(a: Cube, b: Cube)
    requires Ascending(a) && Ascending(b) && Lits(a) == Lits(b)
    ensures a == b
  {
    NoLits(a);
    NoLits(b);
    if a != [] {
      assert a[0] in Lits(b) && b[0] in Lits(a);
      var i :| 0 <= i < |b| && b[i] == a[0];
      var j :| 0 <= j < |a| && a[j] == b[0];
      assert a[0] == b[0];
      TailLits(a);
      TailLits(b);
      AscendingUnique(a[1..], b[1..]);
      assert a == [a[0]] + a[1..] && b == [b[0]] + b[1..];
    }
  }

  lemma TailLits(a: Cube)
    requires a != [] && Ascending(a)
    ensures Lits(a[1..]) == Lits(a) - {a[0]} && Ascending(a[1..])
  {
    assert a == [a[0]] + a[1..];
  }

  predicate IsLeast(s: set<ID>, m: ID) {
    m in s && forall x | x in s :: m <= x
  }

  lemma {:induction false} HasLeast(s: set<ID>)
    requires s != {}
    ensures exists m :: IsLeast(s, m)
    decreases s
  {
    var m :| m in s;
    var rest := s - {m};
    if rest == {} {
      assert forall x | x in s :: x == m || x in rest;
      assert IsLeast(s, m);
    } else {
      HasLeast(rest);
      var n :| IsLeast(rest, n);
      LeastOfTwo(s, m, n);
    }
  }

  lemma LeastOfTwo(s: set<ID>, m: ID, n: ID)
    requires m in s && IsLeast(s - {m}, n)
    ensures IsLeast(s, if n < m then n else m)
  {
    assert forall x | x in s :: x == m || x in s - {m};
  }

  ghost function Sort(s: set<ID>): (r: Cube)
    ensures Ascending(r) && Lits(r) == s
    decreases s
  {
    if s == {} then []
    else
      HasLeast(s);
      var m :| IsLeast(s, m);
      SortStep(s, m, Sort(s - {m}));
      [m] + Sort(s - {m})
  }

  lemma SortStep(s: set<ID>, m: ID, rest: Cube)
    requires IsLeast(s, m) && Ascending(rest) && Lits(rest) == s - {m}
    ensures Ascending([m] + rest) && Lits([m] + rest) == s
  {
    var r := [m] + rest;
    forall i | 0 <= i < |rest|
      ensures m < rest[i]
    {
      assert rest[i] in Lits(rest);
    }
    forall x
      ensures x in Lits(r) <==> x in s
    {
      assert x in r <==> x == m || x in rest;
      assert x in rest <==> x in Lits(rest);
    }
  }

  /** All sorted cubes over some literals. */
  ghost function AllCubes(lits: set<ID>): set<Cube> {
    set s: set<ID> | s <= lits :: Sort(s)
  }

  lemma InAllCubes(c: Cube, lits: set<ID>)
    requires Ascending(c) && Lits(c) <= lits
    ensures c in AllCubes(lits)
  {
    AscendingUnique(c, Sort(Lits(c)));
  }

  /** Puts the literals of a set in order. */
  method SortLits(s: set<ID>) returns (r: Cube)
    ensures Ascending(r) && Lits(r) == s
  {
    r := [];
    var rest := s;
    while rest != {}
      invariant rest <= s && Ascending(r) && Lits(r) == s - rest
      invariant forall x, y | x in r && y in rest :: x < y
      decreases rest
    {
      var m := PopLeast(rest);
      SortAppend(r, m, rest, s);
      r := r + [m];
      rest := rest - {m};
    }
    assert s - rest == s;
  }

  lemma SortAppend(r: Cube, m: ID, rest: set<ID>, s: set<ID>)
    requires rest <= s && Ascending(r) && Lits(r) == s - rest && m in rest
    requires forall x, y | x in r && y in rest :: x < y
    ensures Ascending(r + [m]) && Lits(r + [m]) == s - (rest - {m})
  {
    forall i | 0 <= i < |r|
      ensures r[i] < m
    {
      assert r[i] in r;
    }
    forall x
      ensures x in Lits(r + [m]) <==> x in s - (rest - {m})
    {
      assert x in Lits(r + [m]) <==> x in Lits(r) || x == m;
    }
  }

  method PopLeast(s: set<ID>) returns (m: ID)
    requires s != {}
    ensures IsLeast(s, m)
  {
    m :| m in s;
    var rest := s - {m};
    while rest != {}
      invariant rest <= s && IsLeast(s - rest, m)
      decreases rest
    {
      var n :| n in rest;
      assert (s - (rest - {n})) - {n} == s - rest;
      LeastOfTwo(s - (rest - {n}), n, m);
      rest := rest - {n};
      if n < m {
        m := n;
      }
    }
    assert s - rest == s;
  }

  /** subsumes: every literal of a occurs in b; both are sorted. */
  method Subsumes(a: Cube, b: Cube) returns (r: bool)
    requires Ascending(a) && Ascending(b)
    ensures r <==> SubCube(a, b)
  {
    if |a| > |b| {
      TooLong(a, b);
      return false;
    }
    var i, j := 0, 0;
    while i < |a|
      invariant i <= |a| && j <= |b|
      invariant forall k :: 0 <= k < i ==> a[k] in b
      invariant i < |a| ==> forall l :: 0 <= l < j ==> b[l] < a[i]
    {
      while j < |b| && a[i] != b[j]
        invariant j <= |b|
        invariant forall l :: 0 <= l < j ==> b[l] != a[i]
      {
        j := j + 1;
      }
      if j == |b| {
        assert a[i] in a && a[i] !in b;
        return false;
      }
      i := i + 1;
      if i < |a| {
        assert a[i - 1] < a[i];
      }
    }
    return true;
  }

  lemma TooLong(a: Cube, b: Cube)
    requires Ascending(a) && Ascending(b) && |a| > |b|
    ensures !SubCube(a, b)
  {
    if SubCube(a, b) {
      SubCubeSize(a, b);
    }
  }

  lemma SubCubeSize(a: Cube, b: Cube)
    requires Ascending(a) && Ascending(b) && SubCube(a, b)
    ensures |a| <= |b|
  {
    LitsSize(a);
    LitsSize(b);
    assert Lits(b) == Lits(a) + (Lits(b) - Lits(a));
  }

  lemma {:induction false} LitsSize(a: Cube)
    requires Ascending(a)
    ensures |Lits(a)| == |a|
  {
    if a == [] {
      assert Lits(a) == {};
    } else {
      TailLits(a);
      LitsSize(a[1..]);
      assert a[0] in Lits(a);
    }
  }

  /** The position of the first literal above lit. */
  method UpperBound(t: Cube, lit: ID) returns (i: nat)
    ensures i <= |t| && (i < |t| ==> t[i] > lit)
    ensures forall j :: 0 <= j < i ==> t[j] <= lit
  {
    i := 0;
    while i < |t| && t[i] <= lit
      invariant i <= |t| && forall j :: 0 <= j < i ==> t[j] <= lit
    {
      i := i + 1;
    }
  }
}
