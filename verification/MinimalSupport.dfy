/** Narrowing a frame to what supports a clause (src/pme/util/find_minimal_support.cpp).
    Every query is made for the whole of what is left and not without one of its
    clauses, so the result need not be minimal: what it can be, and when it must
    be minimal. */
module MinimalSupports {
  import opened Cubes
  import opened ProofSets
  import opened ConsecutionCheckers
  import opened FiveClauses

  ghost predicate MinimalSupport(p: Proof, s: set<ClauseID>, c: ClauseID)
    requires c < |p.clauses|
  {
    Supports(p, s, c) && forall t | t < s :: !Supports(p, t, c)
  }

  /** What is left of the frame, and where the loop has got to. */
  datatype Narrowing = Narrowing(copy: set<ClauseID>, from: ClauseID)

  function Ahead(copy: set<ClauseID>, from: ClauseID): set<ClauseID> {
    set id | id in copy && id >= from
  }

  /** One turn of the loop: a supporting part of what is left replaces it. */
  ghost predicate Narrows(p: Proof, c: ClauseID, a: Narrowing, b: Narrowing)
    requires c < |p.clauses|
  {
    && Ahead(a.copy, a.from) != {} && b.from > a.from && IsLeast(Ahead(a.copy, a.from), b.from - 1)
    && if Supports(p, a.copy, c) then b.copy <= a.copy && Supports(p, b.copy, c) else b.copy == a.copy
  }

  ghost predicate NarrowsAll(p: Proof, c: ClauseID, path: seq<Narrowing>)
    requires c < |p.clauses|
  {
    |path| > 0 && forall k | 1 <= k < |path| :: Narrows(p, c, path[k - 1], path[k])
  }

  /** The loop can end with s. */
  ghost predicate Ends(p: Proof, c: ClauseID, a: Narrowing, s: set<ClauseID>)
    requires c < |p.clauses|
  {
    exists path: seq<Narrowing> :: EndsBy(p, c, a, s, path)
  }

  ghost predicate EndsBy(p: Proof, c: ClauseID, a: Narrowing, s: set<ClauseID>, path: seq<Narrowing>)
    requires c < |p.clauses|
  {
    && NarrowsAll(p, c, path) && path[0] == a
    && path[|path| - 1].copy == s && Ahead(s, path[|path| - 1].from) == {}
  }

  ghost predicate MayFind(p: Proof, c: ClauseID, frame: set<ClauseID>, s: set<ClauseID>)
    requires c < |p.clauses|
  {
    Ends(p, c, Narrowing(frame, 0), s)
  }

  lemma EndsNext(p: Proof, c: ClauseID, a: Narrowing, b: Narrowing, s: set<ClauseID>)
    requires c < |p.clauses| && Narrows(p, c, a, b) && Ends(p, c, b, s)
    ensures Ends(p, c, a, s)
  {
    var path :| EndsBy(p, c, b, s, path);
    var more := [a] + path;
    forall k | 1 <= k < |more|
      ensures Narrows(p, c, more[k - 1], more[k])
    {
      assert more[k] == path[k - 1];
      assert k > 1 ==> more[k - 1] == path[k - 2];
    }
    assert EndsBy(p, c, a, s, more);
  }

  /** The queries may answer with all that is left. */
  lemma {:induction false} MayStay(p: Proof, c: ClauseID, a: Narrowing)
    requires c < |p.clauses|
    ensures Ends(p, c, a, a.copy)
    decreases Ahead(a.copy, a.from)
  {
    if Ahead(a.copy, a.from) == {} {
      assert EndsBy(p, c, a, a.copy, [a]);
    } else {
      var id := Least(Ahead(a.copy, a.from));
      var b := Narrowing(a.copy, id + 1);
      assert id in Ahead(a.copy, a.from) && id !in Ahead(b.copy, b.from);
      MayStay(p, c, b);
      EndsNext(p, c, a, b, a.copy);
    }
  }

  lemma {:induction false} Least(s: set<ClauseID>) returns (m: ClauseID)
    requires s != {}
    ensures IsLeast(s, m)
    decreases s
  {
    var first :| first in s;
    var less := set x | x in s && x < first;
    assert first !in less;
    if less == {} {
      m := first;
      forall x | x in s
        ensures m <= x
      {
        assert x !in less;
      }
    } else {
      m := Least(less);
      assert m in less;
      forall x | x in s
        ensures m <= x
      {
        assert x in less || x >= first;
      }
    }
  }

  lemma {:induction false} EndsInside(p: Proof, c: ClauseID, path: seq<Narrowing>, k: nat)
    requires c < |p.clauses| && NarrowsAll(p, c, path) && k < |path|
    ensures path[k].copy <= path[0].copy
    ensures Supports(p, path[k].copy, c) <==> Supports(p, path[0].copy, c)
    ensures !Supports(p, path[0].copy, c) ==> path[k].copy == path[0].copy
  {
    if k > 0 {
      EndsInside(p, c, path, k - 1);
      assert Narrows(p, c, path[k - 1], path[k]);
    }
  }

  /** Exactly what may be found: any supporting part of a supporting frame, and
      the frame itself if it does not support the clause. */
  lemma FoundExactly(p: Proof, c: ClauseID, frame: set<ClauseID>, s: set<ClauseID>)
    requires c < |p.clauses|
    ensures MayFind(p, c, frame, s) <==> if Supports(p, frame, c) then s <= frame && Supports(p, s, c) else s == frame
  {
    var a := Narrowing(frame, 0);
    if MayFind(p, c, frame, s) {
      var path :| EndsBy(p, c, a, s, path);
      EndsInside(p, c, path, |path| - 1);
    }
    if s == frame {
      MayStay(p, c, a);
    } else if Supports(p, frame, c) && s <= frame && Supports(p, s, c) {
      assert frame != {} && Ahead(frame, 0) == frame;
      var id := Least(frame);
      var b := Narrowing(s, id + 1);
      MayStay(p, c, b);
      EndsNext(p, c, a, b, s);
    }
  }

  /** Whatever the solver answers is minimal, exactly when the frame already was. */
  lemma AlwaysMinimal(p: Proof, c: ClauseID, frame: set<ClauseID>)
    requires c < |p.clauses| && Supports(p, frame, c)
    ensures (forall s | MayFind(p, c, frame, s) :: MinimalSupport(p, s, c)) <==> MinimalSupport(p, frame, c)
  {
    FoundExactly(p, c, frame, frame);
    if MinimalSupport(p, frame, c) {
      forall s | MayFind(p, c, frame, s)
        ensures s == frame
      {
        FoundExactly(p, c, frame, s);
        assert !(s < frame);
      }
    }
  }

  /** findMinimalSupport */
  method FindMinimalSupport(solver: ConsecutionChecker, frame: set<ClauseID>, c: ClauseID) returns (support: set<ClauseID>)
    requires c < |solver.p.clauses| && solver.p.tr.WellFormed()
    modifies solver
    ensures MayFind(solver.p, c, frame, support)
    ensures if Supports(solver.p, frame, c) then support <= frame && Supports(solver.p, support, c) else support == frame
  {
    support := frame;
    var rest := frame;
    ghost var at := Narrowing(frame, 0);
    ghost var path := [at];
    while rest != {}
      invariant rest == Ahead(support, at.from) && at.copy == support
      invariant NarrowsAll(solver.p, c, path) && path[0] == Narrowing(frame, 0) && path[|path| - 1] == at
      decreases rest
    {
      var id := PopLeast(rest);
      var supported, part, v := solver.SupportSolve(support, c);
      ghost var next := Narrowing(if supported then part else support, id + 1);
      assert id in rest;
      NarrowsMore(solver.p, c, path, next);
      if supported {
        support := part;
      }
      rest := (rest * support) - {id};
      at, path := next, path + [next];
    }
    assert EndsBy(solver.p, c, Narrowing(frame, 0), support, path);
    FoundExactly(solver.p, c, frame, support);
  }

  lemma NarrowsMore(p: Proof, c: ClauseID, path: seq<Narrowing>, b: Narrowing)
    requires c < |p.clauses| && NarrowsAll(p, c, path) && Narrows(p, c, path[|path| - 1], b)
    ensures NarrowsAll(p, c, path + [b])
  {
    var more := path + [b];
    forall k | 1 <= k < |more|
      ensures Narrows(p, c, more[k - 1], more[k])
    {
      assert more[k - 1] == path[k - 1];
      assert k < |path| ==> more[k] == path[k];
    }
  }

  // ----- a frame that is not narrowed -----

  /** Clauses d, e and f support p, and d alone does; the queries may still answer
      with all three. */
  lemma NotNarrowed()
    ensures Supports(PROOF, {2, 3, 4}, 0) && Supports(PROOF, {2}, 0)
    ensures MayFind(PROOF, 0, {2, 3, 4}, {2, 3, 4}) && !MinimalSupport(PROOF, {2, 3, 4}, 0)
  {
    SupportsMeans({2, 3, 4}, 0);
    SupportsMeans({2}, 0);
    FoundExactly(PROOF, 0, {2, 3, 4}, {2, 3, 4});
    assert {2} < {2, 3, 4};
  }
}
