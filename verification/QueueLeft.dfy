/** Propagation promises an empty queue after a conflict too
    (src/sat/solvers/glucose/src/core/Solver.cc:1015-1028), but a false binary
    clause is returned at once: three clauses and a decision that show it. */
module QueueLefts {
  import opened Collections
  import opened Trails
  import opened FirstUip
  import opened ClauseMinimization
  import opened WatchLists
  import opened Assumptions
  import opened CdclSolvers

  function Pair(p: Lit, q: Lit): Clause {
    [p, q]
  }

  lemma PairPlain(t: Trail, p: Lit, q: Lit)
    requires t.lits == [] && p.x != q.x
    ensures Unassigned(t, Pair(p, q)) && |LitSet(Pair(p, q))| > 1 && LitSet(Pair(p, q)) == {p, q}
  {
    var cls := Pair(p, q);
    assert cls[0] == p && cls[1] == q;
    assert LitSet(cls) == {p, q};
  }

  /** The clauses of the solver are these three, in some order of literals. */
  ghost predicate Three(clauses: seq<Clause>, a: set<Lit>, b: set<Lit>, c: set<Lit>) {
    && |clauses| == 3 && LitSet(clauses[0]) == a && LitSet(clauses[1]) == b && LitSet(clauses[2]) == c
    && forall k | 0 <= k < 3 :: |clauses[k]| == 2
  }

  lemma AnotherLit(cls: Clause, p: Lit, q: Lit)
    requires NoRepeats(cls) && |cls| > 2
    ensures exists r :: r in cls && r != p && r != q
  {
    assert cls[0] in cls && cls[1] in cls && cls[2] in cls;
    assert cls[0] != cls[1] && cls[1] != cls[2] && cls[0] != cls[2];
  }

  lemma TwoLong(cls: Clause, p: Lit, q: Lit)
    requires LitSet(cls) == {p, q} && p != q && NoRepeats(cls)
    ensures |cls| == 2
  {
    assert p in LitSet(cls) && q in LitSet(cls);
    var i :| 0 <= i < |cls| && cls[i] == p;
    var j :| 0 <= j < |cls| && cls[j] == q;
    assert forall r | r in cls :: r in LitSet(cls);
    if |cls| > 2 {
      AnotherLit(cls, p, q);
      assert false;
    }
  }

  /** A settled pair with one literal false has the other one true. */
  lemma OtherTrue(s: Trail, cls: Clause, p: Lit, q: Lit)
    requires DistinctVars(s.lits) && LitSet(cls) == {p, q} && |cls| == 2 && Settled(s, cls) && p.Not() in s.lits
    ensures q in s.lits
  {
    if r :| r in cls && r in s.lits {
      assert r in LitSet(cls);
      NotBoth(s.lits, r);
    } else {
      var i, j :| 0 <= i < j < |cls| && cls[i].Not() !in s.lits && cls[j].Not() !in s.lits;
      assert p in LitSet(cls);
      var k :| 0 <= k < |cls| && cls[k] == p;
      assert false;
    }
  }

  lemma SameLengths(before: seq<Clause>, after: seq<Clause>, a: set<Lit>, b: set<Lit>, c: set<Lit>)
    requires Three(before, a, b, c) && SameClauses(before, after)
    ensures Three(after, a, b, c)
  {
  }

  /** With x decided, the clauses say both not-a and not-b, and a or b. */
  lemma AllSettledClash(s: Trail, clauses: seq<Clause>, x: Lit, a: Lit, b: Lit)
    requires DistinctVars(s.lits) && x in s.lits
    requires Three(clauses, {x.Not(), a.Not()}, {x.Not(), b.Not()}, {a, b})
    ensures exists c :: 0 <= c < |clauses| && !Settled(s, clauses[c])
  {
    if forall c | 0 <= c < |clauses| :: Settled(s, clauses[c]) {
      OtherTrue(s, clauses[0], x.Not(), a.Not());
      OtherTrue(s, clauses[1], x.Not(), b.Not());
      OtherTrue(s, clauses[2], a, b);
      NotBoth(s.lits, b);
      assert false;
    }
  }

  /** Between calls, kept folded: the argument n does not matter. */
  ghost predicate StableF(s: Solver, n: nat)
    reads s
    decreases n
  {
    if n == 0 then s.Stable() && s.ok else StableF(s, n - 1)
  }

  ghost predicate StableOk(s: Solver)
    reads s
  {
    StableF(s, s.nVars)
  }

  lemma {:induction false} StableFIs(s: Solver, n: nat)
    ensures StableF(s, n) <==> s.Stable() && s.ok
    decreases n
  {
    if n > 0 {
      StableFIs(s, n - 1);
    }
  }

  method Empty() returns (s: Solver)
    ensures fresh(s) && StableOk(s) && s.nVars == 0 && s.clauses == [] && s.trail.lits == [] && s.assumptions == []
  {
    s := new Solver(0, 0, 0);
    StableFIs(s, s.nVars);
  }

  method Var(s: Solver) returns (x: nat)
    requires StableOk(s)
    modifies s`vars, s`nVars
    ensures StableOk(s) && x == old(s.nVars) && s.nVars == x + 1
  {
    StableFIs(s, s.nVars);
    x := s.NewVar();
    StableFIs(s, s.nVars);
  }

  method Add(s: Solver, p: Lit, q: Lit)
    requires StableOk(s) && s.trail.lits == [] && p.x != q.x && p.x < s.nVars && q.x < s.nVars
    modifies s`formula, s`clauses, s`trail, s`qhead, s`watches, s`watchesBin, s`ok
    ensures StableOk(s) && s.trail.lits == []
    ensures |s.clauses| == |old(s.clauses)| + 1 && old(s.clauses) <= s.clauses
    ensures LitSet(s.clauses[|old(s.clauses)|]) == {p, q} && |s.clauses[|old(s.clauses)|]| == 2
  {
    StableFIs(s, s.nVars);
    PairPlain(s.trail, p, q);
    var r := s.AddClause(Pair(p, q));
    TwoLong(s.clauses[|old(s.clauses)|], p, q);
    StableFIs(s, s.nVars);
  }

  /** A solver with the clauses. */
  method Loaded() returns (s: Solver, x: Lit, ghost a: Lit, ghost b: Lit)
    ensures fresh(s) && StableOk(s) && s.trail.lits == [] && s.assumptions == [] && x.x < s.nVars
    ensures Three(s.clauses, {x.Not(), a.Not()}, {x.Not(), b.Not()}, {a, b})
  {
    s := Empty();
    var i := Var(s);
    var j := Var(s);
    var k := Var(s);
    x, a, b := Lit(i, false), Lit(j, false), Lit(k, false);
    Add(s, Lit(i, true), Lit(j, true));
    Add(s, Lit(i, true), Lit(k, true));
    Add(s, Lit(j, false), Lit(k, false));
  }

  /** Decides and propagates. */
  method DecideAndPropagate(s: Solver, x: Lit) returns (found: Option<nat>)
    requires StableOk(s) && s.trail.lits == [] && s.assumptions == [] && x.x < s.nVars
    modifies s`clauses, s`trail, s`watches, s`qhead, s`log
    ensures SameClauses(old(s.clauses), s.clauses)
    ensures found.None? ==> DistinctVars(s.trail.lits) && x in s.trail.lits
    ensures found.None? ==> forall c | 0 <= c < |s.clauses| && |s.clauses[c]| > 1 :: Settled(s.trail, s.clauses[c])
    ensures found.Some? ==> s.Conflicting(found.value)
    ensures found.Some? ==> (s.qhead == |s.trail.lits| <==> |s.clauses[found.value]| > 2)
  {
    StableFIs(s, s.nVars);
    TrailOk(s.formula, s.clauses, s.trail);
    AssumingStart(s.trail, s.assumptions);
    s.Decide(x);
    ghost var now := s.trail;
    assert now.lits == [x];
    found := s.Propagate();
    if found.None? {
      TrailOk(s.formula, s.clauses, s.trail);
      assert s.trail.lits[0] == x;
    }
  }

  /** Deciding x makes propagation return a false binary clause, with assignments
      left in the queue. */
  method FalseBinaryClause() returns (s: Solver, confl: nat)
    ensures fresh(s) && s.Conflicting(confl) && |s.clauses[confl]| == 2 && s.qhead != |s.trail.lits|
  {
    var x;
    ghost var a, b;
    s, x, a, b := Loaded();
    ghost var before := s.clauses;
    var found := DecideAndPropagate(s, x);
    SameLengths(before, s.clauses, {x.Not(), a.Not()}, {x.Not(), b.Not()}, {a, b});
    if found.None? {
      AllSettledClash(s.trail, s.clauses, x, a, b);
      assert false;
    }
    confl := found.value;
  }
}
