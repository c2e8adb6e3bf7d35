/** Every learnt clause is new, so there are finitely many conflicts
    (src/sat/solvers/glucose/src/core/Solver.cc:1503-1590). */
module LearntClauses {
  import opened Collections
  import opened Trails
  import opened ClauseMinimization
  import opened WatchLists
  import opened Propagation
  import opened SearchSteps
  import opened Restarts

  function AllLits(vars: set<nat>): set<Lit> {
    (set x | x in vars :: Lit(x, false)) + (set x | x in vars :: Lit(x, true))
  }

  ghost function SetsOf(lits: set<Lit>): set<set<Lit>> {
    set s: set<Lit> | s <= lits
  }

  /** What the solver has stored: its clauses as sets of literals, and its facts as
      sets of one literal. */
  ghost function Stored(clauses: seq<Clause>, facts: set<Lit>): set<set<Lit>> {
    (set c | 0 <= c < |clauses| :: LitSet(clauses[c])) + (set q | q in facts :: {q})
  }

  /** The clauses that could still be learnt. */
  ghost function Unlearnt(clauses: seq<Clause>, facts: set<Lit>, vars: set<nat>): set<set<Lit>> {
    SetsOf(AllLits(vars)) - Stored(clauses, facts)
  }

  /** How many there are, kept folded: the argument n does not matter. */
  ghost function FoldedLeft(clauses: seq<Clause>, facts: set<Lit>, vars: set<nat>, n: nat): nat
    decreases n
  {
    if n == 0 then |Unlearnt(clauses, facts, vars)| else FoldedLeft(clauses, facts, vars, n - 1)
  }

  ghost function ToLearn(clauses: seq<Clause>, facts: set<Lit>, vars: set<nat>): nat {
    FoldedLeft(clauses, facts, vars, |clauses|)
  }

  lemma {:induction false} UnfoldLeft(clauses: seq<Clause>, facts: set<Lit>, vars: set<nat>, n: nat)
    ensures FoldedLeft(clauses, facts, vars, n) == |Unlearnt(clauses, facts, vars)|
    decreases n
  {
    if n > 0 {
      UnfoldLeft(clauses, facts, vars, n - 1);
    }
  }

  lemma ToLearnIs(clauses: seq<Clause>, facts: set<Lit>, vars: set<nat>)
    ensures ToLearn(clauses, facts, vars) == |Unlearnt(clauses, facts, vars)|
  {
    UnfoldLeft(clauses, facts, vars, |clauses|);
  }

  lemma StoredMore(a: seq<Clause>, facts: set<Lit>, b: seq<Clause>, more: set<Lit>)
    requires SameClauses(a, b) && facts <= more
    ensures Stored(a, facts) <= Stored(b, more)
  {
    forall s | s in Stored(a, facts)
      ensures s in Stored(b, more)
    {
      if c :| 0 <= c < |a| && LitSet(a[c]) == s {
        assert LitSet(b[c]) == s;
      } else {
        var q :| q in facts && {q} == s;
        assert q in more;
      }
    }
  }

  lemma ToLearnLess(a: seq<Clause>, facts: set<Lit>, b: seq<Clause>, more: set<Lit>, vars: set<nat>)
    requires SameClauses(a, b) && facts <= more
    ensures ToLearn(b, more, vars) <= ToLearn(a, facts, vars)
  {
    StoredMore(a, facts, b, more);
    SubsetSize(Unlearnt(b, more, vars), Unlearnt(a, facts, vars));
    ToLearnIs(a, facts, vars);
    ToLearnIs(b, more, vars);
  }

  /** The trail is at the point where the clause has one literal left. */
  ghost predicate LeftOver(s: Trail, learnt: Clause) {
    |learnt| > 0 && if |learnt| == 1 then s.IsFree(learnt[0]) && s.lims == [] else OneLeft(s, learnt)
  }

  lemma NotSettled(s: Trail, learnt: Clause, cls: Clause)
    requires DistinctVars(s.lits) && OneLeft(s, learnt) && NoRepeats(cls) && LitSet(cls) <= LitSet(learnt)
    ensures !Settled(s, cls)
  {
    forall q | q in cls
      ensures q !in s.lits && (q.Not() !in s.lits ==> q == learnt[0])
    {
      assert q in LitSet(cls) && q in LitSet(learnt);
      if q != learnt[0] {
        NotBoth(s.lits, q.Not());
        assert q.Not().Not() == q;
      }
    }
  }

  lemma OneOrMore(a: Clause, b: Clause)
    requires NoRepeats(a) && |a| > 1 && |b| == 1
    ensures LitSet(a) != LitSet(b)
  {
    assert a[0] in LitSet(a) && a[1] in LitSet(a) && a[0] != a[1];
    assert LitSet(b) == {b[0]};
  }

  /** No stored clause is contained in the learnt one: propagation would have
      assigned its literal before. */
  lemma LearntIsNew(formula: seq<Clause>, clauses: seq<Clause>, s: Trail, ws: Watches, wb: Watches, learnt: Clause, c: nat)
    requires ConsistentOk(formula, clauses, s) && WatchedOk(clauses, ws) && BinWatchedOk(clauses, wb)
    requires GuardsOk(s, ws, |s.lits|) && GuardsOk(s, wb, |s.lits|)
    requires OneLeft(s, learnt) && c < |clauses| && |clauses[c]| > 1
    ensures !(LitSet(clauses[c]) <= LitSet(learnt))
  {
    AllSettled(formula, clauses, s, ws, wb);
    ConsistentIs(formula, clauses, s);
    if LitSet(clauses[c]) <= LitSet(learnt) {
      NotSettled(s, learnt, clauses[c]);
    }
  }

  lemma NotStored(formula: seq<Clause>, clauses: seq<Clause>, s: Trail, ws: Watches, wb: Watches, learnt: Clause)
    requires ConsistentOk(formula, clauses, s) && WatchedOk(clauses, ws) && BinWatchedOk(clauses, wb)
    requires GuardsOk(s, ws, |s.lits|) && GuardsOk(s, wb, |s.lits|)
    requires LeftOver(s, learnt) && forall c | 0 <= c < |clauses| :: |clauses[c]| > 1
    ensures LitSet(learnt) !in Stored(clauses, Facts(s))
  {
    ConsistentIs(formula, clauses, s);
    forall c | 0 <= c < |clauses|
      ensures LitSet(clauses[c]) != LitSet(learnt)
    {
      if |learnt| == 1 {
        OneOrMore(clauses[c], learnt);
      } else {
        LearntIsNew(formula, clauses, s, ws, wb, learnt, c);
      }
    }
    forall q | q in Facts(s)
      ensures {q} != LitSet(learnt)
    {
      if |learnt| == 1 {
        assert LitSet(learnt) == {learnt[0]};
      } else {
        OneOrMore(learnt, [q]);
        assert LitSet([q]) == {q};
      }
    }
  }

  /** Storing it leaves fewer clauses to learn. */
  lemma LearntCounts(clauses: seq<Clause>, facts: set<Lit>, next: seq<Clause>, more: set<Lit>, vars: set<nat>, learnt: Clause)
    requires LitSet(learnt) !in Stored(clauses, facts) && LitSet(learnt) in Stored(next, more)
    requires Stored(clauses, facts) <= Stored(next, more) && KnownClause(learnt, vars)
    ensures ToLearn(next, more, vars) < ToLearn(clauses, facts, vars)
  {
    forall q | q in LitSet(learnt)
      ensures q in AllLits(vars)
    {
      assert q == Lit(q.x, q.sign);
    }
    assert LitSet(learnt) in SetsOf(AllLits(vars));
    StrictlySmaller(Unlearnt(next, more, vars), Unlearnt(clauses, facts, vars), LitSet(learnt));
    ToLearnIs(clauses, facts, vars);
    ToLearnIs(next, more, vars);
  }

  lemma ClauseStored(clauses: seq<Clause>, facts: set<Lit>, learnt: Clause, more: set<Lit>)
    requires facts <= more
    ensures Stored(clauses, facts) <= Stored(clauses + [learnt], more)
    ensures LitSet(learnt) in Stored(clauses + [learnt], more)
  {
    var next := clauses + [learnt];
    assert next[|clauses|] == learnt;
    forall s | s in Stored(clauses, facts)
      ensures s in Stored(next, more)
    {
      if c :| 0 <= c < |clauses| && LitSet(clauses[c]) == s {
        assert next[c] == clauses[c];
      } else {
        var q :| q in facts && {q} == s;
        assert q in more;
      }
    }
  }

  /** A learnt clause is stored. */
  lemma ClauseCounts(clauses: seq<Clause>, facts: set<Lit>, learnt: Clause, more: set<Lit>, vars: set<nat>)
    requires LitSet(learnt) !in Stored(clauses, facts) && facts <= more && KnownClause(learnt, vars)
    ensures ToLearn(clauses + [learnt], more, vars) < ToLearn(clauses, facts, vars)
  {
    ClauseStored(clauses, facts, learnt, more);
    LearntCounts(clauses, facts, clauses + [learnt], more, vars, learnt);
  }

  /** A learnt fact is kept. */
  lemma FactCounts(clauses: seq<Clause>, facts: set<Lit>, p: Lit, more: set<Lit>, vars: set<nat>)
    requires LitSet([p]) !in Stored(clauses, facts) && facts <= more && p in more && p.x in vars
    ensures ToLearn(clauses, more, vars) < ToLearn(clauses, facts, vars)
  {
    FactStored(clauses, facts, p, more);
    LearntCounts(clauses, facts, clauses, more, vars, [p]);
  }

  lemma FactStored(clauses: seq<Clause>, facts: set<Lit>, p: Lit, more: set<Lit>)
    requires facts <= more && p in more
    ensures Stored(clauses, facts) <= Stored(clauses, more) && LitSet([p]) in Stored(clauses, more)
  {
    assert LitSet([p]) == {p};
  }

  // ----- how many clauses there are -----

  /** More conflicts than this do not happen. */
  function Budget(vars: nat): nat {
    Pow2(2 * vars)
  }

  ghost function With(sets: set<set<Lit>>, q: Lit): set<set<Lit>> {
    set s | s in sets :: s + {q}
  }

  lemma {:induction false} WithSize(sets: set<set<Lit>>, q: Lit)
    ensures |With(sets, q)| <= |sets|
    decreases sets
  {
    if sets == {} {
      assert With(sets, q) == {};
    } else {
      var s :| s in sets;
      WithSize(sets - {s}, q);
      assert With(sets, q) == With(sets - {s}, q) + {s + {q}};
    }
  }

  lemma WithOrWithout(lits: set<Lit>, q: Lit)
    requires q in lits
    ensures SetsOf(lits) <= SetsOf(lits - {q}) + With(SetsOf(lits - {q}), q)
  {
    forall s | s in SetsOf(lits)
      ensures s in SetsOf(lits - {q}) + With(SetsOf(lits - {q}), q)
    {
      if q in s {
        assert s == (s - {q}) + {q} && s - {q} in SetsOf(lits - {q});
      }
    }
  }

  lemma AtMostTwice(lits: set<Lit>, q: Lit)
    requires q in lits
    ensures |SetsOf(lits)| <= 2 * |SetsOf(lits - {q})|
  {
    var less := SetsOf(lits - {q});
    WithSize(less, q);
    WithOrWithout(lits, q);
    SubsetSize(SetsOf(lits), less + With(less, q));
  }

  lemma NoSets()
    ensures |SetsOf({})| == 1
  {
    var none: set<Lit> := {};
    forall s: set<Lit>
      ensures s in SetsOf(none) <==> s == none
    {
    }
    assert SetsOf(none) == {none};
  }

  lemma {:induction false} SetsSize(lits: set<Lit>, n: nat)
    requires n == |lits|
    ensures |SetsOf(lits)| <= Pow2(n)
    decreases n
  {
    if n == 0 {
      assert lits == {};
      NoSets();
    } else {
      var q :| q in lits;
      SetsSize(lits - {q}, n - 1);
      AtMostTwice(lits, q);
    }
  }

  lemma {:induction false} LitsCount(vars: set<nat>)
    ensures |AllLits(vars)| <= 2 * |vars|
    decreases vars
  {
    if vars == {} {
      assert AllLits(vars) == {};
    } else {
      var x :| x in vars;
      LitsCount(vars - {x});
      assert AllLits(vars) == AllLits(vars - {x}) + {Lit(x, false), Lit(x, true)};
    }
  }

  lemma {:induction false} Pow2Grows(a: nat, b: nat)
    requires a <= b
    ensures Pow2(a) <= Pow2(b)
    decreases b
  {
    if a < b {
      Pow2Grows(a, b - 1);
    }
  }

  lemma FewToLearn(clauses: seq<Clause>, facts: set<Lit>, vars: set<nat>)
    ensures ToLearn(clauses, facts, vars) <= Budget(|vars|)
  {
    ToLearnIs(clauses, facts, vars);
    SubsetSize(Unlearnt(clauses, facts, vars), SetsOf(AllLits(vars)));
    SetsSize(AllLits(vars), |AllLits(vars)|);
    LitsCount(vars);
    Pow2Grows(|AllLits(vars)|, 2 * |vars|);
  }
}
