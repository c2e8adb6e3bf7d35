/** Why the literals that clause minimisation drops were not needed
    (src/sat/solvers/glucose/src/core/Solver.cc:614-653, 843-877, 926-960). */
module ClauseMinimization {
  import opened Trails
  import opened FirstUip

  // ----- literals whose reasons are seen -----

  /** The variable was implied by literals of level 0 and seen variables. */
  ghost predicate Supported(clauses: seq<Clause>, s: Trail, x: nat, seen: set<nat>) {
    && x in s.reason && s.reason[x] < |clauses|
    && forall q | q in clauses[s.reason[x]] && q.x != x :: q.x in seen || (q.x in s.level && s.level[q.x] == 0)
  }

  /** Every seen variable belongs to the clause or is supported. */
  ghost predicate Closed(clauses: seq<Clause>, s: Trail, lits: set<Lit>, seen: set<nat>) {
    forall x | x in seen :: x in VarsOf(lits) || Supported(clauses, s, x, seen)
  }

  lemma SupportedMore(clauses: seq<Clause>, s: Trail, x: nat, seen: set<nat>, more: set<nat>)
    requires Supported(clauses, s, x, seen) && seen <= more
    ensures Supported(clauses, s, x, more)
  {
  }

  /** The clause databases differ in the order of literals only. */
  ghost predicate SameClauses(a: seq<Clause>, b: seq<Clause>) {
    |a| == |b| && forall c | 0 <= c < |a| :: LitSet(a[c]) == LitSet(b[c]) && |a[c]| == |b[c]|
  }

  /** They differ in the order of binary clauses only. */
  ghost predicate Flips(a: seq<Clause>, b: seq<Clause>) {
    SameClauses(a, b) && forall c | 0 <= c < |a| :: b[c] == a[c] || (|a[c]| == 2 && b[c] == Flipped(a[c]))
  }

  lemma SupportedSame(a: seq<Clause>, b: seq<Clause>, s: Trail, x: nat, seen: set<nat>)
    requires Supported(a, s, x, seen) && SameClauses(a, b)
    ensures Supported(b, s, x, seen)
  {
    forall q | q in b[s.reason[x]] && q.x != x
      ensures q.x in seen || (q.x in s.level && s.level[q.x] == 0)
    {
      assert q in LitSet(b[s.reason[x]]);
      assert q in LitSet(a[s.reason[x]]);
    }
  }

  /** A valuation that falsifies the clause agrees with every seen assignment. */
  lemma {:induction false} SeenAgree(formula: seq<Clause>, clauses: seq<Clause>, s: Trail, lits: set<Lit>,
                                     seen: set<nat>, v: Valuation, i: nat)
    requires Consistent(formula, clauses, s) && AllFalse(s.lits, lits, |s.lits|)
    requires Closed(clauses, s, lits, seen) && Models(v, formula) && !Satisfies(v, lits)
    requires i < |s.lits| && s.lits[i].x in seen
    ensures Holds(v, s.lits[i])
    decreases i
  {
    var p := s.lits[i];
    if p.x in VarsOf(lits) {
      SameLiteral(s.lits, lits, i, |s.lits|);
      assert p.Not() in lits && !Holds(v, p.Not());
    } else {
      assert Supported(clauses, s, p.x, seen);
      assert Justified(formula, clauses, s, i);
      var cls := clauses[s.reason[p.x]];
      assert Satisfies(v, LitSet(cls));
      var y :| y in LitSet(cls) && Holds(v, y);
      if y != p {
        var k := FalseAt(s, cls, y, i);
        if y.x in seen {
          SeenAgree(formula, clauses, s, lits, seen, v, k);
        } else {
          LevelZeroEntailed(formula, clauses, s, k);
          EntailedHolds(formula, v, s.lits[k]);
        }
      }
    }
  }

  lemma FalseAt(s: Trail, cls: Clause, y: Lit, i: nat) returns (k: nat)
    requires DistinctVars(s.lits) && i < |s.lits| && Explains(s.lits, i, cls) && y in cls && y != s.lits[i]
    ensures k < i && s.lits[k] == y.Not() && y.x != s.lits[i].x
  {
    assert y in LitSet(cls) - {s.lits[i]};
    k :| 0 <= k < i && k < |s.lits| && s.lits[k] == y.Not();
    assert s.lits[k].x != s.lits[i].x;
  }

  /** Part of an entailed clause is entailed when the variables of the rest are
      seen. */
  lemma PartEntailed(formula: seq<Clause>, clauses: seq<Clause>, s: Trail, whole: set<Lit>, part: set<Lit>,
                     seen: set<nat>)
    requires Consistent(formula, clauses, s) && AllFalse(s.lits, whole, |s.lits|) && part <= whole
    requires Entails(formula, whole) && Closed(clauses, s, part, seen) && VarsOf(whole - part) <= seen
    ensures Entails(formula, part)
  {
    forall v | Models(v, formula)
      ensures Satisfies(v, part)
    {
      assert Satisfies(v, whole);
      var y :| y in whole && Holds(v, y);
      if !Satisfies(v, part) {
        assert y in whole - part;
        assert FalseBy(s.lits, y, |s.lits|);
        var k :| 0 <= k < |s.lits| && s.lits[k] == y.Not();
        assert y.x in VarsOf(whole - part);
        SeenAgree(formula, clauses, s, part, seen, v, k);
      }
    }
  }

  // ----- the clause after some literals were dropped -----

  /** The second clause keeps the first literal and some of the others. */
  ghost predicate Thinned(whole: Clause, part: Clause) {
    && |whole| > 0 && |part| > 0 && part[0] == whole[0] && NoRepeats(part)
    && forall k | 1 <= k < |part| :: part[k] in whole[1..]
  }

  lemma WholeThinned(cls: Clause)
    requires |cls| > 0 && NoRepeats(cls)
    ensures Thinned(cls, cls)
  {
    assert forall k | 1 <= k < |cls| :: cls[1..][k - 1] == cls[k];
  }

  lemma FirstAndRest(cls: Clause)
    requires |cls| > 0
    ensures LitSet(cls) == {cls[0]} + LitSet(cls[1..])
  {
    FirstLast(cls, 0);
    assert cls[0..] == cls;
  }

  lemma ThinnedSubset(whole: Clause, part: Clause)
    requires Thinned(whole, part)
    ensures LitSet(part) <= LitSet(whole)
  {
    forall q | q in LitSet(part)
      ensures q in whole
    {
      var k :| 0 <= k < |part| && part[k] == q;
      assert whole[0] in whole;
      assert k > 0 ==> q in whole[1..];
    }
  }

  lemma ThinnedAsserting(formula: seq<Clause>, s: Trail, whole: Clause, part: Clause)
    requires Asserting(formula, s, whole) && Thinned(whole, part) && Entails(formula, LitSet(part))
    ensures Asserting(formula, s, part)
  {
    ThinnedSubset(whole, part);
    forall k | 1 <= k < |part|
      ensures part[k].x in s.level && 0 < s.level[part[k].x] < |s.lims|
    {
      var i :| 0 <= i < |whole[1..]| && whole[1..][i] == part[k];
      assert whole[i + 1] == part[k];
    }
  }

  lemma ThinnedKeepsAll(whole: Clause, part: Clause, seen: set<nat>)
    requires Thinned(whole, part) && VarsOf(LitSet(whole[1..])) <= seen
    ensures VarsOf(LitSet(whole) - LitSet(part)) <= seen
  {
    forall q | q in LitSet(whole) - LitSet(part)
      ensures q in LitSet(whole[1..])
    {
      var i :| 0 <= i < |whole| && whole[i] == q;
      assert part[0] in part;
      assert i > 0 && whole[1..][i - 1] == q;
    }
  }

  /** Dropping supported literals keeps the clause asserting. */
  lemma DroppedKeeps(formula: seq<Clause>, clauses: seq<Clause>, s: Trail, whole: Clause, part: Clause,
                     seen: set<nat>)
    requires ConsistentOk(formula, clauses, s) && Asserting(formula, s, whole) && Thinned(whole, part)
    requires Closed(clauses, s, LitSet(part), seen) && VarsOf(LitSet(whole[1..])) <= seen
    ensures Asserting(formula, s, part)
  {
    ConsistentIs(formula, clauses, s);
    ThinnedSubset(whole, part);
    ThinnedKeepsAll(whole, part, seen);
    PartEntailed(formula, clauses, s, LitSet(whole), LitSet(part), seen);
    ThinnedAsserting(formula, s, whole, part);
  }

  // ----- compacting the clause in place -----

  /** Positions before j hold what was kept of the first i literals; those from i
      on are as they were. */
  ghost predicate Compacting(whole: Clause, cls: Clause, i: nat, j: nat) {
    && |cls| == |whole| && 1 <= j <= i <= |whole|
    && (forall k | i <= k < |whole| :: cls[k] == whole[k])
    && cls[0] == whole[0] && NoRepeats(cls[..j])
    && forall k | 1 <= k < j :: cls[k] in whole[1..i]
  }

  lemma KeepOne(whole: Clause, cls: Clause, i: nat, j: nat)
    requires NoRepeats(whole) && Compacting(whole, cls, i, j) && i < |whole|
    ensures Compacting(whole, cls[j := cls[i]], i + 1, j + 1)
    ensures LitSet(cls[j := cls[i]][..j + 1]) == LitSet(cls[..j]) + {whole[i]}
  {
    var next := cls[j := cls[i]];
    assert next[..j + 1] == cls[..j] + [whole[i]];
    forall k | 1 <= k < j + 1
      ensures next[k] in whole[1..i + 1]
    {
      assert whole[1..i + 1] == whole[1..i] + [whole[i]];
    }
    forall k | 0 <= k < j
      ensures cls[k] != whole[i]
    {
      if k > 0 {
        var m :| 0 <= m < |whole[1..i]| && whole[1..i][m] == cls[k];
        assert whole[m + 1] == cls[k];
      }
    }
    LastAdded(cls[..j], whole[i]);
  }

  lemma LastAdded(cls: Clause, q: Lit)
    ensures LitSet(cls + [q]) == LitSet(cls) + {q}
  {
    assert (cls + [q])[|cls|] == q;
    assert forall r | r in cls :: r in cls + [q];
  }

  lemma DropOne(whole: Clause, cls: Clause, i: nat, j: nat)
    requires Compacting(whole, cls, i, j) && i < |whole|
    ensures Compacting(whole, cls, i + 1, j)
  {
    assert whole[1..i + 1] == whole[1..i] + [whole[i]];
  }

  lemma Compacted(whole: Clause, cls: Clause, j: nat)
    requires Compacting(whole, cls, |whole|, j)
    ensures Thinned(whole, cls[..j])
  {
    assert whole[1..|whole|] == whole[1..];
  }

  /** The seen variables stay closed over what is kept and what is still to
      come, when the next literal is kept. */
  lemma StillClosed(clauses: seq<Clause>, s: Trail, kept: set<Lit>, whole: Clause, i: nat, seen: set<nat>)
    requires i < |whole| && Closed(clauses, s, kept + LitSet(whole[i..]), seen)
    ensures Closed(clauses, s, kept + {whole[i]} + LitSet(whole[i + 1..]), seen)
    ensures Supported(clauses, s, whole[i].x, seen) ==> Closed(clauses, s, kept + LitSet(whole[i + 1..]), seen)
  {
    FirstLast(whole, i);
    forall x | x in seen
      ensures x in VarsOf(kept + {whole[i]} + LitSet(whole[i + 1..])) || Supported(clauses, s, x, seen)
      ensures x != whole[i].x ==> x in VarsOf(kept + LitSet(whole[i + 1..])) || Supported(clauses, s, x, seen)
    {
      if x in VarsOf(kept + LitSet(whole[i..])) {
        var q :| q in kept + LitSet(whole[i..]) && q.x == x;
        assert q in kept + {whole[i]} + LitSet(whole[i + 1..]);
        assert q == whole[i] || q in kept + LitSet(whole[i + 1..]);
      }
    }
  }

  lemma FirstLast(cls: Clause, i: nat)
    requires i < |cls|
    ensures LitSet(cls[i..]) == {cls[i]} + LitSet(cls[i + 1..])
  {
    assert cls[i..] == [cls[i]] + cls[i + 1..];
    assert ([cls[i]] + cls[i + 1..])[0] == cls[i];
    forall q | q in cls[i + 1..]
      ensures q in cls[i..]
    {
    }
  }

  /** More support for more variables. */
  lemma ClosedMore(a: seq<Clause>, b: seq<Clause>, s: Trail, lits: set<Lit>, seen: set<nat>, more: set<nat>)
    requires Closed(a, s, lits, seen) && seen <= more && SameClauses(a, b)
    requires forall x | x in more - seen :: Supported(b, s, x, more)
    ensures Closed(b, s, lits, more)
  {
    forall x | x in more
      ensures x in VarsOf(lits) || Supported(b, s, x, more)
    {
      if x in seen && x !in VarsOf(lits) {
        SupportedSame(a, b, s, x, seen);
        SupportedMore(b, s, x, seen, more);
      }
    }
  }
}
