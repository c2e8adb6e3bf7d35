/** Assumptions as the first decisions, and which of them a conflict needs
    (src/sat/solvers/glucose/src/core/Solver.cc:965-1003, 1613-1660). */
module Assumptions {
  import opened Trails
  import opened FirstUip
  import opened ClauseMinimization
  import opened WatchLists
  import opened Propagation
  import opened SearchSteps

  // ----- the levels of assumptions -----

  /** The assumption of every level so far is true since that level. */
  ghost predicate Assumed(s: Trail, assumps: seq<Lit>) {
    forall k | 0 <= k < |s.lims| && k < |assumps| ::
      assumps[k] in s.lits && assumps[k].x in s.level && s.level[assumps[k].x] <= k + 1
  }

  /** The literal, when it was decided at the level of an assumption, is that
      assumption. */
  predicate DecidedAs(s: Trail, assumps: seq<Lit>, q: Lit) {
    q.x !in s.reason && q.x in s.level && 0 < s.level[q.x] <= |assumps| ==> q == assumps[s.level[q.x] - 1]
  }

  ghost predicate Assuming(s: Trail, assumps: seq<Lit>) {
    Assumed(s, assumps) && forall q | q in s.lits :: DecidedAs(s, assumps, q)
  }

  lemma AssumingStart(s: Trail, assumps: seq<Lit>)
    requires Leveled(s) && s.lims == []
    ensures Assuming(s, assumps)
  {
    forall q | q in s.lits
      ensures DecidedAs(s, assumps, q)
    {
      var k :| 0 <= k < |s.lits| && s.lits[k] == q;
      assert s.level[s.lits[k].x] <= 0;
    }
  }

  lemma AssumingExtends(s: Trail, t: Trail, assumps: seq<Lit>)
    requires Assuming(s, assumps) && Extends(s, t) && Leveled(s)
    ensures Assuming(t, assumps)
  {
    forall q | q in t.lits
      ensures DecidedAs(t, assumps, q)
    {
      var k :| 0 <= k < |t.lits| && t.lits[k] == q;
      if k < |s.lits| {
        assert s.lits[k] == q && s.lits[k].x in s.level;
        assert q in s.lits && SameData(s, t, q.x) && DecidedAs(s, assumps, q);
      }
    }
    forall k | 0 <= k < |t.lims| && k < |assumps|
      ensures assumps[k] in t.lits && assumps[k].x in t.level && t.level[assumps[k].x] <= k + 1
    {
      assert assumps[k] in s.lits && SameData(s, t, assumps[k].x);
    }
  }

  lemma AssumingBack(s: Trail, level: nat, assumps: seq<Lit>)
    requires Assuming(s, assumps) && Leveled(s) && level < |s.lims|
    ensures s.lims[level] <= |s.lits| && Assuming(Backtracked(s, level), assumps)
  {
    var t := Backtracked(s, level);
    forall q | q in t.lits
      ensures DecidedAs(t, assumps, q)
    {
      assert q in s.lits && DecidedAs(s, assumps, q);
    }
    forall k | 0 <= k < level && k < |assumps|
      ensures assumps[k] in t.lits
    {
      EarlyStays(s, level, assumps[k]);
    }
  }

  /** A fact at level 0. */
  lemma AssumingFact(s: Trail, p: Lit, assumps: seq<Lit>)
    requires Assuming(s, assumps) && s.lims == [] && s.IsFree(p)
    ensures Assuming(Stating(s, p), assumps)
  {
    var t := Stating(s, p);
    FreeApart(s.lits, p);
    forall q | q in t.lits
      ensures DecidedAs(t, assumps, q)
    {
      if q != p {
        var k :| 0 <= k < |s.lits| && s.lits[k] == q;
        assert DecidedAs(s, assumps, q);
      }
    }
  }

  /** An assumption that is already true gets a level without a decision. */
  lemma AssumingDummy(s: Trail, assumps: seq<Lit>)
    requires Assuming(s, assumps) && Leveled(s) && |s.lims| < |assumps| && assumps[|s.lims|] in s.lits
    ensures Assuming(NewLevel(s), assumps)
  {
    var k :| 0 <= k < |s.lits| && s.lits[k] == assumps[|s.lims|];
    assert s.lits[k].x in s.level;
    assert forall q | q in s.lits :: DecidedAs(s, assumps, q);
  }

  /** A new decision. */
  lemma AssumingDecision(s: Trail, p: Lit, assumps: seq<Lit>)
    requires Assuming(s, assumps) && Leveled(s) && s.IsFree(p)
    requires |s.lims| < |assumps| ==> p == assumps[|s.lims|]
    ensures Assuming(Stating(NewLevel(s), p), assumps)
  {
    var t := Stating(NewLevel(s), p);
    FreeApart(s.lits, p);
    forall q | q in t.lits
      ensures DecidedAs(t, assumps, q)
    {
      if q != p {
        var k :| 0 <= k < |s.lits| && s.lits[k] == q;
        assert s.lits[k].x != p.x && DecidedAs(s, assumps, q);
      }
    }
    forall k | 0 <= k < |t.lims| && k < |assumps|
      ensures assumps[k] in t.lits && assumps[k].x in t.level && t.level[assumps[k].x] <= k + 1
    {
      if k < |s.lims| {
        assert assumps[k] in s.lits;
        var m :| 0 <= m < |s.lits| && s.lits[m] == assumps[k];
        assert s.lits[m].x != p.x;
        assert t.lits[m] == assumps[k];
      } else {
        assert t.lits[|s.lits|] == p;
      }
    }
  }

  // ----- which assumptions a false one depends on -----

  ghost predicate AtPos(lits: seq<Lit>, x: nat, n: nat) {
    exists k :: 0 <= k < n && k < |lits| && lits[k].x == x
  }

  /** Everything marked so far from position i on was decided, and then its
      negation is among the results, or is supported; what is marked before
      position i is still to be looked at. */
  ghost predicate Tracing(clauses: seq<Clause>, s: Trail, out: set<Lit>, marked: set<nat>, seen: set<nat>, i: nat) {
    && (forall k | i <= k < |s.lits| && s.lits[k].x in marked ::
          s.lits[k].Not() in out || Supported(clauses, s, s.lits[k].x, marked))
    && (forall k | 0 <= k < i && k < |s.lits| :: s.lits[k].x in marked <==> s.lits[k].x in seen)
    && (forall x | x in seen :: AtPos(s.lits, x, i))
    && (forall x | x in marked :: AtPos(s.lits, x, |s.lits|) && x in s.level && s.level[x] > 0)
  }

  lemma TraceStart(clauses: seq<Clause>, s: Trail, p: Lit)
    requires Leveled(s) && p in s.lits && p.x in s.level && s.level[p.x] > 0
    ensures Tracing(clauses, s, {}, {p.x}, {p.x}, |s.lits|)
  {
    var k :| 0 <= k < |s.lits| && s.lits[k] == p;
    assert AtPos(s.lits, p.x, |s.lits|);
  }

  lemma TraceSkip(clauses: seq<Clause>, s: Trail, out: set<Lit>, marked: set<nat>, seen: set<nat>, i: nat)
    requires Tracing(clauses, s, out, marked, seen, i + 1) && i < |s.lits| && s.lits[i].x !in seen
    ensures Tracing(clauses, s, out, marked, seen, i)
  {
    forall x | x in seen
      ensures AtPos(s.lits, x, i)
    {
      var k :| 0 <= k < i + 1 && k < |s.lits| && s.lits[k].x == x;
      assert k < i;
    }
  }

  lemma StillAt(lits: seq<Lit>, seen: set<nat>, i: nat)
    requires i < |lits| && forall x | x in seen :: AtPos(lits, x, i + 1)
    ensures forall x | x in seen - {lits[i].x} :: AtPos(lits, x, i)
  {
    forall x | x in seen - {lits[i].x}
      ensures AtPos(lits, x, i)
    {
      var k :| 0 <= k < i + 1 && k < |lits| && lits[k].x == x;
      assert k < i;
    }
  }

  lemma TraceDecision(clauses: seq<Clause>, s: Trail, out: set<Lit>, marked: set<nat>, seen: set<nat>, i: nat)
    requires Tracing(clauses, s, out, marked, seen, i + 1) && i < |s.lits| && DistinctVars(s.lits)
    ensures Tracing(clauses, s, out + {s.lits[i].Not()}, marked, seen - {s.lits[i].x}, i)
  {
    StillAt(s.lits, seen, i);
    assert forall k | 0 <= k < i :: s.lits[k].x != s.lits[i].x;
  }

  /** The variables above level 0 of a reason. */
  function Above(s: Trail, cls: Clause, x: nat): set<nat> {
    set q | q in cls && q.x != x && q.x in s.level && s.level[q.x] > 0 :: q.x
  }

  lemma TraceReason(clauses: seq<Clause>, s: Trail, out: set<Lit>, marked: set<nat>, seen: set<nat>, i: nat, more: set<nat>)
    requires Tracing(clauses, s, out, marked, seen, i + 1) && i < |s.lits| && DistinctVars(s.lits)
    requires Supported(clauses, s, s.lits[i].x, marked + more)
    requires forall x | x in more :: AtPos(s.lits, x, i) && x in s.level && s.level[x] > 0
    ensures Tracing(clauses, s, out, marked + more, seen + more - {s.lits[i].x}, i)
  {
    var all := marked + more;
    StillAt(s.lits, seen, i);
    forall x | x in more
      ensures AtPos(s.lits, x, |s.lits|) && forall k | i <= k < |s.lits| :: s.lits[k].x != x
    {
      var m :| 0 <= m < i && m < |s.lits| && s.lits[m].x == x;
      assert forall k | i <= k < |s.lits| :: s.lits[k].x != s.lits[m].x;
    }
    forall k | i <= k < |s.lits| && s.lits[k].x in all
      ensures s.lits[k].Not() in out || Supported(clauses, s, s.lits[k].x, all)
    {
      if k > i && s.lits[k].Not() !in out {
        SupportedMore(clauses, s, s.lits[k].x, marked, all);
      }
    }
    assert forall k | 0 <= k < i :: s.lits[k].x != s.lits[i].x;
  }

  /** The reason of position i supports it once its variables above level 0 are
      marked, and they are before it. */
  lemma ReasonAbove(formula: seq<Clause>, clauses: seq<Clause>, s: Trail, i: nat, marked: set<nat>)
    requires ConsistentOk(formula, clauses, s) && i < |s.lits| && s.lits[i].x in s.reason
    ensures s.reason[s.lits[i].x] < |clauses|
    ensures var more := Above(s, clauses[s.reason[s.lits[i].x]], s.lits[i].x);
      && Supported(clauses, s, s.lits[i].x, marked + more)
      && forall x | x in more :: AtPos(s.lits, x, i) && x in s.level && s.level[x] > 0
  {
    ConsistentIs(formula, clauses, s);
    assert Justified(formula, clauses, s, i);
    var cls := clauses[s.reason[s.lits[i].x]];
    forall q | q in cls && q.x != s.lits[i].x
      ensures q.x in s.level && AtPos(s.lits, q.x, i)
    {
      assert q in LitSet(cls) - {s.lits[i]};
      FalseAssigned(s, q, i);
      var k :| 0 <= k < i && k < |s.lits| && s.lits[k] == q.Not();
    }
  }

  /** In the end nothing is marked, and the results refute every marked
      assignment together. */
  lemma TraceDone(formula: seq<Clause>, clauses: seq<Clause>, s: Trail, out: set<Lit>, marked: set<nat>, seen: set<nat>, p: Lit)
    requires ConsistentOk(formula, clauses, s) && s.lims != [] && Tracing(clauses, s, out, marked, seen, s.lims[0])
    requires forall q | q in out :: q.Not() in s.lits
    requires p in s.lits && p.x in marked
    ensures seen == {} && Entails(formula, out + {p})
  {
    ConsistentIs(formula, clauses, s);
    NoneSeen(clauses, s, out, marked, seen);
    TraceClosed(clauses, s, out, marked, seen);
    OutFalse(s, out);
    var i :| 0 <= i < |s.lits| && s.lits[i] == p;
    forall v | Models(v, formula)
      ensures Satisfies(v, out + {p})
    {
      if Satisfies(v, out) {
        var q :| q in out && Holds(v, q);
        assert q in out + {p};
      } else {
        SeenAgree(formula, clauses, s, out, marked, v, i);
        assert p in out + {p};
      }
    }
  }

  lemma NoneSeen(clauses: seq<Clause>, s: Trail, out: set<Lit>, marked: set<nat>, seen: set<nat>)
    requires Leveled(s) && s.lims != [] && Tracing(clauses, s, out, marked, seen, s.lims[0])
    ensures seen == {}
  {
    var first := s.lims[0];
    if x :| x in seen {
      SeenMarked(clauses, s, out, marked, seen, first, x);
      EarlyZero(s, x);
    }
  }

  lemma SeenMarked(clauses: seq<Clause>, s: Trail, out: set<Lit>, marked: set<nat>, seen: set<nat>, i: nat, x: nat)
    requires Tracing(clauses, s, out, marked, seen, i) && x in seen
    ensures x in marked
  {
    var k :| 0 <= k < i && k < |s.lits| && s.lits[k].x == x;
    assert s.lits[k].x in marked;
  }

  lemma EarlyZero(s: Trail, x: nat)
    requires Leveled(s) && s.lims != [] && AtPos(s.lits, x, s.lims[0])
    ensures x in s.level && s.level[x] == 0
  {
    var k :| 0 <= k < s.lims[0] && k < |s.lits| && s.lits[k].x == x;
    assert s.lims[0] <= k <==> 0 < s.level[s.lits[k].x];
  }

  lemma OutFalse(s: Trail, out: set<Lit>)
    requires forall q | q in out :: q.Not() in s.lits
    ensures AllFalse(s.lits, out, |s.lits|)
  {
    forall q | q in out
      ensures FalseBy(s.lits, q, |s.lits|)
    {
      var k :| 0 <= k < |s.lits| && s.lits[k] == q.Not();
    }
  }

  lemma TraceClosed(clauses: seq<Clause>, s: Trail, out: set<Lit>, marked: set<nat>, seen: set<nat>)
    requires Leveled(s) && s.lims != [] && Tracing(clauses, s, out, marked, seen, s.lims[0])
    ensures Closed(clauses, s, out, marked)
  {
    forall x | x in marked
      ensures x in VarsOf(out) || Supported(clauses, s, x, marked)
    {
      var k :| 0 <= k < |s.lits| && s.lits[k].x == x;
      assert s.lims[0] <= k <==> 0 < s.level[s.lits[k].x];
      if s.lits[k].Not() in out {
        assert s.lits[k].Not().x == x;
      }
    }
  }

  // ----- exactly the decisions behind a literal -----

  /** The assignment of y was made n steps of reasons before that of x. */
  ghost predicate Behind(clauses: seq<Clause>, s: Trail, x: nat, y: nat, n: nat)
    decreases n
  {
    if n == 0 then x == y
    else exists z :: Behind(clauses, s, x, z, n - 1) && FromReason(clauses, s, z, y)
  }

  /** The variable y, above level 0, is in the reason of z. */
  ghost predicate FromReason(clauses: seq<Clause>, s: Trail, z: nat, y: nat) {
    z in s.reason && s.reason[z] < |clauses| && y in Above(s, clauses[s.reason[z]], z)
  }

  ghost predicate IsBehind(clauses: seq<Clause>, s: Trail, x: nat, y: nat) {
    exists n: nat :: Behind(clauses, s, x, y, n)
  }

  lemma BehindNext(clauses: seq<Clause>, s: Trail, x: nat, z: nat, y: nat)
    requires IsBehind(clauses, s, x, z) && FromReason(clauses, s, z, y)
    ensures IsBehind(clauses, s, x, y)
  {
    var n: nat :| Behind(clauses, s, x, z, n);
    assert Behind(clauses, s, x, y, n + 1);
  }

  /** Marks that are closed under reasons, but for decisions, contain everything
      behind a marked variable. */
  lemma {:induction false} BehindMarked(clauses: seq<Clause>, s: Trail, out: set<Lit>, marked: set<nat>, x: nat, y: nat, n: nat)
    requires Closed(clauses, s, out, marked) && (forall q | q in out :: q.x !in s.reason)
    requires x in marked && Behind(clauses, s, x, y, n)
    ensures y in marked
    decreases n
  {
    if n > 0 {
      var z :| Behind(clauses, s, x, z, n - 1) && FromReason(clauses, s, z, y);
      BehindMarked(clauses, s, out, marked, x, z, n - 1);
      assert z in VarsOf(out) || Supported(clauses, s, z, marked);
      var q :| q in clauses[s.reason[z]] && q.x != z && q.x in s.level && s.level[q.x] > 0 && q.x == y;
    }
  }

  /** The negations of exactly the decisions behind the literal. */
  ghost predicate ExactlyBehind(clauses: seq<Clause>, s: Trail, x: nat, out: set<Lit>) {
    forall q: Lit | q.Not() in s.lits && q.x !in s.reason && q.x in s.level && s.level[q.x] > 0 ::
      q in out <==> IsBehind(clauses, s, x, q.x)
  }

  lemma TraceExact(clauses: seq<Clause>, s: Trail, out: set<Lit>, marked: set<nat>, seen: set<nat>, x: nat)
    requires Leveled(s) && DistinctVars(s.lits) && s.lims != [] && Tracing(clauses, s, out, marked, seen, s.lims[0])
    requires x in marked && forall y | y in marked :: IsBehind(clauses, s, x, y)
    requires forall q | q in out :: q.Not() in s.lits && q.x !in s.reason && q.x in marked
    ensures ExactlyBehind(clauses, s, x, out)
  {
    TraceClosed(clauses, s, out, marked, seen);
    forall q: Lit | q.Not() in s.lits && q.x !in s.reason && q.x in s.level && s.level[q.x] > 0
      ensures q in out <==> IsBehind(clauses, s, x, q.x)
    {
      if IsBehind(clauses, s, x, q.x) {
        var n: nat :| Behind(clauses, s, x, q.x, n);
        BehindMarked(clauses, s, out, marked, x, q.x, n);
        DecisionOut(clauses, s, out, marked, seen, q);
      }
    }
  }

  lemma DecisionOut(clauses: seq<Clause>, s: Trail, out: set<Lit>, marked: set<nat>, seen: set<nat>, q: Lit)
    requires Leveled(s) && s.lims != [] && Tracing(clauses, s, out, marked, seen, s.lims[0])
    requires q.Not() in s.lits && q.x !in s.reason && q.x in marked && q.x in s.level && s.level[q.x] > 0
    ensures q in out
  {
    var k :| 0 <= k < |s.lits| && s.lits[k] == q.Not();
    assert s.lims[0] <= k <==> 0 < s.level[s.lits[k].x];
    assert s.lits[k].Not() == q;
  }
}
