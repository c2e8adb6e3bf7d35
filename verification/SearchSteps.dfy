/** What one step of the search does to the solver: learning, going back,
    deciding, and answering
    (src/sat/solvers/glucose/src/core/Solver.cc:397-477, 658-672, 978-1027, 1463-1660). */
module SearchSteps {
  import opened Trails
  import opened FirstUip
  import opened ClauseMinimization
  import opened WatchLists
  import opened Propagation

  // ----- reordered binary clauses -----

  lemma FlipsWatched(a: seq<Clause>, b: seq<Clause>, ws: Watches)
    requires WatchedOk(a, ws) && Flips(a, b)
    ensures WatchedOk(b, ws)
  {
    WatchedIs(a, ws);
    forall q | q in ws
      ensures ListOk(b, q, ws[q])
    {
      forall k | 0 <= k < |ws[q]|
        ensures EntryOk(b, q, ws[q][k])
      {
        assert EntryOk(a, q, ws[q][k]);
      }
    }
    forall c | 0 <= c < |b|
      ensures Listed(ws, b[c], c)
    {
      assert Listed(ws, a[c], c);
    }
    WatchedIs(b, ws);
  }

  lemma FlipsBinWatched(a: seq<Clause>, b: seq<Clause>, wb: Watches)
    requires BinWatchedOk(a, wb) && Flips(a, b)
    ensures BinWatchedOk(b, wb)
  {
    BinWatchedIs(a, wb);
    forall q | q in wb
      ensures BinListOk(b, q, wb[q])
    {
      forall k | 0 <= k < |wb[q]|
        ensures BinEntryOk(b, q, wb[q][k])
      {
        assert BinEntryOk(a, q, wb[q][k]);
      }
    }
    forall c | 0 <= c < |b|
      ensures BinListed(wb, b[c], c)
    {
      assert BinListed(wb, a[c], c);
    }
    BinWatchedIs(b, wb);
  }

  lemma SameKnown(a: seq<Clause>, b: seq<Clause>, s: Trail, vars: set<nat>)
    requires Known(a, s, vars) && SameClauses(a, b)
    ensures Known(b, s, vars)
  {
    forall c | 0 <= c < |b|
      ensures KnownClause(b[c], vars)
    {
      assert KnownClause(a[c], vars);
      forall q | q in b[c]
        ensures q.x in vars
      {
        assert q in LitSet(b[c]);
        assert q in a[c];
      }
    }
  }

  // ----- attaching a clause -----

  /** The lists after a clause is put under the negations of its first two
      literals. */
  function Attached(ws: Watches, c: nat, cls: Clause): Watches
    requires |cls| > 1
  {
    var one := ws[cls[0].Not() := At(ws, cls[0].Not()) + [Watcher(c, cls[1])]];
    one[cls[1].Not() := At(one, cls[1].Not()) + [Watcher(c, cls[0])]]
  }

  lemma AttachedAt(ws: Watches, c: nat, cls: Clause, q: Lit)
    requires |cls| > 1 && cls[0] != cls[1]
    ensures At(Attached(ws, c, cls), q) ==
      if q == cls[0].Not() then At(ws, q) + [Watcher(c, cls[1])]
      else if q == cls[1].Not() then At(ws, q) + [Watcher(c, cls[0])]
      else At(ws, q)
  {
    assert cls[0].Not().Not() == cls[0] && cls[1].Not().Not() == cls[1];
  }

  lemma MoreEntries(clauses: seq<Clause>, cls: Clause, q: Lit, l: seq<Watcher>)
    requires ListOk(clauses, q, l)
    ensures ListOk(clauses + [cls], q, l) && forall k | 0 <= k < |l| :: l[k].cref < |clauses|
  {
    forall k | 0 <= k < |l|
      ensures EntryOk(clauses + [cls], q, l[k]) && l[k].cref < |clauses|
    {
      assert EntryOk(clauses, q, l[k]);
    }
  }

  lemma OneMoreEntry(clauses: seq<Clause>, q: Lit, l: seq<Watcher>, w: Watcher)
    requires ListOk(clauses, q, l) && EntryOk(clauses, q, w) && forall k | 0 <= k < |l| :: l[k].cref != w.cref
    ensures ListOk(clauses, q, l + [w])
  {
    var m := l + [w];
    forall k | 0 <= k < |m|
      ensures EntryOk(clauses, q, m[k])
    {
      assert k < |l| ==> m[k] == l[k] && EntryOk(clauses, q, l[k]);
    }
    forall i, j | 0 <= i < j < |m|
      ensures m[i].cref != m[j].cref
    {
      assert m[i] == l[i];
      assert j < |l| ==> m[j] == l[j];
    }
  }

  lemma AttachList(clauses: seq<Clause>, ws: Watches, cls: Clause, q: Lit)
    requires ListsOk(clauses, ws) && |cls| > 2 && NoRepeats(cls)
    ensures ListOk(clauses + [cls], q, At(Attached(ws, |clauses|, cls), q))
  {
    var c := |clauses|;
    assert cls[0] != cls[1];
    AttachedAt(ws, c, cls, q);
    MoreEntries(clauses, cls, q, At(ws, q));
    assert (clauses + [cls])[c] == cls;
    if q == cls[0].Not() {
      assert cls[0].Not().Not() == cls[0];
      OneMoreEntry(clauses + [cls], q, At(ws, q), Watcher(c, cls[1]));
    } else if q == cls[1].Not() {
      assert cls[1].Not().Not() == cls[1];
      OneMoreEntry(clauses + [cls], q, At(ws, q), Watcher(c, cls[0]));
    }
  }

  lemma AttachHas(ws: Watches, c: nat, cls: Clause, q: Lit, d: nat)
    requires |cls| > 1 && cls[0] != cls[1]
    ensures Has(At(ws, q), d) ==> Has(At(Attached(ws, c, cls), q), d)
    ensures q == cls[0].Not() || q == cls[1].Not() ==> Has(At(Attached(ws, c, cls), q), c)
  {
    AttachedAt(ws, c, cls, q);
    HasMore(At(ws, q), Watcher(c, cls[1]), d);
    HasMore(At(ws, q), Watcher(c, cls[0]), d);
    HasMore(At(ws, q), Watcher(c, cls[1]), c);
    HasMore(At(ws, q), Watcher(c, cls[0]), c);
  }

  lemma AttachListed(clauses: seq<Clause>, ws: Watches, cls: Clause, d: nat)
    requires AllListed(clauses, ws) && |cls| > 2 && cls[0] != cls[1] && d <= |clauses|
    ensures Listed(Attached(ws, |clauses|, cls), (clauses + [cls])[d], d)
  {
    if d < |clauses| {
      assert Listed(ws, clauses[d], d);
      if |clauses[d]| > 2 {
        AttachHas(ws, |clauses|, cls, clauses[d][0].Not(), d);
        AttachHas(ws, |clauses|, cls, clauses[d][1].Not(), d);
      }
    } else {
      AttachHas(ws, |clauses|, cls, cls[0].Not(), d);
      AttachHas(ws, |clauses|, cls, cls[1].Not(), d);
    }
  }

  /** A longer clause is attached to the one kind of lists. */
  lemma AttachLong(clauses: seq<Clause>, ws: Watches, wb: Watches, cls: Clause)
    requires WatchedOk(clauses, ws) && BinWatchedOk(clauses, wb) && |cls| > 2 && NoRepeats(cls)
    ensures WatchedOk(clauses + [cls], Attached(ws, |clauses|, cls)) && BinWatchedOk(clauses + [cls], wb)
  {
    var next, more := clauses + [cls], Attached(ws, |clauses|, cls);
    WatchedIs(clauses, ws);
    forall q | q in more
      ensures ListOk(next, q, more[q])
    {
      AttachList(clauses, ws, cls, q);
    }
    forall d | 0 <= d < |next|
      ensures Listed(more, next[d], d)
    {
      AttachListed(clauses, ws, cls, d);
    }
    WatchedIs(next, more);
    BinMore(clauses, wb, cls);
  }

  lemma BinMore(clauses: seq<Clause>, wb: Watches, cls: Clause)
    requires BinWatchedOk(clauses, wb) && |cls| != 2
    ensures BinWatchedOk(clauses + [cls], wb)
  {
    var next := clauses + [cls];
    BinWatchedIs(clauses, wb);
    forall q | q in wb
      ensures BinListOk(next, q, wb[q])
    {
      BinEntriesMore(clauses, cls, q, wb[q]);
    }
    forall d | 0 <= d < |next|
      ensures BinListed(wb, next[d], d)
    {
      assert d < |clauses| ==> BinListed(wb, clauses[d], d);
    }
    BinWatchedIs(next, wb);
  }

  lemma BinEntriesMore(clauses: seq<Clause>, cls: Clause, q: Lit, l: seq<Watcher>)
    requires BinListOk(clauses, q, l)
    ensures BinListOk(clauses + [cls], q, l)
  {
    forall k | 0 <= k < |l|
      ensures BinEntryOk(clauses + [cls], q, l[k])
    {
      assert BinEntryOk(clauses, q, l[k]);
    }
  }

  lemma LongMore(clauses: seq<Clause>, ws: Watches, cls: Clause)
    requires WatchedOk(clauses, ws) && |cls| == 2
    ensures WatchedOk(clauses + [cls], ws)
  {
    var next := clauses + [cls];
    WatchedIs(clauses, ws);
    forall q | q in ws
      ensures ListOk(next, q, ws[q])
    {
      MoreEntries(clauses, cls, q, ws[q]);
    }
    forall d | 0 <= d < |next|
      ensures Listed(ws, next[d], d)
    {
      assert d < |clauses| ==> Listed(ws, clauses[d], d);
    }
    WatchedIs(next, ws);
  }

  lemma PairSet(cls: Clause)
    requires |cls| == 2
    ensures LitSet(cls) == {cls[0], cls[1]}
  {
  }

  lemma AttachBinList(clauses: seq<Clause>, wb: Watches, cls: Clause, q: Lit)
    requires |cls| == 2 && cls[0] != cls[1] && (q in wb ==> BinListOk(clauses, q, wb[q]))
    ensures BinListOk(clauses + [cls], q, At(Attached(wb, |clauses|, cls), q))
  {
    var c := |clauses|;
    var next, l := clauses + [cls], At(Attached(wb, |clauses|, cls), q);
    AttachedAt(wb, c, cls, q);
    PairSet(cls);
    BinEntriesMore(clauses, cls, q, At(wb, q));
    assert next[c] == cls;
    forall k | 0 <= k < |l|
      ensures BinEntryOk(next, q, l[k])
    {
      if k < |At(wb, q)| {
        assert l[k] == At(wb, q)[k];
        assert BinEntryOk(next, q, At(wb, q)[k]);
      } else {
        assert q.Not() == cls[0] || q.Not() == cls[1];
      }
    }
  }

  /** A binary clause is attached to the other. */
  lemma AttachBin(clauses: seq<Clause>, ws: Watches, wb: Watches, cls: Clause)
    requires WatchedOk(clauses, ws) && BinWatchedOk(clauses, wb) && |cls| == 2 && NoRepeats(cls)
    ensures WatchedOk(clauses + [cls], ws) && BinWatchedOk(clauses + [cls], Attached(wb, |clauses|, cls))
  {
    var next, more := clauses + [cls], Attached(wb, |clauses|, cls);
    LongMore(clauses, ws, cls);
    BinWatchedIs(clauses, wb);
    forall q | q in more
      ensures BinListOk(next, q, more[q])
    {
      AttachBinList(clauses, wb, cls, q);
    }
    forall d | 0 <= d < |next|
      ensures BinListed(more, next[d], d)
    {
      AttachBinListed(clauses, wb, cls, d);
    }
    BinWatchedIs(next, more);
  }

  lemma AttachBinListed(clauses: seq<Clause>, wb: Watches, cls: Clause, d: nat)
    requires |cls| == 2 && cls[0] != cls[1] && d <= |clauses| && (d < |clauses| ==> BinListed(wb, clauses[d], d))
    ensures BinListed(Attached(wb, |clauses|, cls), (clauses + [cls])[d], d)
  {
    if d < |clauses| {
      if |clauses[d]| == 2 {
        AttachHas(wb, |clauses|, cls, clauses[d][0].Not(), d);
        AttachHas(wb, |clauses|, cls, clauses[d][1].Not(), d);
      }
    } else {
      AttachHas(wb, |clauses|, cls, cls[0].Not(), d);
      AttachHas(wb, |clauses|, cls, cls[1].Not(), d);
    }
  }

  // ----- learning a clause -----

  /** An entailed clause may be added. */
  lemma MoreConsistent(formula: seq<Clause>, clauses: seq<Clause>, s: Trail, cls: Clause)
    requires ConsistentOk(formula, clauses, s) && Entails(formula, LitSet(cls)) && NoRepeats(cls)
    ensures ConsistentOk(formula, clauses + [cls], s)
  {
    var next := clauses + [cls];
    ConsistentIs(formula, clauses, s);
    forall c | 0 <= c < |next|
      ensures Entails(formula, LitSet(next[c])) && NoRepeats(next[c])
    {
      assert c < |clauses| ==> Entails(formula, LitSet(clauses[c])) && NoRepeats(clauses[c]);
    }
    forall i | 0 <= i < |s.lits|
      ensures Justified(formula, next, s, i)
    {
      assert Justified(formula, clauses, s, i);
    }
    ConsistentIs(formula, next, s);
  }

  /** The clause has its first literal left, and its second is false at the
      current level; the others are false. */
  ghost predicate OneLeft(s: Trail, cls: Clause) {
    && |cls| > 1 && NoRepeats(cls) && s.IsFree(cls[0])
    && (forall q | q in cls && q != cls[0] :: q.Not() in s.lits)
    && cls[1].x in s.level && s.level[cls[1].x] == |s.lims|
  }

  /** When the first literal is then assigned, the new watchers are guarded. */
  lemma LearnGuards(s: Trail, t: Trail, ws: Watches, c: nat, cls: Clause)
    requires Leveled(t) && GuardsOk(s, ws, |s.lits|) && OneLeft(s, cls)
    requires t.lits == s.lits + [cls[0]] && t.level == s.level[cls[0].x := |s.lims|]
    ensures GuardsOk(t, Attached(ws, c, cls), |s.lits|)
  {
    GuardsImplied(s, t, ws, |s.lits|, cls[0]);
    GuardsIs(t, ws, |s.lits|);
    FreeApart(s.lits, cls[0]);
    var more := Attached(ws, c, cls);
    forall m, k | 0 <= m < |s.lits| && 0 <= k < |At(more, t.lits[m])|
      ensures Guarded(t, t.lits[m], At(more, t.lits[m])[k])
    {
      assert t.lits[m] == s.lits[m] && s.lits[m].x != cls[0].x;
      assert cls[0] != cls[1];
      AttachedAt(ws, c, cls, t.lits[m]);
      if k < |At(ws, t.lits[m])| {
        assert At(more, t.lits[m])[k] == At(ws, t.lits[m])[k];
        assert Guarded(t, t.lits[m], At(ws, t.lits[m])[k]);
      } else {
        assert At(more, t.lits[m])[k].blocker == cls[0];
        assert t.lits[|s.lits|] == cls[0];
      }
    }
    GuardsIs(t, more, |s.lits|);
  }

  lemma LearnForces(s: Trail, cls: Clause)
    requires OneLeft(s, cls)
    ensures Forces(s, cls, cls[0])
  {
    assert cls[0] in cls;
  }

  /** The learnt clause is one literal away from false once the trail has gone
      back to its level. */
  lemma LearntLeft(formula: seq<Clause>, clauses: seq<Clause>, s: Trail, cls: Clause, level: nat)
    requires ConsistentOk(formula, clauses, s) && Asserting(formula, s, cls) && UnitAt(s, cls, level)
    ensures s.lims[level] <= |s.lits| && Backtracked(s, level).IsFree(cls[0])
    ensures |cls| > 1 ==> OneLeft(Backtracked(s, level), cls)
  {
    ConsistentIs(formula, clauses, s);
    assert cls[0] in LitSet(cls);
    FalseAssigned(s, cls[0], |s.lits|);
    LateGone(s, level, cls[0].Not());
    assert cls[0].Not().Not() == cls[0];
    forall q | q in cls && q != cls[0]
      ensures q.Not() in Backtracked(s, level).lits
    {
      var k :| 0 <= k < |cls| && cls[k] == q;
      assert q in LitSet(cls);
      FalseAssigned(s, q, |s.lits|);
      EarlyStays(s, level, q.Not());
    }
  }

  // ----- going back, deciding -----

  lemma BackOk(formula: seq<Clause>, clauses: seq<Clause>, s: Trail, ws: Watches, wb: Watches, level: nat, n: nat)
    requires ConsistentOk(formula, clauses, s) && level < |s.lims| && LastLim(s) <= n
    requires GuardsOk(s, ws, n) && GuardsOk(s, wb, n)
    ensures s.lims[level] <= |s.lits| && ConsistentOk(formula, clauses, Backtracked(s, level))
    ensures GuardsOk(Backtracked(s, level), ws, s.lims[level]) && GuardsOk(Backtracked(s, level), wb, s.lims[level])
  {
    ConsistentIs(formula, clauses, s);
    LimsOrdered(s, level, |s.lims| - 1);
    BackKeeps(formula, clauses, s, level);
    GuardsIs(s, ws, n);
    GuardsIs(s, wb, n);
    BackGuards(s, ws, level, n);
    BackGuards(s, wb, level, n);
    ConsistentIs(formula, clauses, Backtracked(s, level));
    GuardsIs(Backtracked(s, level), ws, s.lims[level]);
    GuardsIs(Backtracked(s, level), wb, s.lims[level]);
  }

  function NewLevel(s: Trail): Trail {
    s.(lims := s.lims + [|s.lits|])
  }

  lemma NewLevelOk(formula: seq<Clause>, clauses: seq<Clause>, s: Trail)
    requires ConsistentOk(formula, clauses, s)
    ensures ConsistentOk(formula, clauses, NewLevel(s))
  {
    ConsistentIs(formula, clauses, s);
    var t := NewLevel(s);
    forall i | 0 <= i < |t.lits|
      ensures Justified(formula, clauses, t, i)
    {
      assert Justified(formula, clauses, s, i);
    }
    ConsistentIs(formula, clauses, t);
  }

  lemma NewLevelGuards(s: Trail, ws: Watches, n: nat)
    requires GuardsOk(s, ws, n)
    ensures GuardsOk(NewLevel(s), ws, n)
  {
    GuardsIs(s, ws, n);
    var t := NewLevel(s);
    forall m, k | 0 <= m < n && m < |t.lits| && 0 <= k < |At(ws, t.lits[m])|
      ensures Guarded(t, t.lits[m], At(ws, t.lits[m])[k])
    {
      assert Guarded(s, s.lits[m], At(ws, s.lits[m])[k]);
    }
    GuardsIs(t, ws, n);
  }

  /** A fact at level 0, or the decision of a new level. */
  lemma StateOk(formula: seq<Clause>, clauses: seq<Clause>, s: Trail, ws: Watches, wb: Watches, n: nat, p: Lit)
    requires ConsistentOk(formula, clauses, s) && s.IsFree(p) && n <= |s.lits|
    requires GuardsOk(s, ws, n) && GuardsOk(s, wb, n)
    requires if s.lims == [] then Entails(formula, {p}) else s.lims[|s.lims| - 1] == |s.lits|
    ensures ConsistentOk(formula, clauses, Stating(s, p))
    ensures GuardsOk(Stating(s, p), ws, n) && GuardsOk(Stating(s, p), wb, n)
  {
    ConsistentIs(formula, clauses, s);
    StateKeeps(formula, clauses, s, p);
    ConsistentIs(formula, clauses, Stating(s, p));
    GuardsImplied(s, Stating(s, p), ws, n, p);
    GuardsImplied(s, Stating(s, p), wb, n, p);
  }

  // ----- answers -----

  /** A false clause at level 0 refutes the formula. */
  lemma ZeroConflict(formula: seq<Clause>, clauses: seq<Clause>, s: Trail, c: nat)
    requires ConsistentOk(formula, clauses, s) && s.lims == [] && c < |clauses| && Conflicts(s, clauses[c])
    ensures Entails(formula, {})
  {
    ConsistentIs(formula, clauses, s);
    var lits := LitSet(clauses[c]);
    forall q | q in lits
      ensures Entails(formula, {q.Not()})
    {
      FalseAssigned(s, q, |s.lits|);
      ZeroRefuted(formula, clauses, s, q, |s.lits|);
    }
    DropAll(formula, lits, lits);
    assert lits - lits == {};
  }

  /** Refuted literals may be dropped. */
  lemma {:induction false} DropAll(formula: seq<Clause>, lits: set<Lit>, gone: set<Lit>)
    requires Entails(formula, lits) && forall q | q in gone :: Entails(formula, {q.Not()})
    ensures Entails(formula, lits - gone)
    decreases |gone|
  {
    if gone == {} {
      assert lits - gone == lits;
    } else {
      var q :| q in gone;
      DropFalse(formula, lits, q);
      DropAll(formula, lits - {q}, gone - {q});
      assert lits - {q} - (gone - {q}) == lits - gone;
    }
  }

  /** The literals that hold at level 0. */
  function Facts(s: Trail): set<Lit> {
    set q | q in s.lits && q.x in s.level && s.level[q.x] == 0
  }

  /** Clauses and facts together say no less than the formula. */
  ghost predicate Covers(formula: seq<Clause>, clauses: seq<Clause>, facts: set<Lit>) {
    forall v: Valuation | Models(v, clauses) && (forall q | q in facts :: Holds(v, q)) :: Models(v, formula)
  }

  lemma SameModels(a: seq<Clause>, b: seq<Clause>, v: Valuation)
    requires SameClauses(a, b) && Models(v, b)
    ensures Models(v, a)
  {
    forall cls | cls in a
      ensures Satisfies(v, LitSet(cls))
    {
      var c :| 0 <= c < |a| && a[c] == cls;
      assert b[c] in b;
    }
  }

  lemma CoversSame(formula: seq<Clause>, a: seq<Clause>, b: seq<Clause>, facts: set<Lit>, more: set<Lit>)
    requires Covers(formula, a, facts) && SameClauses(a, b) && facts <= more
    ensures Covers(formula, b, more)
  {
    forall v: Valuation | Models(v, b) && (forall q | q in more :: Holds(v, q))
      ensures Models(v, formula)
    {
      SameModels(a, b, v);
    }
  }

  lemma CoversMore(formula: seq<Clause>, clauses: seq<Clause>, cls: Clause, facts: set<Lit>)
    requires Covers(formula, clauses, facts)
    ensures Covers(formula, clauses + [cls], facts)
  {
    forall v: Valuation | Models(v, clauses + [cls]) && (forall q | q in facts :: Holds(v, q))
      ensures Models(v, formula)
    {
      assert forall d | d in clauses :: d in clauses + [cls];
    }
  }

  lemma FactsStay(s: Trail, t: Trail)
    requires Extends(s, t)
    ensures Facts(s) <= Facts(t)
  {
    forall q | q in Facts(s)
      ensures q in Facts(t)
    {
      var k :| 0 <= k < |s.lits| && s.lits[k] == q;
      assert t.lits[k] == q && SameData(s, t, q.x);
    }
  }

  lemma FactsBack(s: Trail, level: nat)
    requires Leveled(s) && level < |s.lims|
    ensures s.lims[level] <= |s.lits| && Facts(s) <= Facts(Backtracked(s, level))
  {
    forall q | q in Facts(s)
      ensures q in Facts(Backtracked(s, level))
    {
      EarlyStays(s, level, q);
    }
  }

  lemma FactsMore(s: Trail, t: Trail, p: Lit)
    requires s.IsFree(p) && t.lits == s.lits + [p] && t.level == s.level[p.x := |s.lims|]
    ensures Facts(s) <= Facts(t)
    ensures s.lims == [] ==> p in Facts(t)
  {
    FreeApart(s.lits, p);
    forall q | q in Facts(s)
      ensures q in Facts(t)
    {
      var k :| 0 <= k < |s.lits| && s.lits[k] == q;
      assert t.lits[k] == q;
    }
    assert t.lits[|s.lits|] == p;
  }

  /** The valuation that the literals stand for. */
  ghost function TruthOf(lits: seq<Lit>): Valuation {
    iset x | Lit(x, false) in lits
  }

  ghost function ModelOf(s: Trail): Valuation {
    TruthOf(s.lits)
  }

  lemma TrailHolds(s: Trail, q: Lit)
    requires DistinctVars(s.lits) && q in s.lits
    ensures Holds(ModelOf(s), q)
  {
    if q.sign {
      NotBoth(s.lits, q);
      assert q.Not() == Lit(q.x, false);
    } else {
      assert q == Lit(q.x, false);
    }
  }

  lemma SettledHolds(s: Trail, cls: Clause, vars: set<nat>)
    requires DistinctVars(s.lits) && Settled(s, cls) && KnownClause(cls, vars)
    requires forall x | x in vars :: Lit(x, false) in s.lits || Lit(x, true) in s.lits
    ensures Satisfies(ModelOf(s), LitSet(cls))
  {
    if i, j :| 0 <= i < j < |cls| && cls[i].Not() !in s.lits && cls[j].Not() !in s.lits {
      var q := cls[i];
      assert q in cls && q.x in vars;
      assert q == Lit(q.x, q.sign) && q.Not() == Lit(q.x, !q.sign);
      TrailHolds(s, q);
      assert q in LitSet(cls);
    } else {
      var q :| q in cls && q in s.lits;
      TrailHolds(s, q);
      assert q in LitSet(cls);
    }
  }

  /** With every variable assigned and every clause settled, the trail is a model
      of the formula. */
  lemma FullTrail(formula: seq<Clause>, clauses: seq<Clause>, s: Trail, vars: set<nat>)
    requires ConsistentOk(formula, clauses, s) && Known(clauses, s, vars) && Covers(formula, clauses, Facts(s))
    requires forall x | x in vars :: Lit(x, false) in s.lits || Lit(x, true) in s.lits
    requires forall c | 0 <= c < |clauses| :: Settled(s, clauses[c])
    ensures Models(ModelOf(s), formula)
  {
    ConsistentIs(formula, clauses, s);
    forall cls | cls in clauses
      ensures Satisfies(ModelOf(s), LitSet(cls))
    {
      var c :| 0 <= c < |clauses| && clauses[c] == cls;
      assert KnownClause(clauses[c], vars);
      SettledHolds(s, cls, vars);
    }
    forall q | q in Facts(s)
      ensures Holds(ModelOf(s), q)
    {
      TrailHolds(s, q);
    }
  }

  // ----- what is known, along the way -----

  lemma BackKnown(clauses: seq<Clause>, s: Trail, vars: set<nat>, level: nat)
    requires Known(clauses, s, vars) && level < |s.lims| && s.lims[level] <= |s.lits|
    ensures Known(clauses, Backtracked(s, level), vars)
  {
  }

  lemma MoreKnown(clauses: seq<Clause>, s: Trail, vars: set<nat>, cls: Clause)
    requires Known(clauses, s, vars) && KnownClause(cls, vars)
    ensures Known(clauses + [cls], s, vars)
  {
    var next := clauses + [cls];
    forall c | 0 <= c < |next|
      ensures KnownClause(next[c], vars)
    {
      assert c < |clauses| ==> KnownClause(clauses[c], vars);
    }
  }

  /** A clause of false literals mentions known variables only. */
  lemma FalseKnown(clauses: seq<Clause>, s: Trail, vars: set<nat>, cls: Clause)
    requires Known(clauses, s, vars) && AllFalse(s.lits, LitSet(cls), |s.lits|)
    ensures KnownClause(cls, vars)
  {
    forall q | q in cls
      ensures q.x in vars
    {
      assert q in LitSet(cls);
      var k :| 0 <= k < |s.lits| && s.lits[k] == q.Not();
      assert s.lits[k] in s.lits;
    }
  }

  /** The clauses, the lists and the trail with one more clause that forces its
      first literal. */
  lemma LearnOk(formula: seq<Clause>, clauses: seq<Clause>, s: Trail, ws: Watches, wb: Watches, cls: Clause)
    requires ConsistentOk(formula, clauses, s) && WatchedOk(clauses, ws) && BinWatchedOk(clauses, wb)
    requires GuardsOk(s, ws, |s.lits|) && GuardsOk(s, wb, |s.lits|)
    requires OneLeft(s, cls) && Entails(formula, LitSet(cls))
    ensures ConsistentOk(formula, clauses + [cls], Implying(s, cls[0], |clauses|))
    ensures |cls| > 2 ==> LearntLong(clauses, s, ws, wb, cls)
    ensures |cls| == 2 ==> LearntBin(clauses, s, ws, wb, cls)
  {
    var c := |clauses|;
    var t := Implying(s, cls[0], c);
    MoreConsistent(formula, clauses, s, cls);
    LearnForces(s, cls);
    assert (clauses + [cls])[c] == cls;
    ImpliedConsistent(formula, clauses + [cls], s, cls[0], c);
    if |cls| > 2 {
      AttachLong(clauses, ws, wb, cls);
      LearnGuards(s, t, ws, c, cls);
      GuardsImplied(s, t, wb, |s.lits|, cls[0]);
    } else {
      AttachBin(clauses, ws, wb, cls);
      LearnGuards(s, t, wb, c, cls);
      GuardsImplied(s, t, ws, |s.lits|, cls[0]);
    }
  }

  ghost predicate LearntLong(clauses: seq<Clause>, s: Trail, ws: Watches, wb: Watches, cls: Clause)
    requires |cls| > 1
  {
    var t := Implying(s, cls[0], |clauses|);
    && WatchedOk(clauses + [cls], Attached(ws, |clauses|, cls)) && BinWatchedOk(clauses + [cls], wb)
    && GuardsOk(t, Attached(ws, |clauses|, cls), |s.lits|) && GuardsOk(t, wb, |s.lits|)
  }

  ghost predicate LearntBin(clauses: seq<Clause>, s: Trail, ws: Watches, wb: Watches, cls: Clause)
    requires |cls| > 1
  {
    var t := Implying(s, cls[0], |clauses|);
    && WatchedOk(clauses + [cls], ws) && BinWatchedOk(clauses + [cls], Attached(wb, |clauses|, cls))
    && GuardsOk(t, ws, |s.lits|) && GuardsOk(t, Attached(wb, |clauses|, cls), |s.lits|)
  }

  /** Watched binary clauses follow from the formula. */
  lemma BinariesEntailed(formula: seq<Clause>, clauses: seq<Clause>, s: Trail, wb: Watches)
    requires ConsistentOk(formula, clauses, s) && BinWatchedOk(clauses, wb)
    ensures forall p | p in wb :: forall w | w in wb[p] :: Entails(formula, {p.Not(), w.blocker})
  {
    ConsistentIs(formula, clauses, s);
    BinWatchedIs(clauses, wb);
    forall p, w | p in wb && w in wb[p]
      ensures Entails(formula, {p.Not(), w.blocker})
    {
      var k :| 0 <= k < |wb[p]| && wb[p][k] == w;
      assert BinListOk(clauses, p, wb[p]);
      assert BinEntryOk(clauses, p, wb[p][k]);
    }
  }

  // ----- a larger formula -----

  lemma MoreEntails(formula: seq<Clause>, more: seq<Clause>, lits: set<Lit>)
    requires Entails(formula, lits)
    ensures Entails(formula + more, lits)
  {
    forall v | Models(v, formula + more)
      ensures Satisfies(v, lits)
    {
      ModelsLess(formula, more, v);
    }
  }

  lemma ModelsLess(formula: seq<Clause>, more: seq<Clause>, v: Valuation)
    requires Models(v, formula + more)
    ensures Models(v, formula) && Models(v, more)
  {
    assert forall cls | cls in formula :: cls in formula + more;
    assert forall cls | cls in more :: cls in formula + more;
  }

  /** What followed from the formula follows from a larger one. */
  lemma MoreFormula(formula: seq<Clause>, more: seq<Clause>, clauses: seq<Clause>, s: Trail)
    requires ConsistentOk(formula, clauses, s)
    ensures ConsistentOk(formula + more, clauses, s)
  {
    ConsistentIs(formula, clauses, s);
    forall c | 0 <= c < |clauses|
      ensures Entails(formula + more, LitSet(clauses[c])) && NoRepeats(clauses[c])
    {
      MoreEntails(formula, more, LitSet(clauses[c]));
    }
    forall i | 0 <= i < |s.lits|
      ensures Justified(formula + more, clauses, s, i)
    {
      assert Justified(formula, clauses, s, i);
      if Entails(formula, {s.lits[i]}) {
        MoreEntails(formula, more, {s.lits[i]});
      }
    }
    ConsistentIs(formula + more, clauses, s);
  }

  /** The solver covers one more clause when it has a part of it, or when a fact
      or two opposite literals satisfy it. */
  lemma CoversClause(formula: seq<Clause>, ps: Clause, clauses: seq<Clause>, facts: set<Lit>)
    requires Covers(formula, clauses, facts) && Covered(ps, clauses, facts)
    ensures Covers(formula + [ps], clauses, facts)
  {
    forall v: Valuation | Models(v, clauses) && (forall q | q in facts :: Holds(v, q))
      ensures Models(v, formula + [ps])
    {
      CoveredHolds(ps, clauses, facts, v);
    }
  }

  ghost predicate Covered(ps: Clause, clauses: seq<Clause>, facts: set<Lit>) {
    || (exists q :: q in ps && (q in facts || q.Not() in ps))
    || (exists cls :: cls in clauses && LitSet(cls) <= LitSet(ps))
  }

  lemma CoveredHolds(ps: Clause, clauses: seq<Clause>, facts: set<Lit>, v: Valuation)
    requires Covered(ps, clauses, facts) && Models(v, clauses) && forall q | q in facts :: Holds(v, q)
    ensures Satisfies(v, LitSet(ps))
  {
    if q :| q in ps && (q in facts || q.Not() in ps) {
      assert q in LitSet(ps);
      assert Holds(v, q) || Holds(v, q.Not());
      assert q.Not() in ps ==> q.Not() in LitSet(ps);
    } else {
      var cls :| cls in clauses && LitSet(cls) <= LitSet(ps);
      assert Satisfies(v, LitSet(cls));
      var r :| r in LitSet(cls) && Holds(v, r);
      assert r in LitSet(ps);
    }
  }

  /** A new clause of unassigned literals needs no guards. */
  lemma AttachGuards(s: Trail, ws: Watches, c: nat, cls: Clause, n: nat)
    requires GuardsOk(s, ws, n) && |cls| > 1 && cls[0] != cls[1] && s.IsFree(cls[0]) && s.IsFree(cls[1])
    ensures GuardsOk(s, Attached(ws, c, cls), n)
  {
    GuardsIs(s, ws, n);
    forall m | 0 <= m < n && m < |s.lits|
      ensures At(Attached(ws, c, cls), s.lits[m]) == At(ws, s.lits[m])
    {
      assert s.lits[m] in s.lits;
      AttachedAt(ws, c, cls, s.lits[m]);
    }
    SameGuards(s, ws, Attached(ws, c, cls), n);
    GuardsIs(s, Attached(ws, c, cls), n);
  }

  lemma LastLimBounded(formula: seq<Clause>, clauses: seq<Clause>, s: Trail)
    requires ConsistentOk(formula, clauses, s)
    ensures LastLim(s) <= |s.lits|
  {
    ConsistentIs(formula, clauses, s);
  }

  lemma KnownMore(clauses: seq<Clause>, s: Trail, vars: set<nat>, more: set<nat>)
    requires Known(clauses, s, vars) && vars <= more
    ensures Known(clauses, s, more)
  {
    forall c | 0 <= c < |clauses|
      ensures KnownClause(clauses[c], more)
    {
      assert KnownClause(clauses[c], vars);
    }
  }

  // ----- adding a clause -----

  /** At level 0 every assignment is a fact. */
  lemma AllFacts(s: Trail, q: Lit)
    requires Leveled(s) && s.lims == [] && q in s.lits
    ensures q in Facts(s)
  {
    var k :| 0 <= k < |s.lits| && s.lits[k] == q;
    assert s.level[s.lits[k].x] <= 0;
  }

  lemma PartKnown(whole: Clause, part: Clause, vars: set<nat>)
    requires LitSet(part) <= LitSet(whole) && KnownClause(whole, vars)
    ensures KnownClause(part, vars)
  {
    forall q | q in part
      ensures q.x in vars
    {
      assert q in LitSet(part);
      assert q in whole;
    }
  }

  lemma ClauseEntailed(formula: seq<Clause>, cls: Clause)
    requires cls in formula
    ensures Entails(formula, LitSet(cls))
  {
  }

  /** What is left of a new clause follows from the larger formula. */
  lemma RestEntailed(formula: seq<Clause>, clauses: seq<Clause>, s: Trail, ps: Clause, kept: Clause)
    requires ConsistentOk(formula, clauses, s) && s.lims == [] && ps in formula && LitSet(kept) <= LitSet(ps)
    requires forall q | q in ps && q !in kept :: q.Not() in s.lits
    ensures Entails(formula, LitSet(kept))
  {
    ConsistentIs(formula, clauses, s);
    forall q | q in LitSet(ps) - LitSet(kept)
      ensures Entails(formula, {q.Not()})
    {
      AllFacts(s, q.Not());
      var k :| 0 <= k < |s.lits| && s.lits[k] == q.Not();
      LevelZeroEntailed(formula, clauses, s, k);
    }
    ClauseEntailed(formula, ps);
    DropAll(formula, LitSet(ps), LitSet(ps) - LitSet(kept));
    assert LitSet(ps) - (LitSet(ps) - LitSet(kept)) == LitSet(kept);
  }
}
