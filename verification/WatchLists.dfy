/** Two-watched-literal propagation: what the watch lists promise
    (src/sat/solvers/glucose/src/core/Solver.cc:463-477, 658-672, 1005-1152). */
module WatchLists {
  import opened Trails

  type Watches = map<Lit, seq<Watcher>>

  /** The clauses to look at when the literal becomes true. */
  function At(ws: Watches, q: Lit): seq<Watcher> {
    if q in ws then ws[q] else []
  }

  /** The clause is a longer one that watches the negation of the literal with
      its first or second literal, and the blocker is another of its literals. */
  predicate WatchesWith(cls: Clause, q: Lit, blocker: Lit) {
    |cls| > 2 && (cls[0] == q.Not() || cls[1] == q.Not()) && blocker in cls && blocker != q.Not()
  }

  predicate EntryOk(clauses: seq<Clause>, q: Lit, w: Watcher) {
    w.cref < |clauses| && WatchesWith(clauses[w.cref], q, w.blocker)
  }

  predicate OncePerClause(l: seq<Watcher>) {
    forall i, j | 0 <= i < j < |l| :: l[i].cref != l[j].cref
  }

  predicate ListOk(clauses: seq<Clause>, q: Lit, l: seq<Watcher>) {
    OncePerClause(l) && forall k | 0 <= k < |l| :: EntryOk(clauses, q, l[k])
  }

  predicate Has(l: seq<Watcher>, c: nat) {
    exists k :: 0 <= k < |l| && l[k].cref == c
  }

  /** The clause, when it is a longer one, is in the lists of its first two
      literals. */
  predicate Listed(ws: Watches, cls: Clause, c: nat) {
    |cls| > 2 ==> Has(At(ws, cls[0].Not()), c) && Has(At(ws, cls[1].Not()), c)
  }

  ghost predicate ListsOk(clauses: seq<Clause>, ws: Watches) {
    forall q | q in ws :: ListOk(clauses, q, ws[q])
  }

  ghost predicate AllListed(clauses: seq<Clause>, ws: Watches) {
    forall c | 0 <= c < |clauses| :: Listed(ws, clauses[c], c)
  }

  ghost predicate Watched(clauses: seq<Clause>, ws: Watches) {
    ListsOk(clauses, ws) && AllListed(clauses, ws)
  }

  predicate BinEntryOk(clauses: seq<Clause>, q: Lit, w: Watcher) {
    && w.cref < |clauses| && |clauses[w.cref]| == 2 && LitSet(clauses[w.cref]) == {q.Not(), w.blocker}
    && w.blocker != q.Not()
  }

  predicate BinListOk(clauses: seq<Clause>, q: Lit, l: seq<Watcher>) {
    forall k | 0 <= k < |l| :: BinEntryOk(clauses, q, l[k])
  }

  predicate BinListed(wb: Watches, cls: Clause, c: nat) {
    |cls| == 2 ==> Has(At(wb, cls[0].Not()), c) && Has(At(wb, cls[1].Not()), c)
  }

  /** The same for binary clauses; the blocker is the other literal. */
  ghost predicate BinWatched(clauses: seq<Clause>, wb: Watches) {
    && (forall q | q in wb :: BinListOk(clauses, q, wb[q]))
    && forall c | 0 <= c < |clauses| :: BinListed(wb, clauses[c], c)
  }

  /** The blocker is true, and has been since the level of the literal. */
  ghost predicate Guarded(s: Trail, q: Lit, w: Watcher)
    requires q.x in s.level
  {
    w.blocker in s.lits && w.blocker.x in s.level && s.level[w.blocker.x] <= s.level[q.x]
  }

  /** The watchers of the literals before position n are guarded. */
  ghost predicate GuardedTo(s: Trail, ws: Watches, n: nat)
    requires Leveled(s)
  {
    forall m | 0 <= m < n && m < |s.lits| :: forall k | 0 <= k < |At(ws, s.lits[m])| ::
      Guarded(s, s.lits[m], At(ws, s.lits[m])[k])
  }

  // ----- assignments -----

  /** The trail after an implied assignment at the current level. */
  function Implying(s: Trail, p: Lit, c: nat): Trail {
    s.(lits := s.lits + [p], level := s.level[p.x := |s.lims|], reason := s.reason[p.x := c])
  }

  /** The trail after an assignment without a reason. */
  function Stating(s: Trail, p: Lit): Trail {
    s.(lits := s.lits + [p], level := s.level[p.x := |s.lims|], reason := s.reason - {p.x})
  }

  /** All literals of the clause but this one are false. */
  ghost predicate Forces(s: Trail, cls: Clause, p: Lit) {
    && p in cls && |cls| > 1 && (|cls| > 2 ==> cls[0] == p)
    && forall q | q in cls && q != p :: q.Not() in s.lits
  }

  lemma FreeApart(lits: seq<Lit>, p: Lit)
    requires p !in lits && p.Not() !in lits
    ensures forall i | 0 <= i < |lits| :: lits[i].x != p.x
  {
    forall i | 0 <= i < |lits|
      ensures lits[i].x != p.x
    {
      assert lits[i] in lits;
      assert lits[i] == p || lits[i] == p.Not() || lits[i].x != p.x;
    }
  }

  lemma StillFalse(lits: seq<Lit>, p: Lit, qs: set<Lit>, i: nat)
    requires AllFalse(lits, qs, i)
    ensures AllFalse(lits + [p], qs, i)
  {
    forall q | q in qs
      ensures FalseBy(lits + [p], q, i)
    {
      var k :| 0 <= k < i && k < |lits| && lits[k] == q.Not();
      assert (lits + [p])[k] == q.Not();
    }
  }

  /** What the reasons of earlier assignments say is not changed by one more. */
  lemma StillJustified(formula: seq<Clause>, clauses: seq<Clause>, s: Trail, t: Trail, p: Lit, i: nat)
    requires Leveled(s) && Leveled(t) && i < |s.lits| && Justified(formula, clauses, s, i)
    requires t.lits == s.lits + [p] && t.lims == s.lims && s.lits[i].x != p.x
    requires s.lits[i].x in t.level && t.level[s.lits[i].x] == s.level[s.lits[i].x]
    requires s.lits[i].x in t.reason <==> s.lits[i].x in s.reason
    requires s.lits[i].x in s.reason ==> t.reason[s.lits[i].x] == s.reason[s.lits[i].x]
    ensures Justified(formula, clauses, t, i)
  {
    var x := s.lits[i].x;
    assert t.lits[i] == s.lits[i];
    if x in s.reason {
      StillFalse(s.lits, p, LitSet(clauses[s.reason[x]]) - {s.lits[i]}, i);
    }
  }

  lemma OneMoreLeveled(s: Trail, t: Trail, p: Lit)
    requires Leveled(s) && DistinctVars(s.lits) && s.IsFree(p)
    requires t.lits == s.lits + [p] && t.lims == s.lims && t.level == s.level[p.x := |s.lims|]
    ensures Leveled(t) && DistinctVars(t.lits)
  {
    FreeApart(s.lits, p);
    forall i | 0 <= i < |t.lits|
      ensures t.lits[i].x in t.level && t.level[t.lits[i].x] <= |t.lims|
      ensures i < |s.lits| ==> t.lits[i] == s.lits[i] && t.level[t.lits[i].x] == s.level[s.lits[i].x]
    {
    }
  }

  /** An implied assignment keeps the trail consistent. */
  lemma ImplyKeeps(formula: seq<Clause>, clauses: seq<Clause>, s: Trail, p: Lit, c: nat)
    requires Consistent(formula, clauses, s) && s.IsFree(p) && c < |clauses| && Forces(s, clauses[c], p)
    ensures Consistent(formula, clauses, Implying(s, p, c))
  {
    var t := Implying(s, p, c);
    OneMoreLeveled(s, t, p);
    FreeApart(s.lits, p);
    forall i | 0 <= i < |t.lits|
      ensures Justified(formula, clauses, t, i)
    {
      if i < |s.lits| {
        assert Justified(formula, clauses, s, i);
        StillJustified(formula, clauses, s, t, p, i);
      } else {
        ForcedExplains(s, clauses[c], p);
      }
    }
  }

  lemma ForcedExplains(s: Trail, cls: Clause, p: Lit)
    requires Forces(s, cls, p)
    ensures Explains(s.lits + [p], |s.lits|, cls)
  {
    var lits := s.lits + [p];
    forall q | q in LitSet(cls) - {p}
      ensures FalseBy(lits, q, |s.lits|)
    {
      var k :| 0 <= k < |s.lits| && s.lits[k] == q.Not();
      assert lits[k] == q.Not();
    }
  }

  /** So does a fact at level 0, or the first assignment of a level. */
  lemma StateKeeps(formula: seq<Clause>, clauses: seq<Clause>, s: Trail, p: Lit)
    requires Consistent(formula, clauses, s) && s.IsFree(p)
    requires if s.lims == [] then Entails(formula, {p}) else s.lims[|s.lims| - 1] == |s.lits|
    ensures Consistent(formula, clauses, Stating(s, p))
  {
    var t := Stating(s, p);
    OneMoreLeveled(s, t, p);
    FreeApart(s.lits, p);
    forall i | 0 <= i < |t.lits|
      ensures Justified(formula, clauses, t, i)
    {
      if i < |s.lits| {
        assert Justified(formula, clauses, s, i);
        StillJustified(formula, clauses, s, t, p, i);
      }
    }
  }

  /** Guards stay when assignments are added. */
  lemma GuardsStay(s: Trail, t: Trail, ws: Watches, n: nat)
    requires Leveled(s) && Leveled(t) && n <= |s.lits| && GuardedTo(s, ws, n)
    requires s.lits <= t.lits
    requires forall i | 0 <= i < |s.lits| :: t.level[t.lits[i].x] == s.level[s.lits[i].x]
    ensures GuardedTo(t, ws, n)
  {
    forall m, k | 0 <= m < n && 0 <= k < |At(ws, t.lits[m])|
      ensures Guarded(t, t.lits[m], At(ws, t.lits[m])[k])
    {
      assert s.lits[m] == t.lits[m];
      assert Guarded(s, s.lits[m], At(ws, s.lits[m])[k]);
      GuardStays(s, t, s.lits[m], At(ws, s.lits[m])[k]);
    }
  }

  lemma GuardStays(s: Trail, t: Trail, q: Lit, w: Watcher)
    requires Leveled(s) && Leveled(t) && s.lits <= t.lits && q in s.lits && q.x in s.level && Guarded(s, q, w)
    requires forall i | 0 <= i < |s.lits| :: t.level[t.lits[i].x] == s.level[s.lits[i].x]
    ensures q.x in t.level && Guarded(t, q, w)
  {
    var m :| 0 <= m < |s.lits| && s.lits[m] == q;
    var b :| 0 <= b < |s.lits| && s.lits[b] == w.blocker;
    assert t.lits[m] == q && t.lits[b] == w.blocker;
  }

  /** The levels of earlier assignments do not change. */
  lemma LevelsStay(s: Trail, t: Trail, p: Lit)
    requires Leveled(s) && s.IsFree(p) && t.lits == s.lits + [p] && t.level == s.level[p.x := |s.lims|]
    ensures forall i | 0 <= i < |s.lits| :: t.lits[i] == s.lits[i] && t.level[t.lits[i].x] == s.level[s.lits[i].x]
  {
    FreeApart(s.lits, p);
  }

  // ----- changing the order of a clause -----

  /** The clause in another order, with its first literal in place when it is a
      reason. */
  ghost predicate Reordered(clauses: seq<Clause>, s: Trail, c: nat, cls: Clause) {
    && c < |clauses| && |cls| == |clauses[c]| && LitSet(cls) == LitSet(clauses[c]) && NoRepeats(cls)
    && (|cls| > 2 && cls[0] != clauses[c][0] ==> clauses[c][0] !in s.lits)
  }

  lemma ReorderKeeps(formula: seq<Clause>, clauses: seq<Clause>, s: Trail, c: nat, cls: Clause)
    requires Consistent(formula, clauses, s) && Reordered(clauses, s, c, cls)
    ensures Consistent(formula, clauses[c := cls], s)
  {
    var next := clauses[c := cls];
    forall d | 0 <= d < |next|
      ensures Entails(formula, LitSet(next[d])) && NoRepeats(next[d])
    {
      assert Entails(formula, LitSet(clauses[d])) && NoRepeats(clauses[d]);
    }
    forall i | 0 <= i < |s.lits|
      ensures Justified(formula, next, s, i)
    {
      assert Justified(formula, clauses, s, i);
      if s.lits[i].x in s.reason && s.reason[s.lits[i].x] == c {
        assert s.lits[i] in LitSet(clauses[c]);
        assert s.lits[i] in LitSet(cls);
        assert s.lits[i] in s.lits;
      }
    }
  }

  // ----- what propagation achieves -----

  /** The clause has a true literal or two that are not false. */
  ghost predicate Settled(s: Trail, cls: Clause) {
    || (exists q :: q in cls && q in s.lits)
    || (exists i, j :: 0 <= i < j < |cls| && cls[i].Not() !in s.lits && cls[j].Not() !in s.lits)
  }

  lemma LongSettled(clauses: seq<Clause>, s: Trail, ws: Watches, c: nat)
    requires Leveled(s) && Watched(clauses, ws) && GuardedTo(s, ws, |s.lits|)
    requires c < |clauses| && |clauses[c]| > 2
    ensures Settled(s, clauses[c])
  {
    var cls := clauses[c];
    assert Listed(ws, cls, c);
    if cls[0].Not() in s.lits {
      WatchGuards(clauses, s, ws, c, cls[0]);
    } else if cls[1].Not() in s.lits {
      WatchGuards(clauses, s, ws, c, cls[1]);
    } else {
      assert 0 <= 0 < 1 < |cls|;
    }
  }

  lemma WatchGuards(clauses: seq<Clause>, s: Trail, ws: Watches, c: nat, q: Lit)
    requires Leveled(s) && Watched(clauses, ws) && GuardedTo(s, ws, |s.lits|)
    requires c < |clauses| && |clauses[c]| > 2 && q.Not() in s.lits && Has(At(ws, q.Not()), c)
    ensures exists r :: r in clauses[c] && r in s.lits
  {
    var l := At(ws, q.Not());
    var k :| 0 <= k < |l| && l[k].cref == c;
    var m :| 0 <= m < |s.lits| && s.lits[m] == q.Not();
    assert Guarded(s, s.lits[m], At(ws, s.lits[m])[k]);
    assert q.Not() in ws && ListOk(clauses, q.Not(), ws[q.Not()]);
    assert EntryOk(clauses, q.Not(), l[k]);
  }

  lemma BinSettled(clauses: seq<Clause>, s: Trail, wb: Watches, c: nat)
    requires Leveled(s) && BinWatched(clauses, wb) && GuardedTo(s, wb, |s.lits|)
    requires c < |clauses| && |clauses[c]| == 2
    ensures Settled(s, clauses[c])
  {
    var cls := clauses[c];
    assert BinListed(wb, cls, c);
    if cls[0].Not() in s.lits {
      BinGuards(clauses, s, wb, c, cls[0]);
    } else if cls[1].Not() in s.lits {
      BinGuards(clauses, s, wb, c, cls[1]);
    } else {
      assert 0 <= 0 < 1 < |cls|;
    }
  }

  lemma BinGuards(clauses: seq<Clause>, s: Trail, wb: Watches, c: nat, q: Lit)
    requires Leveled(s) && BinWatched(clauses, wb) && GuardedTo(s, wb, |s.lits|)
    requires c < |clauses| && |clauses[c]| == 2 && q.Not() in s.lits && Has(At(wb, q.Not()), c)
    ensures exists r :: r in clauses[c] && r in s.lits
  {
    var l := At(wb, q.Not());
    var k :| 0 <= k < |l| && l[k].cref == c;
    var m :| 0 <= m < |s.lits| && s.lits[m] == q.Not();
    assert Guarded(s, s.lits[m], At(wb, s.lits[m])[k]);
    assert q.Not() in wb && BinListOk(clauses, q.Not(), wb[q.Not()]);
    assert BinEntryOk(clauses, q.Not(), l[k]);
    assert l[k].blocker in LitSet(clauses[c]);
  }

  // ----- going back -----

  function Backtracked(s: Trail, level: nat): Trail
    requires level < |s.lims| && s.lims[level] <= |s.lits|
  {
    s.(lits := s.lits[..s.lims[level]], lims := s.lims[..level])
  }

  lemma BackLeveled(s: Trail, level: nat)
    requires Leveled(s) && DistinctVars(s.lits) && level < |s.lims|
    ensures Leveled(Backtracked(s, level)) && DistinctVars(Backtracked(s, level).lits)
    ensures forall i | 0 <= i < s.lims[level] :: s.level[s.lits[i].x] <= level
  {
    var t := Backtracked(s, level);
    forall i | 0 <= i < |t.lits|
      ensures t.lits[i].x in t.level && t.level[t.lits[i].x] <= level
    {
      assert t.lits[i] == s.lits[i];
      assert s.lims[level] <= i <==> level < s.level[s.lits[i].x];
    }
    forall k | 0 <= k < level
      ensures s.lims[k] <= s.lims[level]
    {
      LimsOrdered(s, k, level);
    }
  }

  lemma LimsOrdered(s: Trail, k: nat, l: nat)
    requires Leveled(s) && k <= l < |s.lims|
    ensures s.lims[k] <= s.lims[l]
  {
    var i := s.lims[l];
    if i < |s.lits| {
      assert s.lims[l] <= i <==> l < s.level[s.lits[i].x];
      assert s.lims[k] <= i <==> k < s.level[s.lits[i].x];
    }
  }

  /** Going back to an earlier level keeps the trail consistent. */
  lemma BackKeeps(formula: seq<Clause>, clauses: seq<Clause>, s: Trail, level: nat)
    requires Consistent(formula, clauses, s) && level < |s.lims|
    ensures Consistent(formula, clauses, Backtracked(s, level))
  {
    var t := Backtracked(s, level);
    BackLeveled(s, level);
    forall i | 0 <= i < |t.lits|
      ensures Justified(formula, clauses, t, i)
    {
      assert Justified(formula, clauses, s, i) && t.lits[i] == s.lits[i];
      if s.lits[i].x in s.reason {
        BackExplains(s, level, i, clauses[s.reason[s.lits[i].x]]);
      }
    }
  }

  lemma BackExplains(s: Trail, level: nat, i: nat, cls: Clause)
    requires level < |s.lims| && i < s.lims[level] <= |s.lits| && Explains(s.lits, i, cls)
    ensures Explains(Backtracked(s, level).lits, i, cls)
  {
    var lits := Backtracked(s, level).lits;
    forall q | q in LitSet(cls) - {lits[i]}
      ensures FalseBy(lits, q, i)
    {
      assert FalseBy(s.lits, q, i);
      var k :| 0 <= k < i && k < |s.lits| && s.lits[k] == q.Not();
      assert lits[k] == q.Not();
    }
  }

  /** The guards of the kept literals are kept. */
  lemma BackGuards(s: Trail, ws: Watches, level: nat, n: nat)
    requires Leveled(s) && DistinctVars(s.lits) && level < |s.lims| && s.lims[level] <= n && GuardedTo(s, ws, n)
    ensures Leveled(Backtracked(s, level))
    ensures GuardedTo(Backtracked(s, level), ws, s.lims[level])
  {
    var t := Backtracked(s, level);
    BackLeveled(s, level);
    forall m, k | 0 <= m < |t.lits| && 0 <= k < |At(ws, t.lits[m])|
      ensures Guarded(t, t.lits[m], At(ws, t.lits[m])[k])
    {
      assert t.lits[m] == s.lits[m];
      assert Guarded(s, s.lits[m], At(ws, s.lits[m])[k]);
      EarlyStays(s, level, At(ws, s.lits[m])[k].blocker);
    }
  }

  lemma EarlyStays(s: Trail, level: nat, q: Lit)
    requires Leveled(s) && level < |s.lims| && q in s.lits && q.x in s.level && s.level[q.x] <= level
    ensures q in Backtracked(s, level).lits
  {
    var k :| 0 <= k < |s.lits| && s.lits[k] == q;
    assert s.lims[level] <= k <==> level < s.level[s.lits[k].x];
    assert Backtracked(s, level).lits[k] == q;
  }

  lemma LateGone(s: Trail, level: nat, q: Lit)
    requires Leveled(s) && DistinctVars(s.lits) && level < |s.lims| && q in s.lits && q.x in s.level && s.level[q.x] > level
    ensures Backtracked(s, level).IsFree(q)
  {
    var k :| 0 <= k < |s.lits| && s.lits[k] == q;
    assert s.lims[level] <= k <==> level < s.level[s.lits[k].x];
    var t := Backtracked(s, level);
    forall i | 0 <= i < |t.lits|
      ensures t.lits[i].x != q.x
    {
      assert t.lits[i] == s.lits[i] && s.lits[i].x != s.lits[k].x;
    }
  }

  // ----- folded forms: the argument z does not matter -----

  ghost predicate WatchedF(clauses: seq<Clause>, ws: Watches, z: nat)
    decreases z
  {
    if z == 0 then Watched(clauses, ws) else WatchedF(clauses, ws, z - 1)
  }

  ghost predicate WatchedOk(clauses: seq<Clause>, ws: Watches) {
    WatchedF(clauses, ws, |clauses|)
  }

  lemma {:induction false} WatchedFIs(clauses: seq<Clause>, ws: Watches, z: nat)
    ensures WatchedF(clauses, ws, z) <==> Watched(clauses, ws)
    decreases z
  {
    if z > 0 {
      WatchedFIs(clauses, ws, z - 1);
    }
  }

  lemma WatchedIs(clauses: seq<Clause>, ws: Watches)
    ensures WatchedOk(clauses, ws) <==> Watched(clauses, ws)
  {
    WatchedFIs(clauses, ws, |clauses|);
  }

  ghost predicate BinWatchedF(clauses: seq<Clause>, wb: Watches, z: nat)
    decreases z
  {
    if z == 0 then BinWatched(clauses, wb) else BinWatchedF(clauses, wb, z - 1)
  }

  ghost predicate BinWatchedOk(clauses: seq<Clause>, wb: Watches) {
    BinWatchedF(clauses, wb, |clauses|)
  }

  lemma {:induction false} BinWatchedFIs(clauses: seq<Clause>, wb: Watches, z: nat)
    ensures BinWatchedF(clauses, wb, z) <==> BinWatched(clauses, wb)
    decreases z
  {
    if z > 0 {
      BinWatchedFIs(clauses, wb, z - 1);
    }
  }

  lemma BinWatchedIs(clauses: seq<Clause>, wb: Watches)
    ensures BinWatchedOk(clauses, wb) <==> BinWatched(clauses, wb)
  {
    BinWatchedFIs(clauses, wb, |clauses|);
  }

  ghost predicate GuardsF(s: Trail, ws: Watches, n: nat, z: nat)
    decreases z
  {
    if z == 0 then Leveled(s) && GuardedTo(s, ws, n) else GuardsF(s, ws, n, z - 1)
  }

  ghost predicate GuardsOk(s: Trail, ws: Watches, n: nat) {
    GuardsF(s, ws, n, |s.lits|)
  }

  lemma {:induction false} GuardsFIs(s: Trail, ws: Watches, n: nat, z: nat)
    ensures GuardsF(s, ws, n, z) <==> Leveled(s) && GuardedTo(s, ws, n)
    decreases z
  {
    if z > 0 {
      GuardsFIs(s, ws, n, z - 1);
    }
  }

  lemma GuardsIs(s: Trail, ws: Watches, n: nat)
    ensures GuardsOk(s, ws, n) <==> Leveled(s) && GuardedTo(s, ws, n)
  {
    GuardsFIs(s, ws, n, |s.lits|);
  }
}
