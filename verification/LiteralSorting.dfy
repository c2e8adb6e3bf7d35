/** Which literals binary clauses refute, and how they are moved out of a learnt
    clause (src/sat/solvers/glucose/src/core/Solver.cc:614-653). */
module LiteralSorting {
  import opened Trails
  import opened FirstUip
  import opened ClauseMinimization

  /** The dropped literals are refuted by binary clauses with the first literal. */
  ghost predicate Refuted(formula: seq<Clause>, first: Lit, dropped: set<Lit>) {
    forall q | q in dropped :: Entails(formula, {first, q.Not()})
  }

  lemma RefutedDropped(formula: seq<Clause>, whole: set<Lit>, part: set<Lit>, first: Lit)
    requires Entails(formula, whole) && part <= whole && first in part
    requires Refuted(formula, first, whole - part)
    ensures Entails(formula, part)
  {
    forall v | Models(v, formula)
      ensures Satisfies(v, part)
    {
      assert Satisfies(v, whole);
      var y :| y in whole && Holds(v, y);
      if y in part {
      } else {
        assert y in whole - part;
        assert Satisfies(v, {first, y.Not()});
        assert Holds(v, first);
      }
    }
  }

  lemma FalseOneEach(lits: seq<Lit>, cls: Clause)
    requires DistinctVars(lits) && AllFalse(lits, LitSet(cls), |lits|) && NoRepeats(cls)
    ensures DistinctVars(cls)
  {
    forall i, j | 0 <= i < j < |cls|
      ensures cls[i].x != cls[j].x
    {
      assert cls[i] in LitSet(cls) && cls[j] in LitSet(cls);
      if cls[i].x == cls[j].x {
        FalseUnique(lits, cls[i], cls[j], |lits|);
      }
    }
  }

  lemma {:induction false} CountVars(cls: Clause)
    requires DistinctVars(cls)
    ensures |VarsOf(LitSet(cls))| == |cls|
  {
    if cls != [] {
      var last := |cls| - 1;
      CountVars(cls[..last]);
      assert cls == cls[..last] + [cls[last]];
      LastAdded(cls[..last], cls[last]);
      VarsOfMore(LitSet(cls[..last]), cls[last]);
      assert cls[last].x !in VarsOf(LitSet(cls[..last]));
    } else {
      assert VarsOf(LitSet(cls)) == {};
    }
  }

  lemma PartCount<T>(a: set<T>, b: set<T>)
    requires a <= b
    ensures |a| <= |b| && (|a| == |b| ==> a == b)
  {
    assert b == a + (b - a);
    assert |b| == |a| + |b - a|;
  }

  /** The clause is being sorted in place: what stays is before position i, what
      goes is behind position l. */
  ghost predicate Sorting(whole: Clause, cls: Clause, i: nat, l: nat, gone: set<nat>) {
    && 1 <= i <= |cls| == |whole| && l < |cls| && DistinctVars(cls)
    && cls[0] == whole[0] && LitSet(cls) == LitSet(whole) && LitSet(cls[1..]) == LitSet(whole[1..])
    && (forall k | 1 <= k < i :: cls[k].x !in gone)
    && (forall k | l < k < |cls| :: cls[k].x in gone)
  }

  /** The same, kept folded: the argument z does not matter. */
  ghost predicate SortingF(whole: Clause, cls: Clause, i: nat, l: nat, gone: set<nat>, z: nat)
    decreases z
  {
    if z == 0 then Sorting(whole, cls, i, l, gone) else SortingF(whole, cls, i, l, gone, z - 1)
  }

  ghost predicate SortingOk(whole: Clause, cls: Clause, i: nat, l: nat, gone: set<nat>) {
    SortingF(whole, cls, i, l, gone, |whole|)
  }

  lemma {:induction false} SortingIs(whole: Clause, cls: Clause, i: nat, l: nat, gone: set<nat>, z: nat)
    ensures SortingF(whole, cls, i, l, gone, z) <==> Sorting(whole, cls, i, l, gone)
    decreases z
  {
    if z > 0 {
      SortingIs(whole, cls, i, l, gone, z - 1);
    }
  }

  /** No more literals are behind position l than must go. */
  lemma RoomLeft(whole: Clause, cls: Clause, i: nat, l: nat, gone: set<nat>)
    requires Sorting(whole, cls, i, l, gone)
    ensures |cls| - 1 - l <= |gone|
    ensures i <= l && cls[i].x in gone ==> |cls| - l <= |gone|
  {
    var tail := cls[l + 1..];
    CountVars(tail);
    assert VarsOf(LitSet(tail)) <= gone;
    PartCount(VarsOf(LitSet(tail)), gone);
    if i <= l && cls[i].x in gone {
      var more := tail + [cls[i]];
      CountVars(more);
      assert VarsOf(LitSet(more)) <= gone;
      PartCount(VarsOf(LitSet(more)), gone);
    }
  }

  lemma SwapKeeps(whole: Clause, cls: Clause, i: nat, l: nat, gone: set<nat>)
    requires Sorting(whole, cls, i, l, gone) && i <= l && cls[i].x in gone
    ensures Sorting(whole, cls[l := cls[i]][i := cls[l]], i, l - 1, gone)
  {
    SwapSame(cls, i, l);
  }

  lemma SwapSame(cls: Clause, i: nat, l: nat)
    requires 1 <= i <= l < |cls| && DistinctVars(cls)
    ensures var next := cls[l := cls[i]][i := cls[l]];
      DistinctVars(next) && LitSet(next) == LitSet(cls) && LitSet(next[1..]) == LitSet(cls[1..])
  {
    var next := cls[l := cls[i]][i := cls[l]];
    SwapSet(cls, l, i);
    SwapSet(cls[1..], l - 1, i - 1);
    assert next == Swapped(cls, l, i) && next[1..] == Swapped(cls[1..], l - 1, i - 1);
  }

  /** The next literal is one that goes, and there is room for it behind, or it
      stays. */
  lemma SortNow(whole: Clause, cls: Clause, i: nat, l: nat, gone: set<nat>)
    requires Sorting(whole, cls, i, l, gone) && i < |cls| - |gone|
    ensures i <= l < |cls| && cls[i].x in VarsOf(LitSet(whole[1..]))
    ensures cls[i].x in gone ==> Sorting(whole, cls[l := cls[i]][i := cls[l]], i, l - 1, gone)
    ensures cls[i].x !in gone ==> Sorting(whole, cls, i + 1, l, gone)
  {
    RoomLeft(whole, cls, i, l, gone);
    assert cls[1..][i - 1] == cls[i];
    assert cls[i] in LitSet(cls[1..]);
    if cls[i].x in gone {
      SwapKeeps(whole, cls, i, l, gone);
    }
  }

  lemma SortNext(whole: Clause, cls: Clause, i: nat, l: nat, gone: set<nat>)
    requires SortingOk(whole, cls, i, l, gone) && i < |cls| - |gone|
    ensures 1 <= i <= l < |cls| && cls[i].x in VarsOf(LitSet(whole[1..]))
    ensures cls[i].x in gone ==> SortingOk(whole, cls[l := cls[i]][i := cls[l]], i, l - 1, gone)
    ensures cls[i].x !in gone ==> SortingOk(whole, cls, i + 1, l, gone)
  {
    SortingIs(whole, cls, i, l, gone, |whole|);
    SortNow(whole, cls, i, l, gone);
    SortingIs(whole, cls[l := cls[i]][i := cls[l]], i, l - 1, gone, |whole|);
    SortingIs(whole, cls, i + 1, l, gone, |whole|);
  }

  lemma SortStart(s: Trail, cls: Clause, gone: set<nat>)
    requires |cls| > 0 && DistinctVars(s.lits) && AllFalse(s.lits, LitSet(cls), |s.lits|) && NoRepeats(cls)
    requires gone <= VarsOf(LitSet(cls[1..]))
    ensures SortingOk(cls, cls, 1, |cls| - 1, gone) && |gone| <= |cls| - 1
  {
    FalseOneEach(s.lits, cls);
    CountVars(cls[1..]);
    PartCount(gone, VarsOf(LitSet(cls[1..])));
    SortingIs(cls, cls, 1, |cls| - 1, gone, |cls|);
  }

  /** The places behind position n hold exactly what goes. */
  lemma TailGone(cls: Clause, n: nat, gone: set<nat>)
    requires DistinctVars(cls) && 1 <= n <= |cls| && |gone| == |cls| - n
    requires gone <= VarsOf(LitSet(cls[1..])) && forall k | 1 <= k < n :: cls[k].x !in gone
    ensures VarsOf(LitSet(cls[n..])) == gone
  {
    var tail := cls[n..];
    CountVars(tail);
    forall x | x in gone
      ensures x in VarsOf(LitSet(tail))
    {
      var q :| q in LitSet(cls[1..]) && q.x == x;
      var k :| 0 <= k < |cls[1..]| && cls[1..][k] == q;
      assert cls[k + 1] == q && k + 1 >= n;
      assert tail[k + 1 - n] == q;
    }
    PartCount(gone, VarsOf(LitSet(tail)));
  }

  lemma FrontThinned(whole: Clause, cls: Clause, n: nat)
    requires 1 <= n <= |cls| == |whole| && DistinctVars(cls) && cls[0] == whole[0]
    requires LitSet(cls[1..]) == LitSet(whole[1..])
    ensures Thinned(whole, cls[..n])
  {
    forall k | 1 <= k < n
      ensures cls[k] in whole[1..]
    {
      assert cls[1..][k - 1] == cls[k];
      assert cls[k] in LitSet(cls[1..]);
    }
  }

  lemma FrontAndTail(cls: Clause, n: nat)
    requires 1 <= n <= |cls|
    ensures LitSet(cls) - LitSet(cls[..n]) <= LitSet(cls[n..]) * LitSet(cls[1..])
  {
    forall q | q in LitSet(cls) - LitSet(cls[..n])
      ensures q in LitSet(cls[n..]) && q in LitSet(cls[1..])
    {
      assert forall m | 0 <= m < n :: cls[..n][m] == cls[m];
      var k :| 0 <= k < |cls| && cls[k] == q;
      assert cls[n..][k - n] == q && cls[1..][k - 1] == q;
    }
  }

  /** When as many are left as stay, what is behind is what goes. */
  lemma SortedOut(whole: Clause, cls: Clause, n: nat, l: nat, gone: set<nat>)
    requires Sorting(whole, cls, n, l, gone) && gone <= VarsOf(LitSet(whole[1..])) && |gone| == |cls| - n
    ensures Thinned(whole, cls[..n])
    ensures VarsOf(LitSet(whole) - LitSet(cls[..n])) <= gone
    ensures LitSet(whole) - LitSet(cls[..n]) <= LitSet(whole[1..])
    ensures LitSet(cls[..n]) == {whole[0]} + set q | q in whole[1..] && q.x !in gone
  {
    TailGone(cls, n, gone);
    FrontThinned(whole, cls, n);
    FrontAndTail(cls, n);
    FrontIs(cls, n, gone);
    assert forall q :: q in LitSet(cls[1..]) <==> q in LitSet(whole[1..]);
  }

  /** What is in front is the first literal and what does not go. */
  lemma FrontIs(cls: Clause, n: nat, gone: set<nat>)
    requires DistinctVars(cls) && 1 <= n <= |cls| && VarsOf(LitSet(cls[n..])) == gone
    requires forall k | 1 <= k < n :: cls[k].x !in gone
    ensures LitSet(cls[..n]) == {cls[0]} + set q | q in LitSet(cls[1..]) && q.x !in gone
  {
    var rest := set q | q in LitSet(cls[1..]) && q.x !in gone;
    forall q | q in LitSet(cls[..n])
      ensures q in {cls[0]} + rest
    {
      var k :| 0 <= k < n && cls[..n][k] == q;
      assert k > 0 ==> cls[1..][k - 1] == q;
    }
    forall q | q in {cls[0]} + rest
      ensures q in LitSet(cls[..n])
    {
      assert cls[..n][0] == cls[0];
      if q in rest {
        var k :| 0 <= k < |cls[1..]| && cls[1..][k] == q;
        assert forall m | n <= m < |cls| :: cls[n..][m - n] == cls[m];
        assert cls[..n][k + 1] == q;
      }
    }
  }

  /** The literals of the clause with these variables are refuted by binary
      clauses with the first literal. */
  ghost predicate Refutable(formula: seq<Clause>, cls: Clause, gone: set<nat>)
    requires |cls| > 0
  {
    forall q | q in cls[1..] && q.x in gone :: Entails(formula, {cls[0], q.Not()})
  }

  lemma SortedKeeps(formula: seq<Clause>, s: Trail, whole: Clause, cls: Clause, n: nat, l: nat, gone: set<nat>)
    requires Asserting(formula, s, whole) && Refutable(formula, whole, gone)
    requires SortingOk(whole, cls, n, l, gone) && gone <= VarsOf(LitSet(whole[1..])) && |gone| == |cls| - n
    ensures 1 <= n <= |cls| && Asserting(formula, s, cls[..n]) && Thinned(whole, cls[..n])
    ensures LitSet(cls[..n]) == {whole[0]} + set q | q in whole[1..] && q.x !in gone
  {
    SortingIs(whole, cls, n, l, gone, |whole|);
    SortedOut(whole, cls, n, l, gone);
    ThinnedSubset(whole, cls[..n]);
    forall q | q in LitSet(whole) - LitSet(cls[..n])
      ensures Entails(formula, {whole[0], q.Not()})
    {
      assert q in LitSet(whole[1..]) && q.x in gone;
    }
    assert cls[..n][0] in cls[..n];
    RefutedDropped(formula, LitSet(whole), LitSet(cls[..n]), whole[0]);
    ThinnedAsserting(formula, s, whole, cls[..n]);
  }

  /** A true literal of a binary clause with the first literal refutes its
      negation. */
  lemma OneMoreRefutable(formula: seq<Clause>, s: Trail, cls: Clause, gone: set<nat>, imp: Lit)
    requires Asserting(formula, s, cls) && DistinctVars(s.lits) && Refutable(formula, cls, gone)
    requires s.IsTrue(imp) && Entails(formula, {cls[0], imp})
    ensures Refutable(formula, cls, gone + {imp.x})
  {
    forall q | q in cls[1..] && q.x in gone + {imp.x}
      ensures Entails(formula, {cls[0], q.Not()})
    {
      if q.x == imp.x {
        assert q in LitSet(cls);
        assert FalseBy(s.lits, q, |s.lits|);
        var k :| 0 <= k < |s.lits| && s.lits[k] == q.Not();
        var m :| 0 <= m < |s.lits| && s.lits[m] == imp;
        assert k == m;
      }
    }
  }

  /** The literal with the opposite of an assigned literal's sign. */
  lemma TrueOpposite(lits: seq<Lit>, cls: Clause, q: Lit, imp: Lit)
    requires |cls| > 0 && DistinctVars(lits) && AllFalse(lits, LitSet(cls), |lits|) && q in cls[1..]
    requires imp in lits && imp.x == q.x
    ensures imp == q.Not()
  {
    assert q in LitSet(cls);
    var k :| 0 <= k < |lits| && lits[k] == q.Not();
    var m :| 0 <= m < |lits| && lits[m] == imp;
    assert k == m;
  }

  /** The literals, but for the first, that no binary clause with the first
      literal refutes. */
  function BinaryStays(watchesBin: map<Lit, seq<Watcher>>, cls: Clause): set<Lit>
    requires |cls| > 0
  {
    set q | q in cls[1..] && !BinaryRefutes(watchesBin, cls[0].Not(), q.Not())
  }

  predicate BinaryRefutes(watchesBin: map<Lit, seq<Watcher>>, p: Lit, imp: Lit) {
    p in watchesBin && Blocks(watchesBin[p], imp)
  }

  predicate Blocks(ws: seq<Watcher>, imp: Lit) {
    exists k :: 0 <= k < |ws| && ws[k].blocker == imp
  }

  /** The marked variables are those that the watchers looked at so far do not
      refute. */
  predicate Unrefuted(cls: Clause, ws: seq<Watcher>, marked: set<nat>)
    requires |cls| > 0
  {
    forall q | q in cls[1..] :: q.x in marked <==> !Blocks(ws, q.Not())
  }

  lemma RefuteNext(lits: seq<Lit>, cls: Clause, ws: seq<Watcher>, marked: set<nat>, w: Watcher)
    requires |cls| > 0 && DistinctVars(lits) && AllFalse(lits, LitSet(cls), |lits|) && Unrefuted(cls, ws, marked)
    ensures w.blocker.x in marked && w.blocker in lits ==> Unrefuted(cls, ws + [w], marked - {w.blocker.x})
    ensures !(w.blocker.x in marked && w.blocker in lits) ==> Unrefuted(cls, ws + [w], marked)
  {
    forall q | q in cls[1..]
      ensures Blocks(ws + [w], q.Not()) <==> Blocks(ws, q.Not()) || w.blocker == q.Not()
      ensures w.blocker in lits && w.blocker.x == q.x <==> w.blocker == q.Not()
    {
      BlocksNext(ws, w, q.Not());
      assert q in LitSet(cls);
      assert FalseBy(lits, q, |lits|);
      if w.blocker in lits && w.blocker.x == q.x {
        TrueOpposite(lits, cls, q, w.blocker);
      }
    }
  }

  lemma BlocksNext(ws: seq<Watcher>, w: Watcher, imp: Lit)
    ensures Blocks(ws + [w], imp) <==> Blocks(ws, imp) || w.blocker == imp
  {
    if Blocks(ws, imp) {
      var k :| 0 <= k < |ws| && ws[k].blocker == imp;
      assert (ws + [w])[k].blocker == imp;
    }
    assert (ws + [w])[|ws|] == w;
  }

  function Levels(s: Trail, cls: Clause): set<nat> {
    set q | q in cls && q.x in s.level :: s.level[q.x]
  }

  lemma OneLess(all: set<nat>, marked: set<nat>, x: nat)
    requires x in marked && marked <= all
    ensures all - (marked - {x}) == (all - marked) + {x}
    ensures |all - (marked - {x})| == |all - marked| + 1
  {
  }

  /** What counting the refuted literals keeps. */
  ghost predicate Counting(formula: seq<Clause>, cls: Clause, ws: seq<Watcher>, marked: set<nat>, nb: nat)
    requires |cls| > 0
  {
    var all := VarsOf(LitSet(cls[1..]));
    marked <= all && nb == |all - marked| && Refutable(formula, cls, all - marked) && Unrefuted(cls, ws, marked)
  }

  /** The same, kept folded: the argument z does not matter. */
  ghost predicate CountingF(formula: seq<Clause>, cls: Clause, ws: seq<Watcher>, marked: set<nat>, nb: nat, z: nat)
    requires |cls| > 0
    decreases z
  {
    if z == 0 then Counting(formula, cls, ws, marked, nb) else CountingF(formula, cls, ws, marked, nb, z - 1)
  }

  ghost predicate CountingOk(formula: seq<Clause>, cls: Clause, ws: seq<Watcher>, marked: set<nat>, nb: nat)
    requires |cls| > 0
  {
    CountingF(formula, cls, ws, marked, nb, |ws|)
  }

  lemma {:induction false} CountingIs(formula: seq<Clause>, cls: Clause, ws: seq<Watcher>, marked: set<nat>, nb: nat, z: nat)
    requires |cls| > 0
    ensures CountingF(formula, cls, ws, marked, nb, z) <==> Counting(formula, cls, ws, marked, nb)
    decreases z
  {
    if z > 0 {
      CountingIs(formula, cls, ws, marked, nb, z - 1);
    }
  }

  lemma CountNow(formula: seq<Clause>, s: Trail, cls: Clause, ws: seq<Watcher>, marked: set<nat>, nb: nat, w: Watcher)
    requires DistinctVars(s.lits) && Asserting(formula, s, cls) && Counting(formula, cls, ws, marked, nb)
    requires Entails(formula, {cls[0].Not().Not(), w.blocker})
    ensures var imp := w.blocker;
      if imp.x in marked && s.IsTrue(imp) then Counting(formula, cls, ws + [w], marked - {imp.x}, nb + 1)
      else Counting(formula, cls, ws + [w], marked, nb)
  {
    var imp := w.blocker;
    var all := VarsOf(LitSet(cls[1..]));
    RefuteNext(s.lits, cls, ws, marked, w);
    if imp.x in marked && s.IsTrue(imp) {
      OneMoreRefutable(formula, s, cls, all - marked, imp);
      OneLess(all, marked, imp.x);
    }
  }

  lemma CountFold(formula: seq<Clause>, cls: Clause, ws: seq<Watcher>, marked: set<nat>, nb: nat)
    requires |cls| > 0 && Counting(formula, cls, ws, marked, nb)
    ensures CountingOk(formula, cls, ws, marked, nb)
  {
    CountingIs(formula, cls, ws, marked, nb, |ws|);
  }

  lemma CountNext(formula: seq<Clause>, s: Trail, cls: Clause, ws: seq<Watcher>, marked: set<nat>, nb: nat, w: Watcher)
    requires DistinctVars(s.lits) && Asserting(formula, s, cls) && CountingOk(formula, cls, ws, marked, nb)
    requires Entails(formula, {cls[0].Not().Not(), w.blocker})
    ensures w.blocker.x in marked && s.IsTrue(w.blocker) ==>
      CountingOk(formula, cls, ws + [w], marked - {w.blocker.x}, nb + 1)
    ensures !(w.blocker.x in marked && s.IsTrue(w.blocker)) ==> CountingOk(formula, cls, ws + [w], marked, nb)
  {
    CountingIs(formula, cls, ws, marked, nb, |ws|);
    CountNow(formula, s, cls, ws, marked, nb, w);
    if w.blocker.x in marked && s.IsTrue(w.blocker) {
      CountFold(formula, cls, ws + [w], marked - {w.blocker.x}, nb + 1);
    } else {
      CountFold(formula, cls, ws + [w], marked, nb);
    }
  }

  lemma CountStart(formula: seq<Clause>, cls: Clause)
    requires |cls| > 0
    ensures CountingOk(formula, cls, [], VarsOf(LitSet(cls[1..])), 0)
  {
    assert forall q | q in cls[1..] :: q in LitSet(cls[1..]);
    assert VarsOf(LitSet(cls[1..])) - VarsOf(LitSet(cls[1..])) == {};
  }

  function MarkedOnes(cls: Clause, marked: set<nat>): set<Lit>
    requires |cls| > 0
  {
    set q | q in cls[1..] && q.x in marked
  }

  /** In the end the marked literals are those without a refuting clause. */
  lemma CountDone(formula: seq<Clause>, cls: Clause, watchesBin: map<Lit, seq<Watcher>>, ws: seq<Watcher>, marked: set<nat>,
                  nb: nat)
    requires |cls| > 0 && CountingOk(formula, cls, ws, marked, nb)
    requires ws == if cls[0].Not() in watchesBin then watchesBin[cls[0].Not()] else []
    ensures BinaryStays(watchesBin, cls) == MarkedOnes(cls, marked)
    ensures marked <= VarsOf(LitSet(cls[1..])) && nb == |VarsOf(LitSet(cls[1..])) - marked|
    ensures Refutable(formula, cls, VarsOf(LitSet(cls[1..])) - marked)
  {
    CountingIs(formula, cls, ws, marked, nb, |ws|);
    forall q | q in cls[1..]
      ensures BinaryRefutes(watchesBin, cls[0].Not(), q.Not()) <==> Blocks(ws, q.Not())
    {
    }
  }

  lemma MarkedStay(cls: Clause, marked: set<nat>)
    requires |cls| > 0
    ensures var gone := VarsOf(LitSet(cls[1..])) - marked;
      MarkedOnes(cls, marked) == set q | q in cls[1..] && q.x !in gone
  {
    assert forall q | q in cls[1..] :: q in LitSet(cls[1..]);
  }
}
