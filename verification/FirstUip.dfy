/** What conflict analysis has in hand while it resolves backwards along the
    trail (src/sat/solvers/glucose/src/core/Solver.cc:735-837). */
module FirstUip {
  import opened Trails

  /** Low are the literals of lower levels, cur those of the current level, and
      rest those of the clause at hand still to be looked at. Everything is
      false before position bound. */
  datatype Work = Work(low: seq<Lit>, cur: set<Lit>, rest: set<Lit>, seen: set<nat>, pathC: nat, bound: nat)
  {
    function Taken(): set<Lit> {
      LitSet(low) + cur
    }

    function Lits(): set<Lit> {
      Taken() + rest
    }
  }

  function VarsOf(lits: set<Lit>): set<nat> {
    set q | q in lits :: q.x
  }

  /** The literals above level 0. */
  function AboveZero(s: Trail, lits: set<Lit>): set<Lit> {
    set q | q in lits && q.x in s.level && s.level[q.x] > 0
  }

  /** The marks and the counter say what was taken. */
  ghost predicate Marked(w: Work) {
    w.seen == VarsOf(w.Taken()) && w.pathC == |w.cur|
  }

  ghost predicate LowOk(s: Trail, low: seq<Lit>) {
    && NoRepeats(low)
    && forall q | q in low :: q.x in s.level && 0 < s.level[q.x] < |s.lims|
  }

  ghost predicate CurOk(s: Trail, cur: set<Lit>) {
    forall q | q in cur :: q.x in s.level && s.level[q.x] == |s.lims|
  }

  ghost predicate Learning(formula: seq<Clause>, s: Trail, w: Work) {
    && Entails(formula, w.Lits()) && AllFalse(s.lits, w.Lits(), w.bound)
    && Marked(w) && LowOk(s, w.low) && CurOk(s, w.cur)
  }

  /** The same, kept folded: the argument n does not matter. */
  ghost predicate Folded(formula: seq<Clause>, s: Trail, w: Work, n: nat)
    decreases n
  {
    if n == 0 then Learning(formula, s, w) else Folded(formula, s, w, n - 1)
  }

  ghost predicate LearningOk(formula: seq<Clause>, s: Trail, w: Work) {
    Folded(formula, s, w, w.bound)
  }

  lemma {:induction false} Unfold(formula: seq<Clause>, s: Trail, w: Work, n: nat)
    ensures Folded(formula, s, w, n) <==> Learning(formula, s, w)
    decreases n
  {
    if n > 0 {
      Unfold(formula, s, w, n - 1);
    }
  }

  lemma LearningOkIs(formula: seq<Clause>, s: Trail, w: Work)
    ensures LearningOk(formula, s, w) <==> Learning(formula, s, w)
  {
    Unfold(formula, s, w, w.bound);
  }

  // ----- sets -----

  lemma NewVariable(lits: set<Lit>, q: Lit)
    requires q.x !in VarsOf(lits)
    ensures q !in lits
    ensures VarsOf(lits + {q}) == VarsOf(lits) + {q.x}
  {
  }

  lemma VarsOfMore(lits: set<Lit>, q: Lit)
    ensures VarsOf(lits + {q}) == VarsOf(lits) + {q.x}
  {
    assert q in lits + {q};
    assert forall r | r in lits :: r in lits + {q};
  }

  lemma VarsOfConcat(a: seq<Lit>, b: seq<Lit>)
    ensures VarsOf(LitSet(a + b)) == VarsOf(LitSet(a)) + VarsOf(LitSet(b))
  {
    assert LitSet(a + b) == LitSet(a) + LitSet(b);
  }

  lemma Regroup(a: set<Lit>, b: set<Lit>, c: set<Lit>, q: Lit)
    requires q in c
    ensures a + (b + {q}) == (a + b) + {q} && (a + {q}) + b == (a + b) + {q}
    ensures (a + b) + {q} + (c - {q}) == a + b + c
  {
  }

  lemma Remove(a: set<Lit>, c: set<Lit>, q: Lit)
    ensures q in a ==> a + (c - {q}) == a + c
    ensures q !in a ==> a + (c - {q}) == (a + c) - {q}
  {
  }

  lemma LowGrows(low: seq<Lit>, q: Lit)
    requires q !in LitSet(low)
    ensures LitSet(low + [q]) == LitSet(low) + {q}
    ensures NoRepeats(low) ==> NoRepeats(low + [q])
  {
    assert q !in low;
  }

  lemma StartLearning(formula: seq<Clause>, clauses: seq<Clause>, s: Trail, c: nat)
    requires ConsistentOk(formula, clauses, s) && c < |clauses| && AllFalse(s.lits, LitSet(clauses[c]), |s.lits|)
    ensures LearningOk(formula, s, Work([], {}, LitSet(clauses[c]), {}, 0, |s.lits|))
  {
    ConsistentIs(formula, clauses, s);
    var cls := clauses[c];
    var w := Work([], {}, LitSet(cls), {}, 0, |s.lits|);
    assert w.Lits() == LitSet(cls);
    LearningOkIs(formula, s, w);
  }

  // ----- looking at one literal of the clause at hand -----

  /** A literal whose variable is seen is already there. */
  lemma SkipSeen(formula: seq<Clause>, clauses: seq<Clause>, s: Trail, w: Work, q: Lit)
    requires ConsistentOk(formula, clauses, s) && LearningOk(formula, s, w) && q in w.rest && q.x in w.seen
    ensures LearningOk(formula, s, w.(rest := w.rest - {q}))
    ensures w.(rest := w.rest - {q}).Lits() == w.Lits()
    ensures q.x in s.level && s.level[q.x] == |s.lims| ==> w.pathC > 0
  {
    ConsistentIs(formula, clauses, s);
    LearningOkIs(formula, s, w);
    var r :| r in w.Taken() && r.x == q.x;
    FalseUnique(s.lits, q, r, w.bound);
    Remove(w.Taken(), w.rest, q);
    LearningOkIs(formula, s, w.(rest := w.rest - {q}));
  }

  /** A literal of level 0 contributes nothing. */
  lemma SkipZero(formula: seq<Clause>, clauses: seq<Clause>, s: Trail, w: Work, q: Lit)
    requires ConsistentOk(formula, clauses, s) && LearningOk(formula, s, w) && q in w.rest && q.x !in w.seen
    requires q.x in s.level && s.level[q.x] == 0
    ensures LearningOk(formula, s, w.(rest := w.rest - {q}))
    ensures AboveZero(s, w.(rest := w.rest - {q}).Lits()) == AboveZero(s, w.Lits())
  {
    ConsistentIs(formula, clauses, s);
    LearningOkIs(formula, s, w);
    ZeroRefuted(formula, clauses, s, q, w.bound);
    DropFalse(formula, w.Lits(), q);
    NewVariable(w.Taken(), q);
    Remove(w.Taken(), w.rest, q);
    LearningOkIs(formula, s, w.(rest := w.rest - {q}));
  }

  lemma TakeCurrent(formula: seq<Clause>, s: Trail, w: Work, q: Lit)
    requires LearningOk(formula, s, w) && q in w.rest && q.x !in w.seen
    requires q.x in s.level && s.level[q.x] == |s.lims|
    ensures LearningOk(formula, s,
      w.(cur := w.cur + {q}, rest := w.rest - {q}, seen := w.seen + {q.x}, pathC := w.pathC + 1))
    ensures w.(cur := w.cur + {q}, rest := w.rest - {q}, seen := w.seen + {q.x}, pathC := w.pathC + 1).Lits() == w.Lits()
  {
    var t := w.(cur := w.cur + {q}, rest := w.rest - {q}, seen := w.seen + {q.x}, pathC := w.pathC + 1);
    LearningOkIs(formula, s, w);
    TakeCurrentMarks(s, w, q);
    assert t.Lits() == w.Lits();
    LearningOkIs(formula, s, t);
  }

  lemma TakeCurrentMarks(s: Trail, w: Work, q: Lit)
    requires Marked(w) && CurOk(s, w.cur) && q in w.rest && q.x !in w.seen
    requires q.x in s.level && s.level[q.x] == |s.lims|
    ensures var t := w.(cur := w.cur + {q}, rest := w.rest - {q}, seen := w.seen + {q.x}, pathC := w.pathC + 1);
      Marked(t) && CurOk(s, t.cur) && t.Lits() == w.Lits()
  {
    NewVariable(w.Taken(), q);
    Regroup(LitSet(w.low), w.cur, w.rest, q);
  }

  lemma TakeLow(formula: seq<Clause>, s: Trail, w: Work, q: Lit)
    requires LearningOk(formula, s, w) && q in w.rest && q.x !in w.seen
    requires q.x in s.level && 0 < s.level[q.x] < |s.lims|
    ensures LearningOk(formula, s, w.(low := w.low + [q], rest := w.rest - {q}, seen := w.seen + {q.x}))
    ensures w.(low := w.low + [q], rest := w.rest - {q}, seen := w.seen + {q.x}).Lits() == w.Lits()
  {
    var t := w.(low := w.low + [q], rest := w.rest - {q}, seen := w.seen + {q.x});
    LearningOkIs(formula, s, w);
    TakeLowMarks(s, w, q);
    assert t.Lits() == w.Lits();
    LearningOkIs(formula, s, t);
  }

  lemma TakeLowMarks(s: Trail, w: Work, q: Lit)
    requires Marked(w) && LowOk(s, w.low) && q in w.rest && q.x !in w.seen
    requires q.x in s.level && 0 < s.level[q.x] < |s.lims|
    ensures var t := w.(low := w.low + [q], rest := w.rest - {q}, seen := w.seen + {q.x});
      Marked(t) && LowOk(s, t.low) && t.Lits() == w.Lits()
  {
    NewVariable(w.Taken(), q);
    LowGrows(w.low, q);
    Regroup(LitSet(w.low), w.cur, w.rest, q);
  }

  // ----- selecting the next literal to resolve on -----

  lemma NothingLater(lits: seq<Lit>, qs: set<Lit>, bound: nat, i: nat)
    requires AllFalse(lits, qs, bound)
    requires forall j | i < j < bound && j < |lits| :: lits[j].x !in VarsOf(qs)
    ensures AllFalse(lits, qs, i + 1)
  {
    forall q | q in qs
      ensures FalseBy(lits, q, i + 1)
    {
      var k :| 0 <= k < bound && k < |lits| && lits[k] == q.Not();
      assert q.x in VarsOf(qs) && lits[k].x == q.x;
    }
  }

  lemma SameLiteral(lits: seq<Lit>, qs: set<Lit>, i: nat, bound: nat)
    requires DistinctVars(lits) && i < |lits| && lits[i].x in VarsOf(qs) && AllFalse(lits, qs, bound)
    ensures lits[i].Not() in qs
  {
    var r :| r in qs && r.x == lits[i].x;
    var k :| 0 <= k < bound && k < |lits| && lits[k] == r.Not();
    assert lits[k].x == lits[i].x;
    assert k == i;
  }

  lemma CurrentIsLast(s: Trail, w: Work, c: Lit, i: nat)
    requires Leveled(s) && LowOk(s, w.low) && i < |s.lits| && s.lits[i].Not() in w.Taken()
    requires c in w.cur && CurOk(s, w.cur) && FalseBy(s.lits, c, i + 1)
    ensures s.lits[i].Not() in w.cur
  {
    var k :| 0 <= k < i + 1 && k < |s.lits| && s.lits[k] == c.Not();
    LevelsOrdered(s, k, i);
    assert s.level[s.lits[i].x] >= |s.lims|;
  }

  /** The last seen literal of the trail belongs to the current level. */
  lemma LastSeen(formula: seq<Clause>, clauses: seq<Clause>, s: Trail, w: Work, i: nat)
    requires ConsistentOk(formula, clauses, s) && LearningOk(formula, s, w) && w.rest == {} && w.pathC > 0
    requires i < w.bound && i < |s.lits| && s.lits[i].x in w.seen
    requires forall j | i < j < w.bound && j < |s.lits| :: s.lits[j].x !in w.seen
    ensures s.lits[i].Not() in w.cur && AllFalse(s.lits, w.Taken(), i + 1)
  {
    ConsistentIs(formula, clauses, s);
    LearningOkIs(formula, s, w);
    assert w.Lits() == w.Taken();
    NothingLater(s.lits, w.Taken(), w.bound, i);
    SameLiteral(s.lits, w.Taken(), i, i + 1);
    var c :| c in w.cur;
    assert FalseBy(s.lits, c, i + 1);
    CurrentIsLast(s, w, c, i);
  }

  /** Something is still marked. */
  lemma SomeSeen(formula: seq<Clause>, s: Trail, w: Work) returns (i: nat)
    requires LearningOk(formula, s, w) && w.pathC > 0
    ensures i < w.bound && i < |s.lits| && s.lits[i].x in w.seen
  {
    LearningOkIs(formula, s, w);
    var c :| c in w.cur;
    assert c in w.Lits() && c in w.Taken();
    assert FalseBy(s.lits, c, w.bound);
    var k :| 0 <= k < w.bound && k < |s.lits| && s.lits[k] == c.Not();
    i := k;
  }

  lemma Another(lits: set<Lit>, p: Lit)
    requires p in lits
    ensures lits != {p} <==> |lits| > 1
    ensures |lits| > 1 ==> exists q :: q in lits && q != p
  {
    var rest := lits - {p};
    assert rest + {p} == lits;
    if rest != {} {
      var q :| q in rest;
      assert q in lits && q != p;
    }
  }

  /** With two literals of the current level left, the last one is implied. */
  lemma LastIsImplied(formula: seq<Clause>, clauses: seq<Clause>, s: Trail, cur: set<Lit>, i: nat)
    requires Leveled(s) && AllJustified(formula, clauses, s) && |s.lims| > 0
    requires CurOk(s, cur) && i < |s.lits| && |cur| > 1 && s.lits[i].Not() in cur && AllFalse(s.lits, cur, i + 1)
    ensures s.lits[i].x in s.reason
  {
    Another(cur, s.lits[i].Not());
    var q :| q in cur && q != s.lits[i].Not();
    var k :| 0 <= k < i + 1 && k < |s.lits| && s.lits[k] == q.Not();
    assert Justified(formula, clauses, s, i);
    assert s.lims[|s.lims| - 1] <= k < i;
  }

  lemma NextIsImplied(formula: seq<Clause>, clauses: seq<Clause>, s: Trail, w: Work, i: nat)
    requires ConsistentOk(formula, clauses, s) && LearningOk(formula, s, w) && w.pathC > 1 && |s.lims| > 0
    requires i < |s.lits| && s.lits[i].Not() in w.cur && AllFalse(s.lits, w.Taken(), i + 1)
    ensures s.lits[i].x in s.reason && s.reason[s.lits[i].x] < |clauses|
    ensures Explains(s.lits, i, clauses[s.reason[s.lits[i].x]])
    ensures Entails(formula, LitSet(clauses[s.reason[s.lits[i].x]]))
  {
    ConsistentIs(formula, clauses, s);
    LearningOkIs(formula, s, w);
    LastIsImplied(formula, clauses, s, w.cur, i);
    assert Justified(formula, clauses, s, i);
  }

  // ----- one resolution step -----

  function After(w: Work, p: Lit, i: nat, cls: set<Lit>): Work
    requires w.pathC > 0
  {
    Work(w.low, w.cur - {p.Not()}, cls - {p}, w.seen - {p.x}, w.pathC - 1, i)
  }

  lemma PivotApart(s: Trail, w: Work, p: Lit)
    requires p.Not() in w.cur && LowOk(s, w.low) && CurOk(s, w.cur)
    ensures w.Taken() - {p.Not()} == LitSet(w.low) + (w.cur - {p.Not()})
    ensures |w.cur - {p.Not()}| == |w.cur| - 1
  {
    assert p.Not() !in LitSet(w.low);
  }

  /** Without the pivot everything taken is false before it. */
  lemma BeforePivot(lits: seq<Lit>, qs: set<Lit>, i: nat)
    requires DistinctVars(lits) && i < |lits| && lits[i].Not() in qs && AllFalse(lits, qs, i + 1)
    ensures AllFalse(lits, qs - {lits[i].Not()}, i)
    ensures VarsOf(qs - {lits[i].Not()}) == VarsOf(qs) - {lits[i].x}
  {
    var p := lits[i];
    var less := qs - {p.Not()};
    forall q | q in less
      ensures FalseBy(lits, q, i) && q.x != p.x
    {
      var k :| 0 <= k < i + 1 && k < |lits| && lits[k] == q.Not();
      assert k < i;
    }
    assert qs == less + {p.Not()};
  }

  /** What is left when the pivot is resolved away. */
  lemma PivotGone(s: Trail, w: Work, i: nat, cls: set<Lit>)
    requires DistinctVars(s.lits) && i < |s.lits| && w.pathC > 0
    requires s.lits[i].Not() in w.cur && AllFalse(s.lits, w.Taken(), i + 1)
    requires Marked(w) && LowOk(s, w.low) && CurOk(s, w.cur)
    ensures var a := After(w, s.lits[i], i, cls);
      && a.Taken() == w.Taken() - {s.lits[i].Not()} && AllFalse(s.lits, a.Taken(), i)
      && Marked(a) && LowOk(s, a.low) && CurOk(s, a.cur)
  {
    PivotApart(s, w, s.lits[i]);
    BeforePivot(s.lits, w.Taken(), i);
  }

  lemma OneVarEach(formula: seq<Clause>, clauses: seq<Clause>, s: Trail)
    requires ConsistentOk(formula, clauses, s)
    ensures DistinctVars(s.lits)
  {
    ConsistentIs(formula, clauses, s);
  }

  lemma TrailOk(formula: seq<Clause>, clauses: seq<Clause>, s: Trail)
    requires ConsistentOk(formula, clauses, s)
    ensures DistinctVars(s.lits) && Leveled(s)
  {
    ConsistentIs(formula, clauses, s);
  }

  /** The literals of the reason are what is looked at next. */
  lemma ResolveStep(formula: seq<Clause>, clauses: seq<Clause>, s: Trail, w: Work, i: nat, cls: Clause)
    requires ConsistentOk(formula, clauses, s) && LearningOk(formula, s, w) && w.rest == {} && w.pathC > 0
    requires i < |s.lits| && s.lits[i].Not() in w.cur && AllFalse(s.lits, w.Taken(), i + 1)
    requires Entails(formula, LitSet(cls)) && Explains(s.lits, i, cls)
    ensures LearningOk(formula, s, After(w, s.lits[i], i, LitSet(cls)))
  {
    var p := s.lits[i];
    var a := After(w, p, i, LitSet(cls));
    OneVarEach(formula, clauses, s);
    LearningOkIs(formula, s, w);
    PivotGone(s, w, i, LitSet(cls));
    assert w.Lits() == w.Taken();
    Resolve(formula, w.Taken(), LitSet(cls), p);
    LearningOkIs(formula, s, a);
  }

  // ----- the result -----

  /** A clause that follows from the formula, is false, and has its first
      literal alone at the current level. */
  ghost predicate Asserting(formula: seq<Clause>, s: Trail, cls: Clause) {
    && |cls| > 0 && Entails(formula, LitSet(cls)) && AllFalse(s.lits, LitSet(cls), |s.lits|) && NoRepeats(cls)
    && cls[0].x in s.level && s.level[cls[0].x] == |s.lims|
    && forall i | 1 <= i < |cls| :: cls[i].x in s.level && 0 < s.level[cls[i].x] < |s.lims|
  }

  /** Once everything above the level is undone the clause has one literal left:
      the others are of that level or below, and one of them is of that level
      unless there are none. */
  ghost predicate UnitAt(s: Trail, cls: Clause, level: nat) {
    && level < |s.lims| && |cls| > 0
    && (forall k | 1 <= k < |cls| :: cls[k].x in s.level && s.level[cls[k].x] <= level)
    && if |cls| == 1 then level == 0 else s.level[cls[1].x] == level
  }

  lemma FalseLater(lits: seq<Lit>, qs: set<Lit>, i: nat, bound: nat)
    requires AllFalse(lits, qs, i) && i <= bound
    ensures AllFalse(lits, qs, bound)
  {
    forall q | q in qs
      ensures FalseBy(lits, q, bound)
    {
      var k :| 0 <= k < i && k < |lits| && lits[k] == q.Not();
    }
  }

  lemma AsOneClause(low: seq<Lit>, cur: set<Lit>, p: Lit)
    requires |cur| == 1 && p in cur
    ensures cur == {p} && LitSet([p] + low) == LitSet(low) + cur
  {
    if cur != {p} {
      Another(cur, p);
    }
    var whole := [p] + low;
    assert forall q | q in low :: q in whole;
    assert whole[0] in whole;
  }

  lemma FirstApart(s: Trail, low: seq<Lit>, p: Lit)
    requires LowOk(s, low) && p.x in s.level && s.level[p.x] == |s.lims|
    ensures NoRepeats([p] + low)
    ensures forall i | 1 <= i < |low| + 1 ::
      ([p] + low)[i].x in s.level && 0 < s.level[([p] + low)[i].x] < |s.lims|
  {
    assert forall i | 1 <= i < |low| + 1 :: ([p] + low)[i] == low[i - 1] && low[i - 1] in low;
  }

  /** With one literal of the current level left, the clause is learnt. */
  lemma FirstPoint(formula: seq<Clause>, s: Trail, w: Work, i: nat)
    requires LearningOk(formula, s, w) && w.rest == {} && w.pathC == 1
    requires i < |s.lits| && s.lits[i].Not() in w.cur && AllFalse(s.lits, w.Taken(), i + 1)
    ensures Asserting(formula, s, [s.lits[i].Not()] + w.low)
  {
    var p := s.lits[i].Not();
    LearningOkIs(formula, s, w);
    assert w.Lits() == w.Taken();
    AsOneClause(w.low, w.cur, p);
    FalseLater(s.lits, w.Taken(), i + 1, |s.lits|);
    FirstApart(s, w.low, p);
  }

  /** What stays marked is its other variables. */
  lemma MarksLeft(formula: seq<Clause>, clauses: seq<Clause>, s: Trail, w: Work, i: nat)
    requires ConsistentOk(formula, clauses, s) && LearningOk(formula, s, w) && w.pathC == 1
    requires i < |s.lits| && s.lits[i].Not() in w.cur && AllFalse(s.lits, w.Taken(), i + 1)
    ensures w.seen - {s.lits[i].x} == VarsOf(LitSet(w.low))
  {
    OneVarEach(formula, clauses, s);
    LearningOkIs(formula, s, w);
    PivotGone(s, w, i, {});
    AsOneClause(w.low, w.cur, s.lits[i].Not());
    assert After(w, s.lits[i], i, {}).Taken() == LitSet(w.low);
  }
}
