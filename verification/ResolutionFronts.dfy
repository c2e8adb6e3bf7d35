/** Which clause conflict analysis arrives at: the conflict is resolved with the
    reasons of its literals, latest first, and the first clause with one literal of
    the current level is learnt
    (src/sat/solvers/glucose/src/core/Solver.cc:735-837). */
module ResolutionFronts {
  import opened Trails
  import opened FirstUip
  import opened ClauseMinimization

  /** The reason of the literal at position j, without the literal. */
  function ReasonSide(db: seq<Clause>, s: Trail, j: nat): set<Lit>
    requires j < |s.lits|
  {
    if s.lits[j].x in s.reason && s.reason[s.lits[j].x] < |db|
    then LitSet(db[s.reason[s.lits[j].x]]) - {s.lits[j]} else {}
  }

  predicate Resolves(s: Trail, front: set<Lit>, j: nat)
    requires j < |s.lits|
  {
    s.lits[j].Not() in front && s.lits[j].x in s.reason
  }

  /** The clause once everything from position i on has been resolved away that can
      be. */
  function Front(db: seq<Clause>, s: Trail, cls: set<Lit>, i: nat): set<Lit>
    decreases |s.lits| - i
  {
    if i >= |s.lits| then cls
    else
      var later := Front(db, s, cls, i + 1);
      if Resolves(s, later, i) then (later - {s.lits[i].Not()}) + ReasonSide(db, s, i) else later
  }

  /** The literals of the current level. */
  function Latest(s: Trail, lits: set<Lit>): set<Lit> {
    set q | q in lits && q.x in s.level && s.level[q.x] == |s.lims|
  }

  /** At position u the front has that literal alone at the current level, and it had
      more of them at each position resolved before. */
  ghost predicate FirstPointAt(db: seq<Clause>, s: Trail, cls: set<Lit>, u: nat) {
    && u < |s.lits| && Latest(s, Front(db, s, cls, u + 1)) == {s.lits[u].Not()}
    && forall i | u < i < |s.lits| && s.lits[i].Not() in Front(db, s, cls, i + 1) ::
         s.lits[i].x in s.reason && |Latest(s, Front(db, s, cls, i + 1))| > 1
  }

  ghost predicate FirstUipAt(db: seq<Clause>, s: Trail, cls: set<Lit>, learnt: Clause, u: nat) {
    && FirstPointAt(db, s, cls, u) && |learnt| > 0 && learnt[0] == s.lits[u].Not()
    && LitSet(learnt) == AboveZero(s, Front(db, s, cls, u + 1))
  }

  /** The clause of the first unique implication point. */
  ghost predicate IsFirstUip(db: seq<Clause>, s: Trail, cls: set<Lit>, learnt: Clause) {
    exists u :: FirstUipAt(db, s, cls, learnt, u)
  }

  /** There is only one such point, and so only one such set of literals. */
  lemma OnePoint(db: seq<Clause>, s: Trail, cls: set<Lit>, u: nat, v: nat)
    requires FirstPointAt(db, s, cls, u) && FirstPointAt(db, s, cls, v)
    ensures u == v
  {
    NoLaterPoint(db, s, cls, u, v);
    NoLaterPoint(db, s, cls, v, u);
  }

  lemma NoLaterPoint(db: seq<Clause>, s: Trail, cls: set<Lit>, u: nat, v: nat)
    requires FirstPointAt(db, s, cls, u) && FirstPointAt(db, s, cls, v)
    ensures !(u < v)
  {
    assert s.lits[v].Not() in Latest(s, Front(db, s, cls, v + 1));
  }

  lemma SamePoint(db: seq<Clause>, s: Trail, cls: set<Lit>, a: Clause, b: Clause, u: nat)
    requires FirstUipAt(db, s, cls, a, u) && FirstUipAt(db, s, cls, b, u)
    ensures |a| > 0 && |b| > 0 && LitSet(a) == LitSet(b) && a[0] == b[0]
  {
  }

  lemma OneFirstUip(db: seq<Clause>, s: Trail, cls: set<Lit>, a: Clause, b: Clause, u: nat, v: nat)
    requires FirstUipAt(db, s, cls, a, u) && FirstUipAt(db, s, cls, b, v)
    ensures |a| > 0 && |b| > 0 && LitSet(a) == LitSet(b) && a[0] == b[0]
  {
    OnePoint(db, s, cls, u, v);
    SamePoint(db, s, cls, a, b, u);
  }

  // ----- chains of reasons -----

  /** A chain of at most n reasons of literals from position i on leads from the
      conflict to the literal. */
  ghost predicate Chain(db: seq<Clause>, s: Trail, cls: set<Lit>, i: nat, q: Lit, n: nat)
    decreases n
  {
    || q in cls
    || (n > 0 && exists j :: i <= j < |s.lits| && s.lits[j].x in s.reason && q in ReasonSide(db, s, j)
                             && Chain(db, s, cls, i, s.lits[j].Not(), n - 1))
  }

  ghost predicate Chained(db: seq<Clause>, s: Trail, cls: set<Lit>, i: nat, q: Lit) {
    exists n: nat :: Chain(db, s, cls, i, q, n)
  }

  /** The literal is false by an implied assignment from position i on. */
  ghost predicate Passed(s: Trail, i: nat, q: Lit) {
    exists j :: i <= j < |s.lits| && s.lits[j] == q.Not() && s.lits[j].x in s.reason
  }

  /** Reasons speak of earlier assignments only. */
  ghost predicate Backward(db: seq<Clause>, s: Trail) {
    && DistinctVars(s.lits)
    && forall j, q | 0 <= j < |s.lits| && q in ReasonSide(db, s, j) :: FalseBy(s.lits, q, j)
  }

  lemma {:induction false} ChainLater(db: seq<Clause>, s: Trail, cls: set<Lit>, i: nat, q: Lit, n: nat)
    requires Chain(db, s, cls, i + 1, q, n)
    ensures Chain(db, s, cls, i, q, n)
    decreases n
  {
    if q !in cls {
      var j :| i + 1 <= j < |s.lits| && s.lits[j].x in s.reason && q in ReasonSide(db, s, j)
               && Chain(db, s, cls, i + 1, s.lits[j].Not(), n - 1);
      ChainLater(db, s, cls, i, s.lits[j].Not(), n - 1);
    }
  }

  /** What is in the front was reached along reasons and has not been passed. */
  lemma {:induction false} FrontChained(db: seq<Clause>, s: Trail, cls: set<Lit>, i: nat, q: Lit)
    requires Backward(db, s) && q in Front(db, s, cls, i)
    ensures Chained(db, s, cls, i, q) && !Passed(s, i, q)
    decreases |s.lits| - i
  {
    if i >= |s.lits| {
      assert Chain(db, s, cls, i, q, 0);
    } else {
      var later := Front(db, s, cls, i + 1);
      if q in later && !(Resolves(s, later, i) && q == s.lits[i].Not()) {
        FrontChained(db, s, cls, i + 1, q);
        var n: nat :| Chain(db, s, cls, i + 1, q, n);
        ChainLater(db, s, cls, i, q, n);
        assert !(s.lits[i] == q.Not() && s.lits[i].x in s.reason);
      } else {
        FrontChained(db, s, cls, i + 1, s.lits[i].Not());
        var n: nat :| Chain(db, s, cls, i + 1, s.lits[i].Not(), n);
        ChainLater(db, s, cls, i, s.lits[i].Not(), n);
        assert Chain(db, s, cls, i, q, n + 1);
        NotPassed(db, s, i, q);
      }
    }
  }

  lemma NotPassed(db: seq<Clause>, s: Trail, i: nat, q: Lit)
    requires Backward(db, s) && i < |s.lits| && q in ReasonSide(db, s, i)
    ensures !Passed(s, i, q)
  {
    assert FalseBy(s.lits, q, i);
    var k :| 0 <= k < i && k < |s.lits| && s.lits[k] == q.Not();
    forall j | i <= j < |s.lits|
      ensures s.lits[j] != q.Not()
    {
      assert s.lits[k].x != s.lits[j].x;
    }
  }

  /** What a front has stays until its own position is reached. */
  lemma {:induction false} FrontKeeps(db: seq<Clause>, s: Trail, cls: set<Lit>, i: nat, j: nat, q: Lit)
    requires i <= j && q in Front(db, s, cls, j)
    requires forall k | i <= k < j && k < |s.lits| :: s.lits[k] != q.Not() || s.lits[k].x !in s.reason
    ensures q in Front(db, s, cls, i)
    decreases j - i
  {
    if i < j && i < |s.lits| {
      FrontKeeps(db, s, cls, i + 1, j, q);
    } else if i < j {
      assert Front(db, s, cls, i) == cls == Front(db, s, cls, j);
    }
  }

  /** And what chains lead to without being passed is in the front. */
  lemma {:induction false} ChainedFront(db: seq<Clause>, s: Trail, cls: set<Lit>, i: nat, q: Lit, n: nat)
    requires Backward(db, s) && Chain(db, s, cls, i, q, n)
    ensures !Passed(s, i, q) ==> q in Front(db, s, cls, i)
    ensures forall j | i <= j < |s.lits| && s.lits[j] == q.Not() && s.lits[j].x in s.reason :: q in Front(db, s, cls, j + 1)
    decreases n
  {
    if q in cls {
      EverySide(db, s, cls, i, if i < |s.lits| then |s.lits| else i, q);
    } else {
      var j :| i <= j < |s.lits| && s.lits[j].x in s.reason && q in ReasonSide(db, s, j)
               && Chain(db, s, cls, i, s.lits[j].Not(), n - 1);
      ChainedFront(db, s, cls, i, s.lits[j].Not(), n - 1);
      assert q in Front(db, s, cls, j);
      NotPassed(db, s, j, q);
      EverySide(db, s, cls, i, j, q);
    }
  }

  lemma EverySide(db: seq<Clause>, s: Trail, cls: set<Lit>, i: nat, j: nat, q: Lit)
    requires Backward(db, s) && i <= j && q in Front(db, s, cls, j) && !Passed(s, j, q)
    ensures !Passed(s, i, q) ==> q in Front(db, s, cls, i)
    ensures forall k | i <= k < |s.lits| && s.lits[k] == q.Not() && s.lits[k].x in s.reason :: q in Front(db, s, cls, k + 1)
  {
    if !Passed(s, i, q) {
      FrontKeeps(db, s, cls, i, j, q);
    }
    forall k | i <= k < |s.lits| && s.lits[k] == q.Not() && s.lits[k].x in s.reason
      ensures q in Front(db, s, cls, k + 1)
    {
      assert k < j;
      assert forall m | k + 1 <= m < j && m < |s.lits| :: s.lits[m].x != s.lits[k].x;
      FrontKeeps(db, s, cls, k + 1, j, q);
    }
  }

  /** The learnt literals in terms of chains of reasons: exactly those above level 0
      that chains through literals after the point lead to, other than the literals
      passed on the way. */
  lemma FrontExactly(db: seq<Clause>, s: Trail, cls: set<Lit>, i: nat, q: Lit)
    requires Backward(db, s)
    ensures q in Front(db, s, cls, i) <==> Chained(db, s, cls, i, q) && !Passed(s, i, q)
  {
    if q in Front(db, s, cls, i) {
      FrontChained(db, s, cls, i, q);
    }
    if Chained(db, s, cls, i, q) {
      var n: nat :| Chain(db, s, cls, i, q, n);
      ChainedFront(db, s, cls, i, q, n);
    }
  }

  lemma ConsistentBackward(formula: seq<Clause>, db: seq<Clause>, s: Trail)
    requires ConsistentOk(formula, db, s)
    ensures Backward(db, s)
  {
    ConsistentIs(formula, db, s);
    forall j, q | 0 <= j < |s.lits| && q in ReasonSide(db, s, j)
      ensures FalseBy(s.lits, q, j)
    {
      assert Justified(formula, db, s, j);
    }
  }

  lemma LearntExactly(formula: seq<Clause>, db: seq<Clause>, s: Trail, cls: set<Lit>, learnt: Clause, u: nat, q: Lit)
    requires ConsistentOk(formula, db, s) && FirstUipAt(db, s, cls, learnt, u)
    ensures q in learnt <==>
      q.x in s.level && s.level[q.x] > 0 && Chained(db, s, cls, u + 1, q) && !Passed(s, u + 1, q)
  {
    ConsistentBackward(formula, db, s);
    FrontExactly(db, s, cls, u + 1, q);
    assert q in learnt <==> q in LitSet(learnt);
  }

  // ----- the loop -----

  /** What the loop has in hand is the front of its position, but for literals of level
      0; and no position before was a point. */
  ghost predicate Tracks(db: seq<Clause>, s: Trail, cls: set<Lit>, w: Work) {
    && AboveZero(s, w.Lits()) == AboveZero(s, Front(db, s, cls, w.bound))
    && forall i | w.bound <= i < |s.lits| && s.lits[i].Not() in Front(db, s, cls, i + 1) ::
         s.lits[i].x in s.reason && |Latest(s, Front(db, s, cls, i + 1))| > 1
  }

  /** The same, kept folded: the argument n does not matter. */
  ghost predicate TracksFolded(db: seq<Clause>, s: Trail, cls: set<Lit>, w: Work, n: nat)
    decreases n
  {
    if n == 0 then Tracks(db, s, cls, w) else TracksFolded(db, s, cls, w, n - 1)
  }

  ghost predicate TracksOk(db: seq<Clause>, s: Trail, cls: set<Lit>, w: Work) {
    TracksFolded(db, s, cls, w, w.bound)
  }

  lemma {:induction false} TracksUnfold(db: seq<Clause>, s: Trail, cls: set<Lit>, w: Work, n: nat)
    ensures TracksFolded(db, s, cls, w, n) <==> Tracks(db, s, cls, w)
    decreases n
  {
    if n > 0 {
      TracksUnfold(db, s, cls, w, n - 1);
    }
  }

  lemma TracksStart(db: seq<Clause>, s: Trail, cls: set<Lit>)
    ensures TracksOk(db, s, cls, Work([], {}, cls, {}, 0, |s.lits|))
  {
    var w := Work([], {}, cls, {}, 0, |s.lits|);
    TracksUnfold(db, s, cls, w, w.bound);
    assert w.Lits() == cls;
  }

  /** Looking at literals leaves the clause as it is, but for level 0. */
  lemma TracksSame(db: seq<Clause>, s: Trail, cls: set<Lit>, w: Work, v: Work)
    requires TracksOk(db, s, cls, w) && v.bound == w.bound && AboveZero(s, v.Lits()) == AboveZero(s, w.Lits())
    ensures TracksOk(db, s, cls, v)
  {
    TracksUnfold(db, s, cls, w, w.bound);
    TracksUnfold(db, s, cls, v, v.bound);
  }

  /** Positions that are not marked leave the front as it is. */
  lemma {:induction false} FrontSkips(db: seq<Clause>, s: Trail, cls: set<Lit>, i: nat, j: nat)
    requires i <= j <= |s.lits|
    requires forall k | i <= k < j :: s.lits[k].Not() !in Front(db, s, cls, j)
    ensures forall k | i <= k <= j :: Front(db, s, cls, k) == Front(db, s, cls, j)
    decreases j - i
  {
    if i < j {
      FrontSkips(db, s, cls, i + 1, j);
    }
  }

  /** An unmarked assignment after a marked one of the current level is not in the
      front. */
  lemma Unmarked(s: Trail, w: Work, f: set<Lit>, i: nat, j: nat)
    requires Leveled(s) && Marked(w) && |s.lims| > 0 && AboveZero(s, f) == w.Taken()
    requires CurOk(s, w.cur) && i < j < |s.lits| && s.lits[i].Not() in w.cur && s.lits[j].x !in w.seen
    ensures s.lits[j].Not() !in f
  {
    LevelsOrdered(s, i, j);
    assert s.level[s.lits[i].Not().x] == |s.lims|;
    assert s.level[s.lits[j].x] > 0;
    var q := s.lits[j].Not();
    assert q in f ==> q in AboveZero(s, f);
    assert q in w.Taken() ==> q.x in VarsOf(w.Taken());
  }

  lemma SelectedFront(db: seq<Clause>, s: Trail, cls: set<Lit>, w: Work, i: nat)
    requires Leveled(s) && Marked(w) && LowOk(s, w.low) && CurOk(s, w.cur) && |s.lims| > 0
    requires AboveZero(s, Front(db, s, cls, w.bound)) == w.Taken()
    requires i < w.bound <= |s.lits| && s.lits[i].Not() in w.cur
    requires forall j | i < j < w.bound :: s.lits[j].x !in w.seen
    ensures forall k | i + 1 <= k <= w.bound :: Front(db, s, cls, k) == Front(db, s, cls, w.bound)
    ensures forall k | i + 1 <= k < w.bound :: s.lits[k].Not() !in Front(db, s, cls, w.bound)
  {
    forall j | i + 1 <= j < w.bound
      ensures s.lits[j].Not() !in Front(db, s, cls, w.bound)
    {
      Unmarked(s, w, Front(db, s, cls, w.bound), i, j);
    }
    FrontSkips(db, s, cls, i + 1, w.bound);
  }

  lemma LaterPositions(db: seq<Clause>, s: Trail, cls: set<Lit>, w: Work, i: nat, j: nat)
    requires Tracks(db, s, cls, w) && i < j < |s.lits| && w.bound <= |s.lits|
    requires s.lits[j].Not() in Front(db, s, cls, j + 1)
    requires forall k | i + 1 <= k <= w.bound :: Front(db, s, cls, k) == Front(db, s, cls, w.bound)
    requires forall k | i + 1 <= k < w.bound :: s.lits[k].Not() !in Front(db, s, cls, w.bound)
    ensures s.lits[j].x in s.reason && |Latest(s, Front(db, s, cls, j + 1))| > 1
  {
    assert j >= w.bound;
  }

  lemma SelectedHolds(db: seq<Clause>, s: Trail, cls: set<Lit>, w: Work, i: nat)
    requires Leveled(s) && Marked(w) && LowOk(s, w.low) && CurOk(s, w.cur) && |s.lims| > 0
    requires w.rest == {} && Tracks(db, s, cls, w)
    requires i < w.bound <= |s.lits| && s.lits[i].Not() in w.cur
    requires forall j | i < j < w.bound :: s.lits[j].x !in w.seen
    ensures Selected(db, s, cls, w, i)
  {
    assert w.Lits() == w.Taken();
    TakenAbove(s, w);
    SelectedFront(db, s, cls, w, i);
    LatestTaken(s, w, Front(db, s, cls, w.bound));
    forall j | i < j < |s.lits| && s.lits[j].Not() in Front(db, s, cls, j + 1)
      ensures s.lits[j].x in s.reason && |Latest(s, Front(db, s, cls, j + 1))| > 1
    {
      LaterPositions(db, s, cls, w, i, j);
    }
  }

  /** The front at the next marked position. */
  lemma TracksSelect(formula: seq<Clause>, clauses: seq<Clause>, db: seq<Clause>, s: Trail, cls: set<Lit>, w: Work, i: nat)
    requires ConsistentOk(formula, clauses, s) && LearningOk(formula, s, w) && w.rest == {} && TracksOk(db, s, cls, w)
    requires i < w.bound <= |s.lits| && s.lits[i].Not() in w.cur && |s.lims| > 0
    requires forall j | i < j < w.bound :: s.lits[j].x !in w.seen
    ensures Selected(db, s, cls, w, i)
  {
    TracksUnfold(db, s, cls, w, w.bound);
    LearningOkIs(formula, s, w);
    TrailOk(formula, clauses, s);
    SelectedHolds(db, s, cls, w, i);
  }

  /** The literals of the front after position i are those taken, and no later
      position was a point. */
  ghost predicate Selected(db: seq<Clause>, s: Trail, cls: set<Lit>, w: Work, i: nat) {
    && Latest(s, Front(db, s, cls, i + 1)) == w.cur && AboveZero(s, Front(db, s, cls, i + 1)) == w.Taken()
    && forall j | i < j < |s.lits| && s.lits[j].Not() in Front(db, s, cls, j + 1) ::
         s.lits[j].x in s.reason && |Latest(s, Front(db, s, cls, j + 1))| > 1
  }

  /** One literal of the current level left: this is the point. */
  lemma TracksPoint(formula: seq<Clause>, db: seq<Clause>, s: Trail, cls: set<Lit>, w: Work, i: nat)
    requires LearningOk(formula, s, w) && w.pathC == 1 && i < |s.lits| && s.lits[i].Not() in w.cur
    requires Selected(db, s, cls, w, i)
    ensures FirstUipAt(db, s, cls, [s.lits[i].Not()] + w.low, i)
  {
    LearningOkIs(formula, s, w);
    AsOneClause(w.low, w.cur, s.lits[i].Not());
  }

  lemma FrontResolves(db: seq<Clause>, clauses: seq<Clause>, s: Trail, cls: set<Lit>, i: nat)
    requires i < |s.lits| && s.lits[i].Not() in Front(db, s, cls, i + 1) && SameClauses(db, clauses)
    requires s.lits[i].x in s.reason && s.reason[s.lits[i].x] < |clauses|
    ensures Front(db, s, cls, i) == (Front(db, s, cls, i + 1) - {s.lits[i].Not()})
                                    + (LitSet(clauses[s.reason[s.lits[i].x]]) - {s.lits[i]})
  {
  }

  lemma NextTracks(clauses: seq<Clause>, db: seq<Clause>, s: Trail, cls: set<Lit>, w: Work, i: nat)
    requires Marked(w) && LowOk(s, w.low) && CurOk(s, w.cur) && w.pathC > 1 && i < |s.lits| && s.lits[i].Not() in w.cur
    requires Selected(db, s, cls, w, i) && SameClauses(db, clauses)
    requires s.lits[i].x in s.reason && s.reason[s.lits[i].x] < |clauses|
    ensures Tracks(db, s, cls, After(w, s.lits[i], i, LitSet(clauses[s.reason[s.lits[i].x]])))
  {
    var p, f := s.lits[i], Front(db, s, cls, i + 1);
    assert p.Not() in f by {
      assert p.Not() in Latest(s, f);
    }
    FrontResolves(db, clauses, s, cls, i);
    ResolvedAbove(s, w, f, p, LitSet(clauses[s.reason[p.x]]), i);
    TracksFrom(db, s, cls, w, After(w, p, i, LitSet(clauses[s.reason[p.x]])), i);
  }

  lemma TracksFrom(db: seq<Clause>, s: Trail, cls: set<Lit>, w: Work, a: Work, i: nat)
    requires Selected(db, s, cls, w, i) && |w.cur| > 1 && i < |s.lits| && s.lits[i].x in s.reason
    requires a.bound == i && AboveZero(s, a.Lits()) == AboveZero(s, Front(db, s, cls, i))
    ensures Tracks(db, s, cls, a)
  {
  }

  /** More than one: the front goes on with the reason. */
  lemma TracksNext(formula: seq<Clause>, clauses: seq<Clause>, db: seq<Clause>, s: Trail, cls: set<Lit>, w: Work, i: nat)
    requires LearningOk(formula, s, w) && w.pathC > 1 && w.rest == {} && i < |s.lits| && s.lits[i].Not() in w.cur
    requires Selected(db, s, cls, w, i) && SameClauses(db, clauses)
    requires s.lits[i].x in s.reason && s.reason[s.lits[i].x] < |clauses|
    ensures TracksOk(db, s, cls, After(w, s.lits[i], i, LitSet(clauses[s.reason[s.lits[i].x]])))
  {
    LearningOkIs(formula, s, w);
    NextTracks(clauses, db, s, cls, w, i);
    TracksUnfold(db, s, cls, After(w, s.lits[i], i, LitSet(clauses[s.reason[s.lits[i].x]])), i);
  }

  lemma PointReached(formula: seq<Clause>, clauses: seq<Clause>, db: seq<Clause>, s: Trail, cls: set<Lit>, w: Work, i: nat)
    requires ConsistentOk(formula, clauses, s) && LearningOk(formula, s, w) && w.rest == {} && TracksOk(db, s, cls, w)
    requires i < w.bound <= |s.lits| && s.lits[i].Not() in w.cur && |s.lims| > 0 && w.pathC == 1
    requires forall j | i < j < w.bound :: s.lits[j].x !in w.seen
    ensures IsFirstUip(db, s, cls, [s.lits[i].Not()] + w.low)
  {
    TracksSelect(formula, clauses, db, s, cls, w, i);
    TracksPoint(formula, db, s, cls, w, i);
  }

  lemma NextReached(formula: seq<Clause>, clauses: seq<Clause>, db: seq<Clause>, s: Trail, cls: set<Lit>, w: Work, i: nat)
    requires ConsistentOk(formula, clauses, s) && LearningOk(formula, s, w) && w.rest == {} && TracksOk(db, s, cls, w)
    requires i < w.bound <= |s.lits| && s.lits[i].Not() in w.cur && |s.lims| > 0 && w.pathC > 1
    requires forall j | i < j < w.bound :: s.lits[j].x !in w.seen
    requires s.lits[i].x in s.reason && s.reason[s.lits[i].x] < |clauses| && SameClauses(db, clauses)
    ensures TracksOk(db, s, cls, After(w, s.lits[i], i, LitSet(clauses[s.reason[s.lits[i].x]])))
  {
    TracksSelect(formula, clauses, db, s, cls, w, i);
    TracksNext(formula, clauses, db, s, cls, w, i);
  }

  lemma ResolvedAbove(s: Trail, w: Work, f: set<Lit>, p: Lit, reason: set<Lit>, i: nat)
    requires AboveZero(s, f) == w.Taken() && p.Not() in w.cur && LowOk(s, w.low) && CurOk(s, w.cur) && w.pathC > 0
    ensures AboveZero(s, After(w, p, i, reason).Lits()) == AboveZero(s, (f - {p.Not()}) + (reason - {p}))
  {
    PivotApart(s, w, p);
    var a := After(w, p, i, reason);
    assert a.Lits() == (w.Taken() - {p.Not()}) + (reason - {p});
    forall q
      ensures q in AboveZero(s, a.Lits()) <==> q in AboveZero(s, (f - {p.Not()}) + (reason - {p}))
    {
      assert q in AboveZero(s, f) <==> q in w.Taken();
    }
  }

  /** Nothing of level 0 is taken. */
  lemma TakenAbove(s: Trail, w: Work)
    requires LowOk(s, w.low) && CurOk(s, w.cur) && |s.lims| > 0
    ensures AboveZero(s, w.Taken()) == w.Taken()
  {
  }

  lemma LatestTaken(s: Trail, w: Work, f: set<Lit>)
    requires LowOk(s, w.low) && CurOk(s, w.cur) && |s.lims| > 0 && AboveZero(s, f) == w.Taken()
    ensures Latest(s, f) == w.cur
  {
    forall q
      ensures q in Latest(s, f) <==> q in w.cur
    {
      if q in Latest(s, f) {
        assert q in AboveZero(s, f);
        assert q in w.Taken();
      }
      if q in w.cur {
        assert q in w.Taken();
      }
    }
  }
}
