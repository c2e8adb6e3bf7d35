/** Checking a counterexample by simulation, and which of prove's counterexamples pass
    (src/pme/util/check_cex.cpp, src/pme/ic3/ic3_solver.cpp:257-334). */
module Counterexamples {
  import opened Collections
  import opened Ids
  import opened Cubes
  import opened TransitionRelations
  import opened InductiveTraces
  import opened TraceInvariants
  import opened FrameSolvers
  import opened UnsatCoreLifters
  import opened Generalizations
  import opened ProofObligations
  import opened BlockRuns

  /** An execution with exactly the states and inputs of the steps, into the cube. */
  ghost predicate Simulates(tr: TransitionRelation, init: set<Cube>, c: Cube, cex: seq<CexStep>, ws: seq<Valuation>) {
    && |ws| == |cex| > 0 && Init(tr, init, ws[0]) && SatCube(ws[|ws| - 1], c)
    && (forall j | 0 < j < |ws| :: tr.Step(ws[j - 1], ws[j]))
    && forall j | 0 <= j < |ws| :: SatCube(ws[j], cex[j].state) && SatAll(ws[j], cex[j].inputs)
  }

  /** checkCounterExample */
  ghost predicate Checks(tr: TransitionRelation, init: set<Cube>, c: Cube, cex: seq<CexStep>) {
    exists ws :: Simulates(tr, init, c, cex, ws)
  }

  lemma OneStepChecks(tr: TransitionRelation, init: set<Cube>, c: Cube, step: CexStep, v: Valuation)
    requires tr.WellFormed() && Init(tr, init, v) && SatCube(v, c)
    requires step.state == StateOf(tr, v) && step.inputs == LiteralsOf(tr.inputs, v)
    ensures Checks(tr, init, c, [step])
  {
    OwnState(tr, v);
    assert Simulates(tr, init, c, [step], [v]);
  }

  lemma OwnState(tr: TransitionRelation, v: Valuation)
    requires tr.WellFormed()
    ensures SatCube(v, StateOf(tr, v)) && SatAll(v, LiteralsOf(tr.inputs, v))
  {
    LatchesPlain(tr);
    InputsPlain(tr);
    StateLiterals(tr, v);
    OwnLiterals(tr.LatchIDs(), v);
    OwnLiterals(tr.inputs, v);
    assert SatAll(v, Lits(StateOf(tr, v)));
  }

  // ----- rounds at level 1 -----

  /** The target's predecessor is a state of frame 0, and the target has the inputs of
      its successor. */
  ghost predicate PrecedesTarget(tr: TransitionRelation, m: Trace, target: Cube, o: ProofObligation, pinp: set<ID>,
                                 v: Valuation, w: Valuation) {
    && tr.Step(v, w) && Avoids(v, FrameCubes(m, Fin(0))) && SatCube(w, target)
    && o.concreteState == StateOf(tr, v) && o.inputs == LiteralsOf(tr.inputs, v) && pinp == LiteralsOf(tr.inputs, w)
  }

  /** With the target at level 1 there is one obligation besides it at the most, and
      that ends the run. */
  ghost predicate AtLevelOne(tr: TransitionRelation, m: Trace, target: Cube, w: Work) {
    && m.Keys <= w.levels.Keys && (forall j | j in w.queue :: j < |w.pool|)
    && 1 <= |w.pool| <= 2 && w.pool[0].cti == target && w.pool[0].level == 1 && w.pool[0].parent.None?
    && w.pool[0].concreteState == []
    && (|w.pool| == 1 ==> w.pool[0].inputs == {})
    && (|w.pool| == 2 ==>
          && 1 in w.queue && w.pool[1].level == 0 && w.pool[1].parent == Some(0)
          && exists v, x :: PrecedesTarget(tr, m, target, w.pool[1], w.pool[0].inputs, v, x))
  }

  lemma FrameZero(m: Trace, n: Trace, v: Valuation)
    requires m.Keys <= n.Keys && Avoids(v, FrameCubes(n, Fin(0)))
    ensures Avoids(v, FrameCubes(m, Fin(0)))
  {
    forall c | c in FrameCubes(m, Fin(0))
      ensures c in FrameCubes(n, Fin(0))
    {
      assert c in n.Keys;
    }
  }

  lemma DescendAtOne(tr: TransitionRelation, m: Trace, target: Cube, a: Work, t: Cube, conc: Cube, inp: set<ID>, pinp: set<ID>,
                     b: Work)
    requires AtLevelOne(tr, m, target, a) && |a.pool| == 1 && Descends(tr, a, 0, t, conc, inp, pinp, b)
    ensures AtLevelOne(tr, m, target, b)
  {
    var v, w :| tr.Step(v, w) && Avoids(v, FrameCubes(a.levels, Fin(0))) && SatCube(v, t) && SatCube(w, target)
             && conc == StateOf(tr, v) && inp == LiteralsOf(tr.inputs, v) && pinp == LiteralsOf(tr.inputs, w);
    FrameZero(m, a.levels, v);
    assert PrecedesTarget(tr, m, target, b.pool[1], b.pool[0].inputs, v, w);
  }

  lemma OnlyTarget(tr: TransitionRelation, m: Trace, target: Cube, a: Work, i: nat)
    requires AtLevelOne(tr, m, target, a) && First(a, i) && a.pool[i].level > 0
    ensures i == 0 && |a.pool| == 1
  {
    if |a.pool| == 2 {
      assert false;
    }
  }

  lemma NextAtOne(tr: TransitionRelation, init: set<Cube>, repaired: bool, m: Trace, target: Cube, a: Work, b: Work)
    requires AtLevelOne(tr, m, target, a) && NextWork(tr, init, repaired, 1, a, b)
    ensures AtLevelOne(tr, m, target, b)
  {
    NextIs(tr, init, repaired, 1, a, b, 1);
    var i: nat :| TakesFirst(tr, init, repaired, 1, a, i, b);
    AttendsIs(tr, init, repaired, 1, a, i, b, 1);
    OnlyTarget(tr, m, target, a, i);
    if t, conc, inp, pinp :| Descends(tr, a, 0, t, conc, inp, pinp, b) {
      DescendAtOne(tr, m, target, a, t, conc, inp, pinp, b);
    }
  }

  lemma {:induction false} RunAtOne(tr: TransitionRelation, init: set<Cube>, repaired: bool, m: Trace, target: Cube,
                                    run: seq<Work>, k: nat)
    requires k < |run| && BlockRun(tr, init, repaired, target, 1, m, run, run[|run| - 1])
    ensures AtLevelOne(tr, m, target, run[k])
  {
    if k > 0 {
      RunAtOne(tr, init, repaired, m, target, run, k - 1);
      NextAtOne(tr, init, repaired, m, target, run[k - 1], run[k]);
    }
  }

  // ----- rounds at any level -----

  /** The target stays where it is, and what was created for it has at least the level
      below. */
  ghost predicate BelowTarget(top: nat, w: Work) {
    && w.pool != [] && w.pool[0].level == top && w.pool[0].parent.None?
    && forall i | 0 < i < |w.pool| ::
         && w.pool[i].parent.Some? && w.pool[i].parent.value < i
         && (w.pool[i].parent.value == 0 ==> w.pool[i].level + 1 >= top)
  }

  lemma NextBelow(tr: TransitionRelation, init: set<Cube>, repaired: bool, top: nat, a: Work, b: Work)
    requires BelowTarget(top, a) && NextWork(tr, init, repaired, top, a, b)
    ensures BelowTarget(top, b)
  {
    NextIs(tr, init, repaired, top, a, b, top);
    var i: nat :| TakesFirst(tr, init, repaired, top, a, i, b);
    AttendsIs(tr, init, repaired, top, a, i, b, top);
    if t :| Learns(tr, init, repaired, top, a, i, t, b) {
      PromoteBelow(top, a, i, b);
    } else if t, conc, inp, pinp :| Descends(tr, a, i, t, conc, inp, pinp, b) {
      ExtendBelow(top, a, i, pinp, Preceding(a.pool[i], i, t, conc, inp), b);
    }
  }

  lemma PromoteBelow(top: nat, a: Work, i: nat, b: Work)
    requires BelowTarget(top, a) && i < |a.pool| && b.pool == Promote(a.pool, i, top)
    ensures BelowTarget(top, b)
  {
  }

  lemma ExtendBelow(top: nat, a: Work, i: nat, pinp: set<ID>, o: ProofObligation, b: Work)
    requires BelowTarget(top, a) && i < |a.pool| && b.pool == Extend(a.pool, i, pinp, o)
    requires o.parent == Some(i) && o.level + 1 == a.pool[i].level
    ensures BelowTarget(top, b)
  {
  }

  lemma {:induction false} RunBelow(tr: TransitionRelation, init: set<Cube>, repaired: bool, target: Cube, top: nat, m: Trace,
                                    run: seq<Work>, k: nat)
    requires k < |run| && BlockRun(tr, init, repaired, target, top, m, run, run[|run| - 1])
    ensures BelowTarget(top, run[k])
  {
    if k > 0 {
      RunBelow(tr, init, repaired, target, top, m, run, k - 1);
      NextBelow(tr, init, repaired, top, run[k - 1], run[k]);
    }
  }

  /** A counterexample of two steps comes from a round at level 1, and passes. */
  lemma TwoStepsCheck(tr: TransitionRelation, init: set<Cube>, tainted: set<Cube>, repaired: bool, target: Cube, top: nat,
                      m: Trace, run: seq<Work>, end: Work, cex: seq<CexStep>)
    requires SolverOk(tr, init, m, tainted) && top > 0
    requires RunTo(tr, init, repaired, target, top, m, run, end) && RunEnds(end, cex) && |cex| <= 2
    ensures Checks(tr, init, target, cex)
  {
    RunIs(tr, init, repaired, target, top, m, run, end, top);
    RunBelow(tr, init, repaired, target, top, m, run, |run| - 1);
    var i: nat :| EndsIn(end, i, cex);
    assert i > 0;
    var p := end.pool[i].parent.value;
    assert Chain(end.pool, i) == [CexStep(end.pool[i].inputs, end.pool[i].concreteState)] + Chain(end.pool, p);
    assert p == 0;
    RunAtOne(tr, init, repaired, m, target, run, |run| - 1);
    var v, x :| PrecedesTarget(tr, m, target, end.pool[1], end.pool[0].inputs, v, x);
    SolverOkIs(tr, init, m, tainted);
    ZeroFrameIsInit(tr, init, m, v);
    OwnState(tr, v);
    OwnState(tr, x);
    assert cex == [CexStep(end.pool[1].inputs, end.pool[1].concreteState), CexStep(end.pool[0].inputs, [])];
    assert Simulates(tr, init, target, cex, [v, x]);
  }

  // ----- the inputs of longer counterexamples -----

  /** From the first state, the inputs of all steps lead into the cube. */
  ghost predicate Follows(tr: TransitionRelation, init: set<Cube>, c: Cube, cex: seq<CexStep>, ws: seq<Valuation>) {
    && |ws| == |cex| > 0 && Init(tr, init, ws[0]) && StateOf(tr, ws[0]) == cex[0].state && SatCube(ws[|ws| - 1], c)
    && (forall j | 0 < j < |ws| :: tr.Step(ws[j - 1], ws[j]))
    && forall j | 0 <= j < |ws| :: SatAll(ws[j], cex[j].inputs)
  }

  /** The last obligation before the target. */
  function LastBefore(pool: Pool, i: nat): (l: nat)
    requires i < |pool|
  {
    match pool[i].parent
    case Some(p) => if 0 < p < i then LastBefore(pool, p) else i
    case None => i
  }

  /** The states of o, under its inputs and these of the next time frame, step into
      succ. */
  ghost predicate LeadsBy(tr: TransitionRelation, inf: set<Cube>, o: ProofObligation, pinp: set<ID>, succ: Cube) {
    && OverLatches(tr, o.cti)
    && exists v, w ::
         && o.inputs == LiteralsOf(tr.inputs, v) && pinp == LiteralsOf(tr.inputs, w)
         && Leads(tr, inf, o.cti, o.inputs, pinp, succ)
  }

  ghost predicate LeadsOn(tr: TransitionRelation, inf: set<Cube>, pool: Pool, i: nat)
    requires i < |pool|
  {
    && pool[i].parent.Some? && pool[i].parent.value < i
    && OverLatches(tr, pool[i].cti) && StepsInto(tr, inf, pool[i], pool[pool[i].parent.value].cti)
  }

  /** Every obligation leads to its parent; the first one made for the target leads to
      it by the inputs that the target has. */
  ghost predicate Leading(tr: TransitionRelation, inf: set<Cube>, pool: Pool) {
    && pool != [] && pool[0].parent.None?
    && (forall i | 0 < i < |pool| :: LeadsOn(tr, inf, pool, i))
    && (|pool| == 1 ==> pool[0].inputs == {})
    && (|pool| > 1 ==> LeadsBy(tr, inf, pool[1], pool[0].inputs, pool[0].cti))
  }

  lemma NoInputs(tr: TransitionRelation, a: Valuation, b: Valuation)
    ensures LiteralsOf(tr.inputs, a) == {} ==> LiteralsOf(tr.inputs, b) == {}
  {
    NoLiterals(tr.inputs, a);
    NoLiterals(tr.inputs, b);
  }

  /** Inputs are filled in only for the first predecessor of the target. */
  lemma FilledOnce(tr: TransitionRelation, inf: set<Cube>, pool: Pool, i: nat, w: Valuation)
    requires Leading(tr, inf, pool) && i < |pool| && |pool| > 1 && pool[i].inputs == {}
    ensures LiteralsOf(tr.inputs, w) == {}
  {
    if i == 0 {
      var a, b :| pool[1].inputs == LiteralsOf(tr.inputs, a) && pool[0].inputs == LiteralsOf(tr.inputs, b)
               && Leads(tr, inf, pool[1].cti, pool[1].inputs, pool[0].inputs, pool[0].cti);
      NoInputs(tr, b, w);
    } else {
      assert LeadsOn(tr, inf, pool, i);
      var a, b :| pool[i].inputs == LiteralsOf(tr.inputs, a)
               && Leads(tr, inf, pool[i].cti, pool[i].inputs, LiteralsOf(tr.inputs, b), pool[pool[i].parent.value].cti);
      NoInputs(tr, a, w);
    }
  }

  lemma ExtendLeading(tr: TransitionRelation, inf: set<Cube>, pool: Pool, i: nat, pinp: set<ID>, o: ProofObligation,
                      v: Valuation, w: Valuation)
    requires Leading(tr, inf, pool) && i < |pool| && o.parent == Some(i) && OverLatches(tr, o.cti)
    requires o.inputs == LiteralsOf(tr.inputs, v) && pinp == LiteralsOf(tr.inputs, w)
    requires Leads(tr, inf, o.cti, o.inputs, pinp, pool[i].cti)
    ensures Leading(tr, inf, Extend(pool, i, pinp, o))
  {
    assert StepsInto(tr, inf, o, pool[i].cti);
    if |pool| == 1 {
      assert LeadsBy(tr, inf, o, pinp, pool[0].cti);
      assert LeadsOn(tr, inf, Extend(pool, i, pinp, o), 1);
    } else {
      if pool[i].inputs == {} {
        FilledOnce(tr, inf, pool, i, w);
      }
      assert Extend(pool, i, pinp, o) == pool + [o];
      MoreLeading(tr, inf, pool, o);
    }
  }

  lemma MoreLeading(tr: TransitionRelation, inf: set<Cube>, pool: Pool, o: ProofObligation)
    requires Leading(tr, inf, pool) && |pool| > 1 && o.parent.Some? && o.parent.value < |pool| && OverLatches(tr, o.cti)
    requires StepsInto(tr, inf, o, pool[o.parent.value].cti)
    ensures Leading(tr, inf, pool + [o])
  {
    var after := pool + [o];
    forall j | 0 < j < |after|
      ensures LeadsOn(tr, inf, after, j)
    {
      if j < |pool| {
        assert LeadsOn(tr, inf, pool, j);
      }
    }
  }

  lemma PromoteLeading(tr: TransitionRelation, inf: set<Cube>, pool: Pool, i: nat, top: nat)
    requires Leading(tr, inf, pool) && i < |pool|
    ensures Leading(tr, inf, Promote(pool, i, top))
  {
    var after := Promote(pool, i, top);
    forall j | 0 < j < |after|
      ensures LeadsOn(tr, inf, after, j)
    {
      assert LeadsOn(tr, inf, pool, j);
      var v, w :| pool[j].inputs == LiteralsOf(tr.inputs, v)
               && Leads(tr, inf, pool[j].cti, pool[j].inputs, LiteralsOf(tr.inputs, w), pool[pool[j].parent.value].cti);
    }
    if |pool| > 1 {
      var v, w :| pool[1].inputs == LiteralsOf(tr.inputs, v) && pool[0].inputs == LiteralsOf(tr.inputs, w)
               && Leads(tr, inf, pool[1].cti, pool[1].inputs, pool[0].inputs, pool[0].cti);
    }
  }

  lemma NextLeading(tr: TransitionRelation, init: set<Cube>, repaired: bool, top: nat, inf: set<Cube>, a: Work, b: Work)
    requires NextWork(tr, init, repaired, top, a, b) && Leading(tr, inf, a.pool) && FrameCubes(a.levels, Inf) == inf
    ensures Leading(tr, inf, b.pool) && FrameCubes(b.levels, Inf) == inf && b.pool[0].cti == a.pool[0].cti
  {
    NextIs(tr, init, repaired, top, a, b, top);
    var i: nat :| TakesFirst(tr, init, repaired, top, a, i, b);
    AttendsIs(tr, init, repaired, top, a, i, b, top);
    if t :| Learns(tr, init, repaired, top, a, i, t, b) {
      BlockingIsNew(a.levels, a.pool[i].cti, a.pool[i].level, t);
      SameInfinity(a.levels, t, a.pool[i].level);
      PromoteLeading(tr, inf, a.pool, i, top);
    } else if t, conc, inp, pinp :| Descends(tr, a, i, t, conc, inp, pinp, b) {
      DescendLeading(tr, inf, a, i, t, conc, inp, pinp, b);
    }
  }

  lemma SameInfinity(m: Trace, t: Cube, level: nat)
    requires t in m ==> Le(m[t], Fin(level))
    ensures FrameCubes(m[t := Fin(level)], Inf) == FrameCubes(m, Inf)
  {
  }

  lemma DescendLeading(tr: TransitionRelation, inf: set<Cube>, a: Work, i: nat, t: Cube, conc: Cube, inp: set<ID>,
                       pinp: set<ID>, b: Work)
    requires i < |a.pool| && a.pool[i].level > 0 && Descends(tr, a, i, t, conc, inp, pinp, b)
    requires Leading(tr, inf, a.pool) && FrameCubes(a.levels, Inf) == inf
    ensures Leading(tr, inf, b.pool) && b.pool[0].cti == a.pool[0].cti
  {
    var v, w :| tr.Step(v, w) && Avoids(v, FrameCubes(a.levels, Fin(a.pool[i].level - 1))) && SatCube(v, t)
             && SatCube(w, a.pool[i].cti) && conc == StateOf(tr, v) && inp == LiteralsOf(tr.inputs, v)
             && pinp == LiteralsOf(tr.inputs, w);
    ExtendLeading(tr, inf, a.pool, i, pinp, Preceding(a.pool[i], i, t, conc, inp), v, w);
  }

  lemma {:induction false} RunLeading(tr: TransitionRelation, init: set<Cube>, repaired: bool, target: Cube, top: nat, m: Trace,
                                      run: seq<Work>, k: nat)
    requires k < |run| && BlockRun(tr, init, repaired, target, top, m, run, run[|run| - 1])
    ensures Leading(tr, FrameCubes(m, Inf), run[k].pool) && FrameCubes(run[k].levels, Inf) == FrameCubes(m, Inf)
    ensures run[k].pool[0].cti == target
  {
    if k > 0 {
      RunLeading(tr, init, repaired, target, top, m, run, k - 1);
      NextLeading(tr, init, repaired, top, FrameCubes(m, Inf), run[k - 1], run[k]);
    }
  }

  /** An obligation at level 0 was found in a state of frame 0. */
  ghost predicate Grounded(tr: TransitionRelation, m: Trace, o: ProofObligation) {
    exists v :: tr.Frame(v) && Avoids(v, FrameCubes(m, Fin(0))) && SatCube(v, o.cti) && o.concreteState == StateOf(tr, v)
  }

  ghost predicate AllGrounded(tr: TransitionRelation, m: Trace, w: Work) {
    && m.Keys <= w.levels.Keys
    && forall i | 0 < i < |w.pool| && w.pool[i].level == 0 :: Grounded(tr, m, w.pool[i])
  }

  lemma DescendGrounded(tr: TransitionRelation, m: Trace, a: Work, i: nat, t: Cube, conc: Cube, inp: set<ID>, pinp: set<ID>,
                        b: Work)
    requires i < |a.pool| && a.pool[i].level > 0 && Descends(tr, a, i, t, conc, inp, pinp, b) && AllGrounded(tr, m, a)
    ensures AllGrounded(tr, m, b)
  {
    if a.pool[i].level == 1 {
      var v, w :| tr.Step(v, w) && Avoids(v, FrameCubes(a.levels, Fin(0))) && SatCube(v, t) && SatCube(w, a.pool[i].cti)
               && conc == StateOf(tr, v) && inp == LiteralsOf(tr.inputs, v) && pinp == LiteralsOf(tr.inputs, w);
      FrameZero(m, a.levels, v);
      assert Grounded(tr, m, Preceding(a.pool[i], i, t, conc, inp));
    }
  }

  lemma {:induction false} RunGrounded(tr: TransitionRelation, init: set<Cube>, repaired: bool, target: Cube, top: nat, m: Trace,
                                       run: seq<Work>, k: nat)
    requires k < |run| && BlockRun(tr, init, repaired, target, top, m, run, run[|run| - 1])
    ensures AllGrounded(tr, m, run[k])
  {
    if k > 0 {
      RunGrounded(tr, init, repaired, target, top, m, run, k - 1);
      NextGrounded(tr, init, repaired, top, m, run[k - 1], run[k]);
    }
  }

  lemma NextGrounded(tr: TransitionRelation, init: set<Cube>, repaired: bool, top: nat, m: Trace, a: Work, b: Work)
    requires NextWork(tr, init, repaired, top, a, b) && AllGrounded(tr, m, a)
    ensures AllGrounded(tr, m, b)
  {
    NextIs(tr, init, repaired, top, a, b, top);
    var i: nat :| TakesFirst(tr, init, repaired, top, a, i, b);
    AttendsIs(tr, init, repaired, top, a, i, b, top);
    if t, conc, inp, pinp :| Descends(tr, a, i, t, conc, inp, pinp, b) {
      DescendGrounded(tr, m, a, i, t, conc, inp, pinp, b);
    }
  }

  /** Steps along the chain by the inputs of all its obligations. */
  ghost predicate Along(tr: TransitionRelation, c: Cube, cex: seq<CexStep>, ws: seq<Valuation>) {
    && |ws| == |cex| > 0 && SatCube(ws[|ws| - 1], c) && (forall j | 0 < j < |ws| :: tr.Step(ws[j - 1], ws[j]))
    && forall j | 0 <= j < |ws| :: SatAll(ws[j], cex[j].inputs)
  }

  lemma AlongBefore(tr: TransitionRelation, c: Cube, step: CexStep, cex: seq<CexStep>, x: Valuation, ws: seq<Valuation>)
    requires Along(tr, c, cex, ws) && SatAll(x, step.inputs) && tr.Step(x, ws[0])
    ensures Along(tr, c, [step] + cex, [x] + ws)
  {
    var more := [x] + ws;
    forall j | 0 < j < |more|
      ensures tr.Step(more[j - 1], more[j])
    {
      if j > 1 {
        assert more[j] == ws[j - 1] && more[j - 1] == ws[j - 2];
      }
    }
  }

  /** The step from the first obligation made for the target. */
  lemma FirstFollows(tr: TransitionRelation, init: set<Cube>, m: Trace, tainted: set<Cube>, pool: Pool, v: Valuation, n: nat)
    returns (ws: seq<Valuation>)
    requires SolverOk(tr, init, m, tainted) && Leading(tr, FrameCubes(m, Inf), pool) && |pool| > 1
    requires pool[1].parent == Some(0) && ReachedIn(tr, init, v, n) && SatCube(v, pool[1].cti)
    ensures Along(tr, pool[0].cti, Chain(pool, 1), ws) && SameState(tr, v, ws[0]) && ReachedIn(tr, init, ws[0], n)
  {
    var a, b :| pool[1].inputs == LiteralsOf(tr.inputs, a) && pool[0].inputs == LiteralsOf(tr.inputs, b)
             && Leads(tr, FrameCubes(m, Inf), pool[1].cti, pool[1].inputs, pool[0].inputs, pool[0].cti);
    InfReached(tr, init, m, tainted);
    SolverOkIs(tr, init, m, tainted);
    var x, w := ReachedBy(tr, init, FrameCubes(m, Inf), pool[1], a, b, pool[0].cti, v, n);
    ws := [x, w];
  }

  /** One step before the rest of the chain. */
  lemma ParentFollows(tr: TransitionRelation, pool: Pool, i: nat, p: nat, x: Valuation, w: Valuation, ws: seq<Valuation>)
    requires p < i < |pool| && pool[i].parent == Some(p) && Along(tr, pool[0].cti, Chain(pool, p), ws)
    requires SatAll(x, pool[i].inputs) && tr.Step(x, w) && SameState(tr, w, ws[0]) && tr.Frame(ws[0])
    ensures Along(tr, pool[0].cti, Chain(pool, i), [x] + ws)
  {
    var step := CexStep(pool[i].inputs, pool[i].concreteState);
    assert tr.Step(x, ws[0]);
    AlongBefore(tr, pool[0].cti, step, Chain(pool, p), x, ws);
    assert Chain(pool, i) == [step] + Chain(pool, p);
  }

  lemma {:induction false} ChainFollows(tr: TransitionRelation, init: set<Cube>, m: Trace, tainted: set<Cube>, pool: Pool,
                                        i: nat, v: Valuation, n: nat) returns (ws: seq<Valuation>)
    requires SolverOk(tr, init, m, tainted) && Leading(tr, FrameCubes(m, Inf), pool)
    requires 0 < i < |pool| && LastBefore(pool, i) == 1 && ReachedIn(tr, init, v, n) && SatCube(v, pool[i].cti)
    ensures Along(tr, pool[0].cti, Chain(pool, i), ws) && SameState(tr, v, ws[0]) && ReachedIn(tr, init, ws[0], n)
    decreases i
  {
    assert LeadsOn(tr, FrameCubes(m, Inf), pool, i);
    var p := pool[i].parent.value;
    if p == 0 {
      ws := FirstFollows(tr, init, m, tainted, pool, v, n);
    } else {
      var x, w := ParentContinues(tr, init, m, tainted, pool[i], pool[p].cti, v, n);
      var rest := ChainFollows(tr, init, m, tainted, pool, p, w, n + 1);
      ParentFollows(tr, pool, i, p, x, w, rest);
      ws := [x] + rest;
    }
  }

  /** When the chain comes to the target from the first obligation that was made for it,
      the inputs of all steps are right, the last ones too. */
  lemma FirstPredecessorFollows(tr: TransitionRelation, init: set<Cube>, tainted: set<Cube>, repaired: bool, target: Cube,
                                top: nat, m: Trace, run: seq<Work>, end: Work, i: nat, cex: seq<CexStep>)
    returns (ws: seq<Valuation>)
    requires SolverOk(tr, init, m, tainted) && top > 0
    requires RunTo(tr, init, repaired, target, top, m, run, end) && EndsIn(end, i, cex) && LastBefore(end.pool, i) == 1
    ensures Follows(tr, init, target, cex, ws) && AllFull(tr, cex)
  {
    RunIs(tr, init, repaired, target, top, m, run, end, top);
    RunLeading(tr, init, repaired, target, top, m, run, |run| - 1);
    RunGrounded(tr, init, repaired, target, top, m, run, |run| - 1);
    RunBelow(tr, init, repaired, target, top, m, run, |run| - 1);
    var v := GroundState(tr, init, m, tainted, end.pool[i]);
    ws := ChainFollows(tr, init, m, tainted, end.pool, i, v, 0);
    ChainFull(tr, FrameCubes(m, Inf), end.pool, i);
    SameStateOf(tr, v, ws[0]);
  }

  lemma GroundState(tr: TransitionRelation, init: set<Cube>, m: Trace, tainted: set<Cube>, o: ProofObligation)
    returns (v: Valuation)
    requires SolverOk(tr, init, m, tainted) && Grounded(tr, m, o)
    ensures ReachedIn(tr, init, v, 0) && SatCube(v, o.cti) && o.concreteState == StateOf(tr, v)
  {
    v :| tr.Frame(v) && Avoids(v, FrameCubes(m, Fin(0))) && SatCube(v, o.cti) && o.concreteState == StateOf(tr, v);
    SolverOkIs(tr, init, m, tainted);
    ZeroFrameIsInit(tr, init, m, v);
  }

  // ----- which longer counterexamples pass -----

  /** A value for every input. */
  ghost predicate FullInputs(tr: TransitionRelation, inputs: set<ID>) {
    exists v :: inputs == LiteralsOf(tr.inputs, v)
  }

  ghost predicate AllFull(tr: TransitionRelation, cex: seq<CexStep>) {
    forall j | 0 <= j < |cex| :: FullInputs(tr, cex[j].inputs)
  }

  lemma {:induction false} ChainFull(tr: TransitionRelation, inf: set<Cube>, pool: Pool, i: nat)
    requires Leading(tr, inf, pool) && i < |pool| && |pool| > 1
    ensures AllFull(tr, Chain(pool, i))
    decreases i
  {
    if i == 0 {
      var v, w :| pool[1].inputs == LiteralsOf(tr.inputs, v) && pool[0].inputs == LiteralsOf(tr.inputs, w)
               && Leads(tr, inf, pool[1].cti, pool[1].inputs, pool[0].inputs, pool[0].cti);
      assert FullInputs(tr, pool[0].inputs);
    } else {
      assert LeadsOn(tr, inf, pool, i);
      var p := pool[i].parent.value;
      var v, w :| pool[i].inputs == LiteralsOf(tr.inputs, v)
               && Leads(tr, inf, pool[i].cti, pool[i].inputs, LiteralsOf(tr.inputs, w), pool[p].cti);
      assert FullInputs(tr, pool[i].inputs);
      ChainFull(tr, inf, pool, p);
    }
  }

  lemma SameFrame(tr: TransitionRelation, v: Valuation, w: Valuation, inputs: set<ID>)
    requires tr.WellFormed() && tr.Frame(v) && tr.Frame(w) && SameState(tr, v, w)
    requires FullInputs(tr, inputs) && SatAll(v, inputs) && SatAll(w, inputs)
    ensures v == w
  {
    var a :| inputs == LiteralsOf(tr.inputs, a);
    InputsPlain(tr);
    SameLiterals(tr.inputs, a, v);
    SameLiterals(tr.inputs, a, w);
    SameLeaves(tr, v, w);
    FrameUnique(tr, v, w);
  }

  /** The first state and full inputs determine the execution. */
  lemma {:induction false} OneExecution(tr: TransitionRelation, cex: seq<CexStep>, vs: seq<Valuation>, ws: seq<Valuation>, k: nat)
    requires tr.WellFormed() && k < |vs| == |ws| == |cex| && SameState(tr, vs[0], ws[0]) && tr.Frame(vs[0]) && tr.Frame(ws[0])
    requires forall j | 0 < j < |ws| :: tr.Step(vs[j - 1], vs[j]) && tr.Step(ws[j - 1], ws[j])
    requires forall j | 0 <= j < |ws| ::
      FullInputs(tr, cex[j].inputs) && SatAll(vs[j], cex[j].inputs) && SatAll(ws[j], cex[j].inputs)
    ensures vs[k] == ws[k]
  {
    if k > 0 {
      OneExecution(tr, cex, vs, ws, k - 1);
      assert tr.Step(vs[k - 1], vs[k]) && tr.Step(ws[k - 1], ws[k]);
    }
    SameFrame(tr, vs[k], ws[k], cex[k].inputs);
  }

  /** With the right inputs a counterexample passes the check if and only if the states
      that it lists are those of the execution. */
  lemma ChecksExactly(tr: TransitionRelation, init: set<Cube>, c: Cube, cex: seq<CexStep>, ws: seq<Valuation>)
    requires tr.WellFormed() && Follows(tr, init, c, cex, ws) && AllFull(tr, cex)
    ensures Checks(tr, init, c, cex) <==> forall j | 0 <= j < |cex| :: SatCube(ws[j], cex[j].state)
  {
    if vs :| Simulates(tr, init, c, cex, vs) {
      SameFirst(tr, ws[0], vs[0]);
      forall j | 0 <= j < |cex|
        ensures SatCube(ws[j], cex[j].state)
      {
        OneExecution(tr, cex, vs, ws, j);
      }
    }
    if forall j | 0 <= j < |cex| :: SatCube(ws[j], cex[j].state) {
      assert Simulates(tr, init, c, cex, ws);
    }
  }

  lemma SameFirst(tr: TransitionRelation, v: Valuation, w: Valuation)
    requires tr.WellFormed() && SatCube(w, StateOf(tr, v))
    ensures SameState(tr, w, v)
  {
    StateLiterals(tr, v);
    LatchesPlain(tr);
    assert SatAll(w, Lits(StateOf(tr, v)));
    SameLiterals(tr.LatchIDs(), v, w);
  }

  ghost predicate InputsFollow(tr: TransitionRelation, init: set<Cube>, c: Cube, cex: seq<CexStep>) {
    exists ws :: Follows(tr, init, c, cex, ws)
  }

  /** What is promised of a counterexample besides that it replays. */
  ghost predicate Promised(tr: TransitionRelation, init: set<Cube>, c: Cube, w: Work, i: nat, cex: seq<CexStep>) {
    && EndsIn(w, i, cex)
    && (|cex| <= 2 ==> Checks(tr, init, c, cex))
    && (LastBefore(w.pool, i) == 1 ==> InputsFollow(tr, init, c, cex))
  }

  ghost predicate FoundBy(tr: TransitionRelation, init: set<Cube>, c: Cube, w: Work, cex: seq<CexStep>) {
    exists i: nat :: Promised(tr, init, c, w, i, cex)
  }

  lemma RunPromises(tr: TransitionRelation, init: set<Cube>, tainted: set<Cube>, repaired: bool, target: Cube,
                    top: nat, m: Trace, run: seq<Work>, end: Work, cex: seq<CexStep>)
    requires SolverOk(tr, init, m, tainted) && top > 0
    requires RunTo(tr, init, repaired, target, top, m, run, end) && RunEnds(end, cex)
    ensures FoundBy(tr, init, target, end, cex)
  {
    var i: nat :| EndsIn(end, i, cex);
    if |cex| <= 2 {
      TwoStepsCheck(tr, init, tainted, repaired, target, top, m, run, end, cex);
    }
    if LastBefore(end.pool, i) == 1 {
      var ws := FirstPredecessorFollows(tr, init, tainted, repaired, target, top, m, run, end, i, cex);
    }
    assert Promised(tr, init, target, end, i, cex);
  }

  /** The counterexample is found in the round that follows s. */
  ghost predicate FoundAfter(tr: TransitionRelation, init: set<Cube>, repaired: bool, target: Cube, s: Stage, cex: seq<CexStep>) {
    exists run, end :: RunTo(tr, init, repaired, target, s.k, s.levels, run, end) && FoundBy(tr, init, target, end, cex)
  }

  lemma FoundChecks(tr: TransitionRelation, init: set<Cube>, repaired: bool, target: Cube, s: Stage, cex: seq<CexStep>)
    requires FoundAfter(tr, init, repaired, target, s, cex) && |cex| <= 2
    ensures Checks(tr, init, target, cex)
  {
    var run, end :| RunTo(tr, init, repaired, target, s.k, s.levels, run, end) && FoundBy(tr, init, target, end, cex);
    var i: nat :| Promised(tr, init, target, end, i, cex);
  }
}
