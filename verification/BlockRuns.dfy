/** The runs of prove: what each obligation taken from the queue leads to, and what
    each round leaves to the next (src/pme/ic3/ic3_solver.cpp:190-334). */
module BlockRuns {
  import opened Collections
  import opened Ids
  import opened Cubes
  import opened TransitionRelations
  import opened InductiveTraces
  import opened TraceInvariants
  import opened FrameSolvers
  import opened UnsatCoreLifters
  import opened Generalizations
  import opened ProofObligations
  import opened Pushings

  /** The levels of the lemmas, all obligations so far, and those in the queue. */
  datatype Work = Work(levels: Trace, pool: Pool, queue: set<nat>)

  /** No queued obligation comes before this one. */
  predicate First(w: Work, i: nat) {
    i in w.queue && i < |w.pool| && forall j | j in w.queue :: j < |w.pool| && !Before(w.pool[j], w.pool[i])
  }

  /** A cube around a state of the frame below that steps into s, and the inputs of
      both time frames. */
  ghost predicate MayPrecede(tr: TransitionRelation, m: Trace, s: Cube, level: nat, t: Cube, conc: Cube,
                             inp: set<ID>, pinp: set<ID>)
    requires level > 0
  {
    && t != [] && Ascending(t) && OverLatches(tr, t) && Leads(tr, FrameCubes(m, Inf), t, inp, pinp, s)
    && exists v, w ::
         && tr.Step(v, w) && Avoids(v, FrameCubes(m, Fin(level - 1))) && SatCube(v, t) && SatCube(w, s)
         && conc == StateOf(tr, v) && inp == LiteralsOf(tr.inputs, v) && pinp == LiteralsOf(tr.inputs, w)
  }

  /** The obligation of a predecessor. */
  function Preceding(o: ProofObligation, i: nat, t: Cube, conc: Cube, inp: set<ID>): ProofObligation
    requires o.level > 0
  {
    ProofObligation(o.level - 1, t, conc, inp, 0, Some(i))
  }

  /** A lemma at the level already subsumes the obligation. */
  ghost predicate Drops(a: Work, i: nat, b: Work)
    requires i < |a.pool|
  {
    Subsumed(a.levels, a.pool[i].cti, a.pool[i].level) && b == a.(queue := a.queue - {i})
  }

  /** The obligation is blocked: the lemma is added at its level, and it comes back one
      level up, unless it is at the top. */
  ghost predicate Learns(tr: TransitionRelation, init: set<Cube>, repaired: bool, top: nat, a: Work, i: nat, t: Cube, b: Work)
    requires i < |a.pool| && a.pool[i].level > 0
  {
    var s, level := a.pool[i].cti, a.pool[i].level;
    && !Subsumed(a.levels, s, level) && SubCube(t, s)
    && MayBlock(tr, init, FrameCubes(a.levels, Fin(level - 1)), repaired, s, t)
    && b == Work(a.levels[t := Fin(level)], Promote(a.pool, i, top), Requeue(a.pool, a.queue, i, top))
  }

  /** The obligation has a predecessor, which is queued one level below. */
  ghost predicate Descends(tr: TransitionRelation, a: Work, i: nat, t: Cube, conc: Cube, inp: set<ID>, pinp: set<ID>, b: Work)
    requires i < |a.pool| && a.pool[i].level > 0
  {
    var s, level := a.pool[i].cti, a.pool[i].level;
    && !Subsumed(a.levels, s, level) && MayPrecede(tr, a.levels, s, level, t, conc, inp, pinp)
    && b == Work(a.levels, Extend(a.pool, i, pinp, Preceding(a.pool[i], i, t, conc, inp)), a.queue + {|a.pool|})
  }

  /** One of the three things happens to obligation i. */
  ghost predicate Attends(tr: TransitionRelation, init: set<Cube>, repaired: bool, top: nat, a: Work, i: nat, b: Work)
    requires i < |a.pool| && a.pool[i].level > 0
  {
    || Drops(a, i, b)
    || (exists t :: Learns(tr, init, repaired, top, a, i, t, b))
    || exists t, conc, inp, pinp :: Descends(tr, a, i, t, conc, inp, pinp, b)
  }

  /** The same, kept folded: the argument n does not matter. */
  ghost predicate AttendsFolded(tr: TransitionRelation, init: set<Cube>, repaired: bool, top: nat, a: Work, i: nat, b: Work, n: nat)
    requires i < |a.pool| && a.pool[i].level > 0
    decreases n
  {
    if n == 0 then Attends(tr, init, repaired, top, a, i, b) else AttendsFolded(tr, init, repaired, top, a, i, b, n - 1)
  }

  ghost predicate AttendsOk(tr: TransitionRelation, init: set<Cube>, repaired: bool, top: nat, a: Work, i: nat, b: Work)
    requires i < |a.pool| && a.pool[i].level > 0
  {
    AttendsFolded(tr, init, repaired, top, a, i, b, top)
  }

  lemma {:induction false} AttendsIs(tr: TransitionRelation, init: set<Cube>, repaired: bool, top: nat, a: Work, i: nat, b: Work,
                                     n: nat)
    requires i < |a.pool| && a.pool[i].level > 0
    ensures AttendsFolded(tr, init, repaired, top, a, i, b, n) <==> Attends(tr, init, repaired, top, a, i, b)
    decreases n
  {
    if n > 0 {
      AttendsIs(tr, init, repaired, top, a, i, b, n - 1);
    }
  }

  lemma DropAttends(tr: TransitionRelation, init: set<Cube>, repaired: bool, top: nat, a: Work, i: nat)
    requires i < |a.pool| && a.pool[i].level > 0 && Subsumed(a.levels, a.pool[i].cti, a.pool[i].level)
    ensures AttendsOk(tr, init, repaired, top, a, i, a.(queue := a.queue - {i}))
  {
    assert Drops(a, i, a.(queue := a.queue - {i}));
    AttendsIs(tr, init, repaired, top, a, i, a.(queue := a.queue - {i}), top);
  }

  lemma LearnAttends(tr: TransitionRelation, init: set<Cube>, repaired: bool, top: nat, a: Work, i: nat, t: Cube, b: Work)
    requires i < |a.pool| && a.pool[i].level > 0 && Learns(tr, init, repaired, top, a, i, t, b)
    ensures AttendsOk(tr, init, repaired, top, a, i, b)
  {
    AttendsIs(tr, init, repaired, top, a, i, b, top);
  }

  lemma DescendAttends(tr: TransitionRelation, init: set<Cube>, repaired: bool, top: nat, a: Work, i: nat, t: Cube, conc: Cube,
                       inp: set<ID>, pinp: set<ID>, b: Work, v: Valuation, w: Valuation)
    requires i < |a.pool| && a.pool[i].level > 0 && !Subsumed(a.levels, a.pool[i].cti, a.pool[i].level)
    requires t != [] && Ascending(t) && OverLatches(tr, t)
    requires Leads(tr, FrameCubes(a.levels, Inf), t, inp, pinp, a.pool[i].cti)
    requires tr.Step(v, w) && Avoids(v, FrameCubes(a.levels, Fin(a.pool[i].level - 1))) && SatCube(v, t)
    requires SatCube(w, a.pool[i].cti)
    requires conc == StateOf(tr, v) && inp == LiteralsOf(tr.inputs, v) && pinp == LiteralsOf(tr.inputs, w)
    requires b == Work(a.levels, Extend(a.pool, i, pinp, Preceding(a.pool[i], i, t, conc, inp)), a.queue + {|a.pool|})
    ensures AttendsOk(tr, init, repaired, top, a, i, b)
  {
    assert MayPrecede(tr, a.levels, a.pool[i].cti, a.pool[i].level, t, conc, inp, pinp);
    assert Descends(tr, a, i, t, conc, inp, pinp, b);
    AttendsIs(tr, init, repaired, top, a, i, b, top);
  }

  /** The first obligation is above level 0, and is attended to. */
  ghost predicate TakesFirst(tr: TransitionRelation, init: set<Cube>, repaired: bool, top: nat, a: Work, i: nat, b: Work) {
    First(a, i) && a.pool[i].level > 0 && AttendsOk(tr, init, repaired, top, a, i, b)
  }

  /** One step, kept folded: the argument n does not matter. */
  ghost predicate NextFolded(tr: TransitionRelation, init: set<Cube>, repaired: bool, top: nat, a: Work, b: Work, n: nat)
    decreases n
  {
    if n == 0 then exists i: nat :: TakesFirst(tr, init, repaired, top, a, i, b)
    else NextFolded(tr, init, repaired, top, a, b, n - 1)
  }

  ghost predicate NextWork(tr: TransitionRelation, init: set<Cube>, repaired: bool, top: nat, a: Work, b: Work) {
    NextFolded(tr, init, repaired, top, a, b, top)
  }

  lemma {:induction false} NextIs(tr: TransitionRelation, init: set<Cube>, repaired: bool, top: nat, a: Work, b: Work, n: nat)
    ensures NextFolded(tr, init, repaired, top, a, b, n) <==> exists i: nat :: TakesFirst(tr, init, repaired, top, a, i, b)
    decreases n
  {
    if n > 0 {
      NextIs(tr, init, repaired, top, a, b, n - 1);
    }
  }

  lemma FirstTaken(tr: TransitionRelation, init: set<Cube>, repaired: bool, top: nat, a: Work, i: nat, b: Work)
    requires First(a, i) && a.pool[i].level > 0 && AttendsOk(tr, init, repaired, top, a, i, b)
    ensures NextWork(tr, init, repaired, top, a, b)
  {
    assert TakesFirst(tr, init, repaired, top, a, i, b);
    NextIs(tr, init, repaired, top, a, b, top);
  }

  lemma DescendNext(tr: TransitionRelation, init: set<Cube>, repaired: bool, top: nat, a: Work, i: nat, t: Cube, conc: Cube,
                    inp: set<ID>, pinp: set<ID>, b: Work)
    requires First(a, i) && a.pool[i].level > 0 && Descends(tr, a, i, t, conc, inp, pinp, b)
    ensures NextWork(tr, init, repaired, top, a, b)
  {
    AttendsIs(tr, init, repaired, top, a, i, b, top);
    FirstTaken(tr, init, repaired, top, a, i, b);
  }

  lemma LearnNext(tr: TransitionRelation, init: set<Cube>, repaired: bool, top: nat, a: Work, i: nat, t: Cube, b: Work)
    requires First(a, i) && a.pool[i].level > 0 && Learns(tr, init, repaired, top, a, i, t, b)
    ensures NextWork(tr, init, repaired, top, a, b)
  {
    LearnAttends(tr, init, repaired, top, a, i, t, b);
    FirstTaken(tr, init, repaired, top, a, i, b);
  }

  /** A cube of one literal is blocked by itself. */
  lemma OneLiteralBlocked(tr: TransitionRelation, init: set<Cube>, f: set<Cube>, repaired: bool, x: ID)
    requires Consecution(tr, f, [x], [x]) && Initiated(tr, init, [x])
    ensures MayBlock(tr, init, f, repaired, [x], [x])
  {
    var one := [Attempt([x], 0)];
    assert TriedTo(tr, init, f, repaired, [x], one);
    assert OnePass(tr, init, f, repaired, [x], [x]);
    var path := [[x], [x]];
    assert Passed(tr, init, f, repaired, path) && Finished(path) && path[0] == [x] && path[|path| - 1] == [x];
    assert MayGeneralize(tr, init, f, repaired, [x], [x]);
    assert Answers(tr, f, [x], [x]);
  }

  lemma MayPrecedeBy(tr: TransitionRelation, m: Trace, s: Cube, level: nat, t: Cube, conc: Cube, inp: set<ID>, pinp: set<ID>,
                     v: Valuation, w: Valuation)
    requires level > 0 && t != [] && Ascending(t) && OverLatches(tr, t)
    requires FrameCubes(m, Inf) == {} && Leads(tr, {}, t, inp, pinp, s)
    requires tr.Step(v, w) && Avoids(v, FrameCubes(m, Fin(level - 1))) && SatCube(v, t) && SatCube(w, s)
    requires conc == StateOf(tr, v) && LiteralsOf(tr.inputs, v) == inp && LiteralsOf(tr.inputs, w) == pinp
    ensures MayPrecede(tr, m, s, level, t, conc, inp, pinp)
  {
  }

  /** At first only the target is queued. */
  function StartWork(m: Trace, target: Cube, top: nat): Work {
    Work(m, [ProofObligation(top, target, [], {}, 0, None)], {0})
  }

  /** A run that has come to w. */
  ghost predicate BlockRun(tr: TransitionRelation, init: set<Cube>, repaired: bool, target: Cube, top: nat, m: Trace,
                           run: seq<Work>, w: Work) {
    && run != [] && run[0] == StartWork(m, target, top) && run[|run| - 1] == w
    && forall k | 0 < k < |run| :: NextWork(tr, init, repaired, top, run[k - 1], run[k])
  }

  /** The same, kept folded: the argument n does not matter. */
  ghost predicate FoldedRun(tr: TransitionRelation, init: set<Cube>, repaired: bool, target: Cube, top: nat, m: Trace,
                            run: seq<Work>, w: Work, n: nat)
    decreases n
  {
    if n == 0 then BlockRun(tr, init, repaired, target, top, m, run, w)
    else FoldedRun(tr, init, repaired, target, top, m, run, w, n - 1)
  }

  ghost predicate RunTo(tr: TransitionRelation, init: set<Cube>, repaired: bool, target: Cube, top: nat, m: Trace,
                        run: seq<Work>, w: Work) {
    FoldedRun(tr, init, repaired, target, top, m, run, w, top)
  }

  lemma {:induction false} RunIs(tr: TransitionRelation, init: set<Cube>, repaired: bool, target: Cube, top: nat, m: Trace,
                                 run: seq<Work>, w: Work, n: nat)
    ensures FoldedRun(tr, init, repaired, target, top, m, run, w, n)
       <==> BlockRun(tr, init, repaired, target, top, m, run, w)
    decreases n
  {
    if n > 0 {
      RunIs(tr, init, repaired, target, top, m, run, w, n - 1);
    }
  }

  lemma RunStarts(tr: TransitionRelation, init: set<Cube>, repaired: bool, target: Cube, top: nat, m: Trace)
    ensures RunTo(tr, init, repaired, target, top, m, [StartWork(m, target, top)], StartWork(m, target, top))
  {
    RunIs(tr, init, repaired, target, top, m, [StartWork(m, target, top)], StartWork(m, target, top), top);
  }

  lemma RunNext(tr: TransitionRelation, init: set<Cube>, repaired: bool, target: Cube, top: nat, m: Trace, run: seq<Work>,
                a: Work, b: Work)
    requires RunTo(tr, init, repaired, target, top, m, run, a) && NextWork(tr, init, repaired, top, a, b)
    ensures RunTo(tr, init, repaired, target, top, m, run + [b], b)
  {
    RunIs(tr, init, repaired, target, top, m, run, a, top);
    var more := run + [b];
    forall k | 0 < k < |more|
      ensures NextWork(tr, init, repaired, top, more[k - 1], more[k])
    {
      if k < |run| {
        assert more[k] == run[k] && more[k - 1] == run[k - 1];
      }
    }
    RunIs(tr, init, repaired, target, top, m, more, b, top);
  }

  /** The run ends with an obligation at level 0, whose chain is the counterexample. */
  ghost predicate EndsIn(w: Work, i: nat, cex: seq<CexStep>) {
    First(w, i) && w.pool[i].level == 0 && cex == Chain(w.pool, i)
  }

  ghost predicate RunEnds(w: Work, cex: seq<CexStep>) {
    exists i: nat :: EndsIn(w, i, cex)
  }

  /** With the target blocked by itself at level 1 that is all that happens. */
  lemma TargetBlocked(tr: TransitionRelation, init: set<Cube>, repaired: bool, target: Cube, m: Trace)
    returns (run: seq<Work>, end: Work)
    requires !Subsumed(m, target, 1) && MayBlock(tr, init, FrameCubes(m, Fin(0)), repaired, target, target)
    ensures RunTo(tr, init, repaired, target, 1, m, run, end) && end.queue == {} && end.levels == m[target := Fin(1)]
  {
    var start := StartWork(m, target, 1);
    end := Work(m[target := Fin(1)], start.pool, {});
    CubeLessIrreflexive(target);
    LearnNext(tr, init, repaired, 1, start, 0, target, end);
    RunStarts(tr, init, repaired, target, 1, m);
    RunNext(tr, init, repaired, target, 1, m, [start], start, end);
    run := [start] + [end];
  }

  // ----- the rounds of prove -----

  /** The levels of the lemmas, and the level at which the target is blocked next. */
  datatype Stage = Stage(levels: Trace, k: nat)

  /** The target is not excluded for good, is blocked at level k, and the lemmas are
      pushed; the next round is one above the level that the target has then. */
  ghost predicate RoundWith(tr: TransitionRelation, init: set<Cube>, repaired: bool, target: Cube, a: Stage, run: seq<Work>,
                            end: Work, b: Stage) {
    && !Excludes(tr, FrameCubes(a.levels, Inf), target)
    && RunTo(tr, init, repaired, target, a.k, a.levels, run, end) && end.queue == {}
    && b.levels == Pushed(tr, end.levels, 1) && target in b.levels
    && (b.levels[target].Fin? ==> b.k == b.levels[target].k + 1)
  }

  ghost predicate OneRound(tr: TransitionRelation, init: set<Cube>, repaired: bool, target: Cube, a: Stage, b: Stage) {
    exists run, end :: RoundWith(tr, init, repaired, target, a, run, end, b)
  }

  ghost predicate AllRounds(tr: TransitionRelation, init: set<Cube>, repaired: bool, target: Cube, m: Trace,
                            stages: seq<Stage>, s: Stage) {
    && stages != [] && stages[0] == Stage(m, 1) && stages[|stages| - 1] == s
    && forall j | 0 < j < |stages| :: OneRound(tr, init, repaired, target, stages[j - 1], stages[j])
  }

  /** The same, kept folded: the argument n does not matter. */
  ghost predicate FoldedRounds(tr: TransitionRelation, init: set<Cube>, repaired: bool, target: Cube, m: Trace,
                               stages: seq<Stage>, s: Stage, n: nat)
    decreases n
  {
    if n == 0 then AllRounds(tr, init, repaired, target, m, stages, s)
    else FoldedRounds(tr, init, repaired, target, m, stages, s, n - 1)
  }

  /** Rounds that have come to s. */
  ghost predicate RoundsTo(tr: TransitionRelation, init: set<Cube>, repaired: bool, target: Cube, m: Trace,
                           stages: seq<Stage>, s: Stage) {
    FoldedRounds(tr, init, repaired, target, m, stages, s, s.k)
  }

  lemma {:induction false} RoundsAre(tr: TransitionRelation, init: set<Cube>, repaired: bool, target: Cube, m: Trace,
                                     stages: seq<Stage>, s: Stage, n: nat)
    ensures FoldedRounds(tr, init, repaired, target, m, stages, s, n)
       <==> AllRounds(tr, init, repaired, target, m, stages, s)
    decreases n
  {
    if n > 0 {
      RoundsAre(tr, init, repaired, target, m, stages, s, n - 1);
    }
  }

  lemma FirstStage(tr: TransitionRelation, init: set<Cube>, repaired: bool, target: Cube, m: Trace)
    ensures RoundsTo(tr, init, repaired, target, m, [Stage(m, 1)], Stage(m, 1))
  {
    RoundsAre(tr, init, repaired, target, m, [Stage(m, 1)], Stage(m, 1), 1);
  }

  lemma NextStage(tr: TransitionRelation, init: set<Cube>, repaired: bool, target: Cube, m: Trace, stages: seq<Stage>, a: Stage,
                  run: seq<Work>, end: Work, b: Stage)
    requires RoundsTo(tr, init, repaired, target, m, stages, a)
    requires RoundWith(tr, init, repaired, target, a, run, end, b)
    ensures RoundsTo(tr, init, repaired, target, m, stages + [b], b)
  {
    RoundsAre(tr, init, repaired, target, m, stages, a, a.k);
    var more := stages + [b];
    forall j | 0 < j < |more|
      ensures OneRound(tr, init, repaired, target, more[j - 1], more[j])
    {
      if j < |stages| {
        assert more[j] == stages[j] && more[j - 1] == stages[j - 1];
      }
    }
    RoundsAre(tr, init, repaired, target, m, more, b, b.k);
  }
}
