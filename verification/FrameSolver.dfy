/** Queries against one frame of the trace (src/pme/ic3/frame_solver.cpp).

    The solver is only ever told more: a lemma is sent again when it moves, and
    each copy below infinity carries the activation literal of the level it was
    sent at.  Assuming the activation literals of a level and above false
    selects exactly the full frame of that level. */
module FrameSolvers {
  import opened Ids
  import opened Cubes
  import opened TransitionRelations
  import opened InductiveTraces
  import opened TraceInvariants
  import opened StepQueries

  /** A clause as sent: the negated cube, with the activation literal of the
      level unless the level is infinity. */
  datatype ActivatedClause = ActivatedClause(cube: Cube, level: Level)

  /** acts is the set of levels whose activation literal is true. */
  predicate SatActivated(v: Valuation, acts: set<nat>, cls: ActivatedClause) {
    !SatCube(v, cls.cube) || (cls.level.Fin? && cls.level.k in acts)
  }

  predicate Enforces(v: Valuation, acts: set<nat>, sent: set<ActivatedClause>) {
    forall cls | cls in sent :: SatActivated(v, acts, cls)
  }

  /** No level in [level, frames) is activated. */
  predicate LevelAssumps(acts: set<nat>, level: Level, frames: nat) {
    level.Fin? ==> forall i | level.k <= i < frames :: i !in acts
  }

  function Activations(sent: set<ActivatedClause>): set<nat> {
    set cls | cls in sent && cls.level.Fin? :: cls.level.k
  }

  /** Every lemma has been sent at its level; other copies are stale and lower. */
  ghost predicate SentOk(sent: set<ActivatedClause>, m: Trace) {
    && (forall c | c in m :: ActivatedClause(c, m[c]) in sent)
    && (forall cls | cls in sent :: cls.cube in m && Le(cls.level, m[cls.cube]))
  }

  /** The same, kept folded: the argument n does not matter. */
  ghost predicate FoldedSent(sent: set<ActivatedClause>, m: Trace, n: nat) {
    if n == 0 then SentOk(sent, m) else FoldedSent(sent, m, n - 1)
  }

  lemma {:induction false} UnfoldSent(sent: set<ActivatedClause>, m: Trace, n: nat)
    ensures FoldedSent(sent, m, n) <==> SentOk(sent, m)
  {
    if n > 0 {
      UnfoldSent(sent, m, n - 1);
    }
  }

  /** What has been sent covers the lemmas and nothing else. */
  ghost predicate Informed(sent: set<ActivatedClause>, m: Trace) {
    FoldedSent(sent, m, |m|)
  }

  lemma SendOne(sent: set<ActivatedClause>, m: Trace, c: Cube, level: Level)
    requires Informed(sent, m) && (c in m ==> Le(m[c], level))
    ensures Informed(sent + {ActivatedClause(c, level)}, m[c := level])
  {
    UnfoldSent(sent, m, |m|);
    UnfoldSent(sent + {ActivatedClause(c, level)}, m[c := level], |m[c := level]|);
  }

  ghost predicate LevelsBelow(m: Trace, frames: nat) {
    forall c | c in m && m[c].Fin? :: m[c].k < frames
  }

  /** The assignment of the activation literals that enforces least. */
  function LooseActs(sent: set<ActivatedClause>, level: Level, frames: nat): set<nat> {
    set i | i in Activations(sent) && (level.Fin? ==> !(level.k <= i < frames))
  }

  lemma ActivationIsFrame(v: Valuation, acts: set<nat>, sent: set<ActivatedClause>, m: Trace, level: Level, frames: nat)
    requires SentOk(sent, m) && LevelsBelow(m, frames)
    requires Enforces(v, acts, sent) && LevelAssumps(acts, level, frames)
    ensures Avoids(v, FrameCubes(m, level))
  {
    forall c | c in FrameCubes(m, level)
      ensures !SatCube(v, c)
    {
      assert SatActivated(v, acts, ActivatedClause(c, m[c]));
    }
  }

  lemma FrameIsActivation(v: Valuation, sent: set<ActivatedClause>, m: Trace, level: Level, frames: nat)
    requires SentOk(sent, m) && Avoids(v, FrameCubes(m, level))
    ensures Enforces(v, LooseActs(sent, level, frames), sent) && LevelAssumps(LooseActs(sent, level, frames), level, frames)
    ensures LooseActs(sent, level, frames) <= Activations(sent)
  {
    var acts := LooseActs(sent, level, frames);
    forall cls | cls in sent
      ensures SatActivated(v, acts, cls)
    {
      if cls.level.Inf? || cls.level.k !in acts {
        assert cls.cube in FrameCubes(m, level);
      }
    }
  }

  /** The values of some variables as literals. */
  function LiteralsOf(vars: set<ID>, v: Valuation): set<ID> {
    set x | x in vars :: if x in v then x else Negate(x)
  }

  /** The latch values of a state, in latch order. */
  function StateOf(tr: TransitionRelation, v: Valuation): Cube {
    seq(|tr.latches|, i requires 0 <= i < |tr.latches| =>
      if tr.latches[i].id in v then tr.latches[i].id else Negate(tr.latches[i].id))
  }

  // ----- the two queries -----

  /** F_level & !c & T & lits', with the level selected by activation literals. */
  ghost predicate ConsecutionQuery(tr: TransitionRelation, sent: set<ActivatedClause>, level: Level, frames: nat, c: Cube,
                                   lits: set<ID>, v: Valuation, w: Valuation, acts: set<nat>) {
    tr.Step(v, w) && Enforces(v, acts, sent) && LevelAssumps(acts, level, frames) && !SatCube(v, c) && SatAll(w, lits)
  }

  ghost predicate NoModel(tr: TransitionRelation, sent: set<ActivatedClause>, level: Level, frames: nat, c: Cube,
                          lits: set<ID>) {
    forall v: Valuation, w: Valuation, acts: set<nat> ::
      !ConsecutionQuery(tr, sent, level, frames, c, lits, v, w, acts)
  }

  /** F_level & c & T: two time frames are always unrolled. */
  ghost predicate IntersectionQuery(tr: TransitionRelation, sent: set<ActivatedClause>, level: Level, frames: nat, c: Cube,
                                    v: Valuation, w: Valuation, acts: set<nat>) {
    tr.Step(v, w) && Enforces(v, acts, sent) && LevelAssumps(acts, level, frames) && SatCube(v, c)
  }

  /** activatedClauseOf */
  function LemmaClause(cls: ActivatedClause): TermClause {
    var lemmaTerms := NowClause(NegateVec(cls.cube));
    if cls.level.Fin? then lemmaTerms + [On(cls.level.k)] else lemmaTerms
  }

  function LemmaClauses(sent: set<ActivatedClause>): set<TermClause> {
    set cls | cls in sent :: LemmaClause(cls)
  }

  function Interval(lo: nat, hi: nat): (s: set<nat>)
    ensures forall i: nat :: i in s <==> lo <= i < hi
  {
    if hi <= lo then {} else Interval(lo, hi - 1) + {hi - 1}
  }

  /** levelAssumps: the levels whose activation literals are assumed false. */
  function LevelsFrom(level: Level, frames: nat): set<nat> {
    if level.Fin? then Interval(level.k, frames) else {}
  }

  function NegatedCubeClause(c: Cube): TermClause {
    NowClause(NegateVec(c))
  }

  function ConsecutionAssumps(level: Level, frames: nat, lits: set<ID>): set<Term> {
    OffAll(LevelsFrom(level, frames)) + NextAll(lits)
  }

  function IntersectionAssumps(level: Level, frames: nat, c: Cube): set<Term> {
    OffAll(LevelsFrom(level, frames)) + NowAll(Lits(c))
  }

  lemma NegatedCubeHolds(v: Valuation, w: Valuation, acts: set<nat>, c: Cube)
    ensures SomeHolds(v, w, acts, NegatedCubeClause(c)) <==> !SatCube(v, c)
  {
    NowClauseHolds(v, w, acts, NegateVec(c));
    NegatedCube(v, c);
  }

  lemma LemmaHolds(v: Valuation, w: Valuation, acts: set<nat>, cls: ActivatedClause)
    ensures SomeHolds(v, w, acts, LemmaClause(cls)) <==> SatActivated(v, acts, cls)
  {
    NegatedCubeHolds(v, w, acts, cls.cube);
    if cls.level.Fin? {
      OrTermHolds(v, w, acts, NegatedCubeClause(cls.cube), On(cls.level.k));
    }
  }

  lemma LemmasHold(v: Valuation, w: Valuation, acts: set<nat>, sent: set<ActivatedClause>)
    ensures (forall cls | cls in LemmaClauses(sent) :: SomeHolds(v, w, acts, cls)) <==> Enforces(v, acts, sent)
  {
    forall cls | cls in sent
      ensures LemmaClause(cls) in LemmaClauses(sent)
      ensures SomeHolds(v, w, acts, LemmaClause(cls)) <==> SatActivated(v, acts, cls)
    {
      LemmaHolds(v, w, acts, cls);
    }
  }

  lemma LevelHolds(v: Valuation, w: Valuation, acts: set<nat>, level: Level, frames: nat)
    ensures AllHold(v, w, acts, OffAll(LevelsFrom(level, frames))) <==> LevelAssumps(acts, level, frames)
  {
    OffAllHold(v, w, acts, LevelsFrom(level, frames));
  }

  lemma ConsecutionAnswers(tr: TransitionRelation, sent: set<ActivatedClause>, level: Level, frames: nat, c: Cube,
                           lits: set<ID>, v: Valuation, w: Valuation, acts: set<nat>)
    ensures Answers(tr, LemmaClauses(sent) + {NegatedCubeClause(c)}, ConsecutionAssumps(level, frames, lits), v, w, acts)
       <==> ConsecutionQuery(tr, sent, level, frames, c, lits, v, w, acts)
  {
    LemmasHold(v, w, acts, sent);
    NegatedCubeHolds(v, w, acts, c);
    LevelHolds(v, w, acts, level, frames);
    NextAllHold(v, w, acts, lits);
    UnionHolds(v, w, acts, OffAll(LevelsFrom(level, frames)), NextAll(lits));
  }

  lemma IntersectionAnswers(tr: TransitionRelation, sent: set<ActivatedClause>, level: Level, frames: nat, c: Cube,
                            v: Valuation, w: Valuation, acts: set<nat>)
    ensures Answers(tr, LemmaClauses(sent), IntersectionAssumps(level, frames, c), v, w, acts)
       <==> IntersectionQuery(tr, sent, level, frames, c, v, w, acts)
  {
    LemmasHold(v, w, acts, sent);
    LevelHolds(v, w, acts, level, frames);
    NowAllHold(v, w, acts, Lits(c));
    UnionHolds(v, w, acts, OffAll(LevelsFrom(level, frames)), NowAll(Lits(c)));
  }

  /** The literals of c whose copies are in the core. */
  function CoreOf(c: Cube, core: set<Term>): set<ID> {
    set lit | lit in Lits(c) && Next(lit) in core
  }

  lemma CoreNoModel(tr: TransitionRelation, sent: set<ActivatedClause>, level: Level, frames: nat, c: Cube, core: set<Term>)
    requires core <= ConsecutionAssumps(level, frames, Lits(c))
    requires NoAnswer(tr, LemmaClauses(sent) + {NegatedCubeClause(c)}, core)
    ensures NoModel(tr, sent, level, frames, c, CoreOf(c, core))
  {
    var crits := CoreOf(c, core);
    assert core <= ConsecutionAssumps(level, frames, crits);
    forall v: Valuation, w: Valuation, acts: set<nat> | ConsecutionQuery(tr, sent, level, frames, c, crits, v, w, acts)
      ensures false
    {
      ConsecutionAnswers(tr, sent, level, frames, c, crits, v, w, acts);
      assert Answers(tr, LemmaClauses(sent) + {NegatedCubeClause(c)}, core, v, w, acts);
    }
  }

  class FrameSolver {
    const tr: TransitionRelation
    const trace: InductiveTrace
    var sent: set<ActivatedClause>
    var solverInited: bool

    ghost predicate Valid()
      reads this, trace
    {
      && trace.Valid()
      && (solverInited ==> Informed(sent, trace.levels))
    }

    constructor (tr: TransitionRelation, trace: InductiveTrace)
      requires trace.Valid()
      ensures Valid() && this.tr == tr && this.trace == trace
    {
      this.tr, this.trace := tr, trace;
      sent, solverInited := {}, false;
    }

    method RenewSAT()
      requires trace.Valid()
      modifies this
      ensures Valid() && solverInited
    {
      sent := set id | 0 <= id < |trace.lemmas| :: ActivatedClause(trace.lemmas[id].cube, trace.lemmas[id].level);
      solverInited := true;
      trace.ValidIs();
      SendAll(trace.lemmas, trace.cubeToLemmaID, trace.levels, sent);
      UnfoldSent(sent, trace.levels, |trace.levels|);
    }

    /** addLemma: a lemma that is new, or has just moved up, is sent. */
    method AddLemma(id: LemmaID, ghost before: Trace)
      requires trace.Valid() && id < |trace.lemmas|
      requires solverInited ==> Informed(sent, before)
      requires var data := trace.lemmas[id];
        trace.levels == before[data.cube := data.level] && (data.cube in before ==> Le(before[data.cube], data.level))
      modifies this
      ensures Valid()
    {
      if solverInited {
        SendOne(sent, before, trace.lemmas[id].cube, trace.lemmas[id].level);
        sent := sent + {ActivatedClause(trace.lemmas[id].cube, trace.lemmas[id].level)};
      }
    }

    /** Is every F_level-and-not-c successor outside c?  If not, a pair of
        frames shows it; if so, the core is the part of c that was needed. */
    method Consecution(level: Level, c: Cube)
      returns (cons: bool, pred: Cube, inp: set<ID>, pinp: set<ID>, core: Cube, ghost v: Valuation, ghost w: Valuation)
      requires Valid() && c != [] && tr.WellFormed()
      modifies this
      ensures Valid()
      ensures cons <==> TraceInvariants.Consecution(tr, FrameCubes(trace.levels, level), c, c)
      ensures cons ==> Ascending(core) && SubCube(core, c)
      ensures cons ==> TraceInvariants.Consecution(tr, FrameCubes(trace.levels, level), c, core)
      ensures !cons ==> tr.Step(v, w) && Avoids(v, FrameCubes(trace.levels, level)) && !SatCube(v, c) && SatCube(w, c)
      ensures !cons ==> pred == StateOf(tr, v) && inp == LiteralsOf(tr.inputs, v) && pinp == LiteralsOf(tr.inputs, w)
    {
      if !solverInited {
        RenewSAT();
      }
      pred, inp, pinp, core, v, w := [], {}, {}, [], {}, {};
      var frames := trace.NumFrames();
      LevelsAreBelow(trace);
      UnfoldSent(sent, trace.levels, |trace.levels|);
      var sat, x, y, acts, critical :=
        Ask(tr, LemmaClauses(sent) + {NegatedCubeClause(c)}, ConsecutionAssumps(level, frames, Lits(c)));
      cons := !sat;
      if sat {
        ConsecutionAnswers(tr, sent, level, frames, c, Lits(c), x, y, acts);
        ActivationIsFrame(x, acts, sent, trace.levels, level, frames);
        v, w := x, y;
        pred, inp, pinp := StateOf(tr, x), LiteralsOf(tr.inputs, x), LiteralsOf(tr.inputs, y);
      } else {
        CoreNoModel(tr, sent, level, frames, c, critical);
        core := SortLits(CoreOf(c, critical));
        LitsSubCube(core, c);
        NoModelConsecution(tr, sent, trace.levels, level, frames, c, core);
        CoreIsEnough(tr, FrameCubes(trace.levels, level), c, core);
      }
    }

    /** Does some state of F_level lie in c? */
    method Intersection(level: Level, c: Cube) returns (sat: bool, state: Cube, inputs: set<ID>, ghost v: Valuation)
      requires Valid() && c != [] && tr.WellFormed()
      modifies this
      ensures Valid()
      ensures sat <==> exists x :: tr.Frame(x) && Avoids(x, FrameCubes(trace.levels, level)) && SatCube(x, c)
      ensures sat ==> tr.Frame(v) && Avoids(v, FrameCubes(trace.levels, level)) && SatCube(v, c)
      ensures sat ==> state == StateOf(tr, v) && inputs == LiteralsOf(tr.inputs, v)
    {
      if !solverInited {
        RenewSAT();
      }
      state, inputs, v := [], {}, {};
      var frames := trace.NumFrames();
      LevelsAreBelow(trace);
      UnfoldSent(sent, trace.levels, |trace.levels|);
      var model, y, acts, core;
      sat, model, y, acts, core := Ask(tr, LemmaClauses(sent), IntersectionAssumps(level, frames, c));
      if sat {
        IntersectionAnswers(tr, sent, level, frames, c, model, y, acts);
        ActivationIsFrame(model, acts, sent, trace.levels, level, frames);
        v, state, inputs := model, StateOf(tr, model), LiteralsOf(tr.inputs, model);
      } else {
        NoIntersection(tr, sent, trace.levels, level, frames, c, core);
      }
    }
  }

  lemma NoIntersection(tr: TransitionRelation, sent: set<ActivatedClause>, m: Trace, level: Level, frames: nat, c: Cube,
                       core: set<Term>)
    requires tr.WellFormed() && SentOk(sent, m)
    requires core <= IntersectionAssumps(level, frames, c) && NoAnswer(tr, LemmaClauses(sent), core)
    ensures forall x | tr.Frame(x) && Avoids(x, FrameCubes(m, level)) :: !SatCube(x, c)
  {
    forall x | tr.Frame(x) && Avoids(x, FrameCubes(m, level))
      ensures !SatCube(x, c)
    {
      FrameIsActivation(x, sent, m, level, frames);
      var y := StepAnyInputs(tr, x, {});
      var acts := LooseActs(sent, level, frames);
      IntersectionAnswers(tr, sent, level, frames, c, x, y, acts);
      assert !Answers(tr, LemmaClauses(sent), core, x, y, acts);
    }
  }

  lemma NoModelConsecution(tr: TransitionRelation, sent: set<ActivatedClause>, m: Trace, level: Level, frames: nat,
                           c: Cube, core: Cube)
    requires SentOk(sent, m) && NoModel(tr, sent, level, frames, c, Lits(core))
    ensures TraceInvariants.Consecution(tr, FrameCubes(m, level), c, core)
  {
    forall v, w | tr.Step(v, w) && Avoids(v, FrameCubes(m, level)) && !SatCube(v, c)
      ensures !SatCube(w, core)
    {
      FrameIsActivation(v, sent, m, level, frames);
      assert !ConsecutionQuery(tr, sent, level, frames, c, Lits(core), v, w, LooseActs(sent, level, frames));
      assert SatCube(w, core) ==> SatAll(w, Lits(core));
    }
  }

  lemma CoreIsEnough(tr: TransitionRelation, f: set<Cube>, c: Cube, core: Cube)
    requires TraceInvariants.Consecution(tr, f, c, core) && SubCube(core, c)
    ensures TraceInvariants.Consecution(tr, f, c, c)
  {
    forall v, w | tr.Step(v, w) && Avoids(v, f) && !SatCube(v, c)
      ensures !SatCube(w, c)
    {
      if SatCube(w, c) {
        SubCubeWeaker(w, core, c);
      }
    }
  }

  lemma SendAll(lemmas: seq<LemmaData>, ids: map<Cube, LemmaID>, m: Trace, sent: set<ActivatedClause>)
    requires Indexed(lemmas, ids, m)
    requires sent == set id | 0 <= id < |lemmas| :: ActivatedClause(lemmas[id].cube, lemmas[id].level)
    ensures SentOk(sent, m)
  {
    forall c | c in m
      ensures ActivatedClause(c, m[c]) in sent
    {
      assert lemmas[ids[c]].cube == c;
    }
  }

  lemma LevelsAreBelow(trace: InductiveTrace)
    requires trace.Valid()
    ensures LevelsBelow(trace.levels, trace.NumFrames())
  {
    trace.ValidIs();
    forall c | c in trace.levels && trace.levels[c].Fin?
      ensures trace.levels[c].k < trace.NumFrames()
    {
      assert trace.cubeToLemmaID[c] in trace.frames.At(trace.lemmas[trace.cubeToLemmaID[c]].level);
    }
  }
}
