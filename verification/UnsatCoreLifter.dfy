/** Lifting a concrete predecessor to a cube of predecessors
    (src/pme/ic3/unsat_core_lifter.cpp). */
module UnsatCoreLifters {
  import opened Ids
  import opened Cubes
  import opened TransitionRelations
  import opened InductiveTraces
  import opened TraceInvariants
  import opened FrameSolvers
  import opened StepQueries

  /** Every state of the cube that meets the lemmas has, under the given inputs
      of the two time frames, all its successors in succ. */
  ghost predicate Leads(tr: TransitionRelation, f: set<Cube>, cti: Cube, inp: set<ID>, pinp: set<ID>, succ: Cube) {
    forall v, w | tr.Step(v, w) && Avoids(v, f) && SatCube(v, cti) && SatAll(v, inp) && SatAll(w, pinp) ::
      SatCube(w, succ)
  }

  /** F_inf & lits & inp & T & pinp' & !succ' */
  ghost predicate LiftQuery(tr: TransitionRelation, f: set<Cube>, lits: set<ID>, inp: set<ID>, pinp: set<ID>, succ: Cube,
                      v: Valuation, w: Valuation) {
    && tr.Step(v, w) && (forall c | c in f :: !SatCube(v, c)) && SatAll(v, lits) && SatAll(v, inp) && SatAll(w, pinp)
    && !SatCube(w, succ)
  }

  ghost predicate LiftUnsat(tr: TransitionRelation, f: set<Cube>, lits: set<ID>, inp: set<ID>, pinp: set<ID>, succ: Cube) {
    forall v: Valuation, w: Valuation :: !LiftQuery(tr, f, lits, inp, pinp, succ, v, w)
  }

  // ----- the query -----

  /** A successor of one literal is negated by an assumption, any other by a
      clause. */
  function LiftClauses(sent: set<Cube>, succ: Cube): set<TermClause> {
    var lemmas := set c | c in sent :: NegatedCubeClause(c);
    if |succ| == 1 then lemmas else lemmas + {NextClause(NegateVec(succ))}
  }

  function SuccAssumps(succ: Cube): set<Term> {
    if |succ| == 1 then {Next(Negate(succ[0]))} else {}
  }

  function LiftAssumps(lits: set<ID>, inp: set<ID>, pinp: set<ID>, succ: Cube): set<Term> {
    NowAll(lits) + NowAll(inp) + NextAll(pinp) + SuccAssumps(succ)
  }

  lemma SentHold(v: Valuation, w: Valuation, acts: set<nat>, sent: set<Cube>)
    ensures (forall cls | cls in (set c | c in sent :: NegatedCubeClause(c)) :: SomeHolds(v, w, acts, cls))
       <==> forall c | c in sent :: !SatCube(v, c)
  {
    forall c | c in sent
      ensures NegatedCubeClause(c) in (set d | d in sent :: NegatedCubeClause(d))
      ensures SomeHolds(v, w, acts, NegatedCubeClause(c)) <==> !SatCube(v, c)
    {
      NegatedCubeHolds(v, w, acts, c);
    }
  }

  /** Either way the successor is excluded. */
  lemma SuccExcluded(v: Valuation, w: Valuation, acts: set<nat>, succ: Cube)
    ensures if |succ| == 1 then AllHold(v, w, acts, SuccAssumps(succ)) <==> !SatCube(w, succ)
            else SomeHolds(v, w, acts, NextClause(NegateVec(succ))) <==> !SatCube(w, succ)
  {
    if |succ| == 1 {
      NegateFlips(w, succ[0]);
      assert Next(Negate(succ[0])) in SuccAssumps(succ);
    } else {
      NextClauseHolds(v, w, acts, NegateVec(succ));
      NegatedCube(w, succ);
    }
  }

  lemma LiftAssumpsHold(v: Valuation, w: Valuation, acts: set<nat>, lits: set<ID>, inp: set<ID>, pinp: set<ID>, succ: Cube)
    ensures AllHold(v, w, acts, LiftAssumps(lits, inp, pinp, succ)) <==>
      SatAll(v, lits) && SatAll(v, inp) && SatAll(w, pinp) && AllHold(v, w, acts, SuccAssumps(succ))
  {
    UnionHolds(v, w, acts, NowAll(lits), NowAll(inp));
    UnionHolds(v, w, acts, NowAll(lits) + NowAll(inp), NextAll(pinp));
    UnionHolds(v, w, acts, NowAll(lits) + NowAll(inp) + NextAll(pinp), SuccAssumps(succ));
    NowAllHold(v, w, acts, lits);
    NowAllHold(v, w, acts, inp);
    NextAllHold(v, w, acts, pinp);
  }

  lemma LiftAnswers(tr: TransitionRelation, sent: set<Cube>, lits: set<ID>, inp: set<ID>, pinp: set<ID>, succ: Cube,
                    v: Valuation, w: Valuation, acts: set<nat>)
    ensures Answers(tr, LiftClauses(sent, succ), LiftAssumps(lits, inp, pinp, succ), v, w, acts)
       <==> LiftQuery(tr, sent, lits, inp, pinp, succ, v, w)
  {
    SentHold(v, w, acts, sent);
    SuccExcluded(v, w, acts, succ);
    LiftAssumpsHold(v, w, acts, lits, inp, pinp, succ);
  }

  /** The literals of the predecessor that are in the core. */
  function CritsOf(pred: Cube, core: set<Term>): set<ID> {
    set lit | lit in Lits(pred) && Now(lit) in core
  }

  lemma LiftCore(tr: TransitionRelation, sent: set<Cube>, pred: Cube, inp: set<ID>, pinp: set<ID>, succ: Cube, core: set<Term>)
    requires core <= LiftAssumps(Lits(pred), inp, pinp, succ) && NoAnswer(tr, LiftClauses(sent, succ), core)
    ensures LiftUnsat(tr, sent, CritsOf(pred, core), inp, pinp, succ)
  {
    var crits := CritsOf(pred, core);
    assert core <= LiftAssumps(crits, inp, pinp, succ);
    forall v: Valuation, w: Valuation | LiftQuery(tr, sent, crits, inp, pinp, succ, v, w)
      ensures false
    {
      LiftAnswers(tr, sent, crits, inp, pinp, succ, v, w, {});
      assert Answers(tr, LiftClauses(sent, succ), core, v, w, {});
    }
  }

  lemma SameLiterals(vars: set<ID>, v: Valuation, w: Valuation)
    requires SatAll(w, LiteralsOf(vars, v)) && forall x | x in vars :: !IsNegated(x)
    ensures w * vars == v * vars
  {
    forall x | x in vars
      ensures x in w <==> x in v
    {
      assert (if x in v then x else Negate(x)) in LiteralsOf(vars, v);
    }
  }

  lemma OwnLiterals(vars: set<ID>, v: Valuation)
    requires forall x | x in vars :: !IsNegated(x)
    ensures SatAll(v, LiteralsOf(vars, v))
  {
  }

  lemma StateLiterals(tr: TransitionRelation, v: Valuation)
    ensures Lits(StateOf(tr, v)) == LiteralsOf(tr.LatchIDs(), v)
  {
    var state := StateOf(tr, v);
    forall lit | lit in LiteralsOf(tr.LatchIDs(), v)
      ensures lit in state
    {
      var x :| x in tr.LatchIDs() && lit == if x in v then x else Negate(x);
      var i :| 0 <= i < |tr.latches| && tr.latches[i].id == x;
      assert state[i] == lit;
    }
    forall i | 0 <= i < |state|
      ensures state[i] in LiteralsOf(tr.LatchIDs(), v)
    {
      assert tr.latches[i].id in tr.LatchIDs();
    }
  }

  /** A concrete state and its inputs have one successor. */
  lemma OneSuccessor(tr: TransitionRelation, v: Valuation, w: Valuation, x: Valuation, y: Valuation)
    requires tr.WellFormed() && tr.Step(v, w) && tr.Step(x, y)
    requires SatAll(x, LiteralsOf(tr.LatchIDs(), v)) && SatAll(x, LiteralsOf(tr.inputs, v)) && SatAll(y, LiteralsOf(tr.inputs, w))
    ensures x == v && y == w
  {
    SameLiterals(tr.LatchIDs(), v, x);
    SameLiterals(tr.inputs, v, x);
    SameLiterals(tr.inputs, w, y);
    SameLeaves(tr, v, x);
    FrameUnique(tr, v, x);
    SameLeaves(tr, w, y);
    FrameUnique(tr, w, y);
  }

  lemma SameLeaves(tr: TransitionRelation, v: Valuation, x: Valuation)
    requires v * tr.LatchIDs() == x * tr.LatchIDs() && v * tr.inputs == x * tr.inputs
    ensures v * tr.Leaves() == x * tr.Leaves()
  {
    assert v * tr.Leaves() == v * tr.inputs + v * tr.LatchIDs();
    assert x * tr.Leaves() == x * tr.inputs + x * tr.LatchIDs();
  }

  lemma LiftMonotone(tr: TransitionRelation, f: set<Cube>, lits: set<ID>, more: set<ID>, inp: set<ID>, pinp: set<ID>, succ: Cube)
    requires LiftUnsat(tr, f, lits, inp, pinp, succ) && lits <= more
    ensures LiftUnsat(tr, f, more, inp, pinp, succ)
  {
    forall v, w | LiftQuery(tr, f, more, inp, pinp, succ, v, w)
      ensures LiftQuery(tr, f, lits, inp, pinp, succ, v, w)
    {
    }
  }

  lemma LiftIsUnsat(tr: TransitionRelation, f: set<Cube>, v: Valuation, w: Valuation, succ: Cube)
    requires tr.WellFormed() && tr.Step(v, w) && SatCube(w, succ)
    ensures LiftUnsat(tr, f, LiteralsOf(tr.LatchIDs(), v), LiteralsOf(tr.inputs, v), LiteralsOf(tr.inputs, w), succ)
  {
    forall x, y | LiftQuery(tr, f, LiteralsOf(tr.LatchIDs(), v), LiteralsOf(tr.inputs, v), LiteralsOf(tr.inputs, w), succ, x, y)
      ensures false
    {
      OneSuccessor(tr, v, w, x, y);
    }
  }

  class UnsatCoreLifter {
    const tr: TransitionRelation
    const trace: InductiveTrace
    var sent: set<Cube>
    var solverInited: bool

    ghost predicate Valid()
      reads this, trace
    {
      trace.Valid() && (solverInited ==> sent <= FrameCubes(trace.levels, Inf))
    }

    constructor (tr: TransitionRelation, trace: InductiveTrace)
      requires trace.Valid()
      ensures Valid() && this.tr == tr && this.trace == trace
    {
      this.tr, this.trace := tr, trace;
      sent, solverInited := {}, false;
    }

    method RenewSAT()
      requires trace.Valid()
      modifies this
      ensures Valid() && solverInited
    {
      sent := set id | 0 <= id < |trace.lemmas| && trace.lemmas[id].level == Inf :: trace.lemmas[id].cube;
      solverInited := true;
      trace.ValidIs();
    }

    /** Shrinks the predecessor state v to the latches that force its successor
        w into succ. */
    method Lift(pred: Cube, succ: Cube, inp: set<ID>, pinp: set<ID>, ghost v: Valuation, ghost w: Valuation)
      returns (lifted: Cube)
      requires Valid() && tr.WellFormed() && tr.latches != [] && succ != []
      requires tr.Step(v, w) && SatCube(w, succ)
      requires pred == StateOf(tr, v) && inp == LiteralsOf(tr.inputs, v) && pinp == LiteralsOf(tr.inputs, w)
      modifies this
      ensures Valid()
      ensures lifted != [] && Ascending(lifted) && SatCube(v, lifted) && OverLatches(tr, lifted)
      ensures Leads(tr, FrameCubes(trace.levels, Inf), lifted, inp, pinp, succ)
    {
      if !solverInited {
        RenewSAT();
      }
      StateLiterals(tr, v);
      OwnLiterals(tr.LatchIDs(), v);
      LiftIsUnsat(tr, sent, v, w, succ);
      var sat, x, y, acts, core := Ask(tr, LiftClauses(sent, succ), LiftAssumps(Lits(pred), inp, pinp, succ));
      assert !sat by {
        LiftAnswers(tr, sent, Lits(pred), inp, pinp, succ, x, y, acts);
      }
      var crits := CritsOf(pred, core);
      LiftCore(tr, sent, pred, inp, pinp, succ, core);
      if crits == {} {
        LiftMonotone(tr, sent, {}, {pred[0]}, inp, pinp, succ);
        crits := {pred[0]};
      }
      lifted := SortLits(crits);
      LiftedCube(tr, v, lifted, crits);
      LiftLeads(tr, sent, FrameCubes(trace.levels, Inf), lifted, inp, pinp, succ);
    }
  }

  lemma LiftedCube(tr: TransitionRelation, v: Valuation, lifted: Cube, crits: set<ID>)
    requires forall x | x in tr.LatchIDs() :: !IsNegated(x)
    requires crits != {} && crits <= LiteralsOf(tr.LatchIDs(), v) && Lits(lifted) == crits
    ensures lifted != [] && SatCube(v, lifted) && OverLatches(tr, lifted)
  {
    NoLits(lifted);
    forall lit | lit in lifted
      ensures Holds(v, lit) && Strip(lit) in tr.LatchIDs()
    {
      assert lit in Lits(lifted);
      var x :| x in tr.LatchIDs() && lit == if x in v then x else Negate(x);
    }
  }

  lemma LiftLeads(tr: TransitionRelation, sent: set<Cube>, f: set<Cube>, lifted: Cube, inp: set<ID>, pinp: set<ID>, succ: Cube)
    requires sent <= f && LiftUnsat(tr, sent, Lits(lifted), inp, pinp, succ)
    ensures Leads(tr, f, lifted, inp, pinp, succ)
  {
    forall v, w | tr.Step(v, w) && Avoids(v, f) && SatCube(v, lifted) && SatAll(v, inp) && SatAll(w, pinp)
      ensures SatCube(w, succ)
    {
      assert SatAll(v, Lits(lifted));
      assert !LiftQuery(tr, sent, Lits(lifted), inp, pinp, succ, v, w);
    }
  }
}
