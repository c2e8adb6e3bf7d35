/** The states that a counterexample lists are those of the queries
    (src/pme/ic3/ic3_solver.cpp:257-281): a run of prove whose counterexample has the
    right inputs, but a state in the middle that its execution does not visit. */
module LooseStates {
  import opened Collections
  import opened Ids
  import opened Cubes
  import opened TransitionRelations
  import opened InductiveTraces
  import opened TraceInvariants
  import opened FrameSolvers
  import opened UnsatCoreLifters
  import opened Generalizations
  import opened Pushings
  import opened ProofObligations
  import opened BlockRuns
  import opened Counterexamples
  import opened SmallCircuits

  const P: ID := 4
  const N: ID := 6
  const Q: ID := 8
  const IN: ID := 10

  /** p' = in, q' = p, and n stays as it is. At first all are 0, and q is bad. */
  const CIRCUIT := TransitionRelation(
    {IN}, [Latch(P, IN, ID_FALSE), Latch(N, N, ID_FALSE), Latch(Q, P, ID_FALSE)], [], Q)

  const INIT: set<Cube> := {[P], [N], [Q]}

  lemma WellFormedCircuit()
    ensures CIRCUIT.WellFormed()
  {
    assert CIRCUIT.latches[0].id == P && CIRCUIT.latches[1].id == N && CIRCUIT.latches[2].id == Q;
    forall k | 0 <= k < |CIRCUIT.latches|
      ensures LatchOk(CIRCUIT, 12, k)
    {
      assert k == 0 || k == 1 || k == 2;
    }
    OrderedWellFormed(CIRCUIT, 12);
  }

  lemma StepMeans(v: Valuation, w: Valuation)
    requires CIRCUIT.Step(v, w)
    ensures (P in w <==> IN in v) && (N in w <==> N in v) && (Q in w <==> P in v)
  {
    WellFormedCircuit();
    LatchMeans(CIRCUIT, v, w, 0);
    LatchMeans(CIRCUIT, v, w, 1);
    LatchMeans(CIRCUIT, v, w, 2);
  }

  /** Without gates every assignment is a frame. */
  lemma IsFrame(v: Valuation)
    requires v <= {P, N, Q, IN}
    ensures CIRCUIT.Frame(v)
  {
    LatchLeaf(CIRCUIT, 0);
    LatchLeaf(CIRCUIT, 1);
    LatchLeaf(CIRCUIT, 2);
  }

  lemma IsStep(v: Valuation, w: Valuation)
    requires v <= {P, N, Q, IN} && w <= {P, N, Q, IN}
    requires (P in w <==> IN in v) && (N in w <==> N in v) && (Q in w <==> P in v)
    ensures CIRCUIT.Step(v, w)
  {
    IsFrame(v);
    IsFrame(w);
    WellFormedCircuit();
    var u := StepAnyInputs(CIRCUIT, v, {});
    StepMeans(v, u);
    SameLatches(u, w);
  }

  lemma SameLatches(u: Valuation, w: Valuation)
    requires (P in u <==> P in w) && (N in u <==> N in w) && (Q in u <==> Q in w)
    ensures u * CIRCUIT.LatchIDs() == w * CIRCUIT.LatchIDs()
  {
    forall x | x in CIRCUIT.LatchIDs()
      ensures x in u <==> x in w
    {
      var latch :| latch in CIRCUIT.latches && latch.id == x;
    }
  }

  lemma CubesMean(v: Valuation)
    ensures SatCube(v, [P]) <==> P in v
    ensures SatCube(v, [N]) <==> N in v
    ensures SatCube(v, [Q]) <==> Q in v
    ensures SatCube(v, [Negate(P)]) <==> P !in v
  {
    assert P in [P] && N in [N] && Q in [Q] && Negate(P) in [Negate(P)];
  }

  // ----- the traces of the run -----

  const START: Trace := map[[P] := Fin(0), [N] := Fin(0), [Q] := Fin(0)]
  const ROUND1: Trace := START[[Q] := Fin(1)]

  lemma Frames()
    ensures FrameCubes(START, Fin(0)) == INIT && FrameCubes(START, Inf) == {}
    ensures FrameCubes(ROUND1, Fin(0)) == INIT && FrameCubes(ROUND1, Fin(1)) == {[Q]} && FrameCubes(ROUND1, Inf) == {}
  {
  }

  lemma StartIsFresh()
    ensures START == Restricted(map[], INIT)
    ensures CIRCUIT.ResetCubes() == [[P], [N], [Q]]
  {
    var a := CIRCUIT.latches;
    assert a[1..] == [Latch(N, N, ID_FALSE), Latch(Q, P, ID_FALSE)];
    assert a[1..][1..] == [Latch(Q, P, ID_FALSE)];
    assert a[1..][1..][1..] == [];
    assert ResetCubesOf(a[1..][1..]) == [[Q]];
    assert ResetCubesOf(a[1..]) == [[N], [Q]];
  }

  lemma Avoid(v: Valuation)
    ensures Avoids(v, {[Q]}) <==> Q !in v
    ensures Avoids(v, INIT) <==> P !in v && N !in v && Q !in v
  {
    CubesMean(v);
    assert [Q] in {[Q]} && [P] in INIT && [N] in INIT && [Q] in INIT;
  }

  lemma NotSubsumed()
    ensures !Subsumed(START, [Q], 1) && !Subsumed(ROUND1, [Q], 2) && !Subsumed(ROUND1, [P], 1)
  {
    assert P in [P] && P !in [Q] && Q in [Q] && Q !in [P];
  }

  lemma Blocked(repaired: bool)
    ensures MayBlock(CIRCUIT, INIT, FrameCubes(START, Fin(0)), repaired, [Q], [Q])
  {
    Frames();
    forall v | Init(CIRCUIT, INIT, v)
      ensures !SatCube(v, [Q])
    {
      Avoid(v);
      CubesMean(v);
    }
    forall v, w | CIRCUIT.Step(v, w) && Avoids(v, INIT)
      ensures !SatCube(w, [Q])
    {
      Avoid(v);
      StepMeans(v, w);
      CubesMean(w);
    }
    OneLiteralBlocked(CIRCUIT, INIT, INIT, repaired, Q);
  }

  // ----- the predecessors -----

  const STATE_PN: Cube := [P, N, Negate(Q)]
  const STATE_0: Cube := [Negate(P), Negate(N), Negate(Q)]

  lemma Shown(v: Valuation)
    ensures P in v && N in v && Q !in v ==> StateOf(CIRCUIT, v) == STATE_PN
    ensures P !in v && N !in v && Q !in v ==> StateOf(CIRCUIT, v) == STATE_0
    ensures IN in v ==> LiteralsOf(CIRCUIT.inputs, v) == {IN}
    ensures IN !in v ==> LiteralsOf(CIRCUIT.inputs, v) == {Negate(IN)}
  {
  }

  lemma LatchCube(t: Cube)
    requires t == [P] || t == [Negate(P)]
    ensures t != [] && Ascending(t) && OverLatches(CIRCUIT, t)
  {
    LatchLeaf(CIRCUIT, 0);
  }

  lemma LeadsFromP()
    ensures Leads(CIRCUIT, {}, [P], {Negate(IN)}, {Negate(IN)}, [Q])
  {
    forall v, w | CIRCUIT.Step(v, w) && SatCube(v, [P])
      ensures SatCube(w, [Q])
    {
      StepMeans(v, w);
      CubesMean(v);
      CubesMean(w);
    }
  }

  lemma LeadsFromStart()
    ensures Leads(CIRCUIT, {}, [Negate(P)], {IN}, {Negate(IN)}, [P])
  {
    forall v, w | CIRCUIT.Step(v, w) && SatAll(v, {IN})
      ensures SatCube(w, [P])
    {
      assert Holds(v, IN);
      StepMeans(v, w);
      CubesMean(w);
    }
  }

  lemma StepOfP()
    ensures var v, w := {P, N}, {N, Q};
      CIRCUIT.Step(v, w) && Avoids(v, {[Q]}) && SatCube(v, [P]) && SatCube(w, [Q])
    ensures STATE_PN == StateOf(CIRCUIT, {P, N}) && LiteralsOf(CIRCUIT.inputs, {P, N}) == {Negate(IN)}
    ensures LiteralsOf(CIRCUIT.inputs, {N, Q}) == {Negate(IN)}
  {
    IsStep({P, N}, {N, Q});
    Shown({P, N});
    Shown({N, Q});
    CubesMean({P, N});
    CubesMean({N, Q});
    Avoid({P, N});
  }

  lemma StepOfStart()
    ensures var v, w := {IN}, {P};
      CIRCUIT.Step(v, w) && Avoids(v, INIT) && SatCube(v, [Negate(P)]) && SatCube(w, [P])
    ensures STATE_0 == StateOf(CIRCUIT, {IN}) && LiteralsOf(CIRCUIT.inputs, {IN}) == {IN}
    ensures LiteralsOf(CIRCUIT.inputs, {P}) == {Negate(IN)}
  {
    IsStep({IN}, {P});
    Shown({IN});
    Shown({P});
    CubesMean({IN});
    CubesMean({P});
    Avoid({IN});
  }

  lemma Predecessors()
    ensures MayPrecede(CIRCUIT, ROUND1, [Q], 2, [P], STATE_PN, {Negate(IN)}, {Negate(IN)})
    ensures MayPrecede(CIRCUIT, ROUND1, [P], 1, [Negate(P)], STATE_0, {IN}, {Negate(IN)})
  {
    Frames();
    LatchCube([P]);
    LatchCube([Negate(P)]);
    LeadsFromP();
    LeadsFromStart();
    StepOfP();
    StepOfStart();
    MayPrecedeBy(CIRCUIT, ROUND1, [Q], 2, [P], STATE_PN, {Negate(IN)}, {Negate(IN)}, {P, N}, {N, Q});
    MayPrecedeBy(CIRCUIT, ROUND1, [P], 1, [Negate(P)], STATE_0, {IN}, {Negate(IN)}, {IN}, {P});
  }

  // ----- the run -----

  const T0 := ProofObligation(2, [Q], [], {}, 0, None)
  const T1 := T0.(inputs := {Negate(IN)})
  const O1 := ProofObligation(1, [P], STATE_PN, {Negate(IN)}, 0, Some(0))
  const O2 := ProofObligation(0, [Negate(P)], STATE_0, {IN}, 0, Some(1))

  const WORK0 := StartWork(ROUND1, [Q], 2)
  const WORK1 := Work(ROUND1, [T1, O1], {0, 1})
  const WORK2 := Work(ROUND1, [T1, O1, O2], {0, 1, 2})

  const CEX := [CexStep({IN}, STATE_0), CexStep({Negate(IN)}, STATE_PN), CexStep({Negate(IN)}, [])]

  lemma Firsts()
    ensures First(WORK0, 0) && First(WORK1, 1) && First(WORK2, 2)
  {
    CubeLessIrreflexive([P]);
    CubeLessIrreflexive([Q]);
    CubeLessIrreflexive([Negate(P)]);
  }

  lemma Pools()
    ensures WORK1.pool == Extend(WORK0.pool, 0, {Negate(IN)}, O1) && WORK1.queue == WORK0.queue + {|WORK0.pool|}
    ensures WORK2.pool == Extend(WORK1.pool, 1, {Negate(IN)}, O2) && WORK2.queue == WORK1.queue + {|WORK1.pool|}
  {
  }

  lemma FirstPredecessor(repaired: bool)
    ensures NextWork(CIRCUIT, INIT, repaired, 2, WORK0, WORK1)
  {
    assert First(WORK0, 0) by { Firsts(); }
    assert Descends(CIRCUIT, WORK0, 0, [P], STATE_PN, {Negate(IN)}, {Negate(IN)}, WORK1) by {
      assert !Subsumed(ROUND1, [Q], 2) by { NotSubsumed(); }
      assert MayPrecede(CIRCUIT, ROUND1, [Q], 2, [P], STATE_PN, {Negate(IN)}, {Negate(IN)}) by { Predecessors(); }
      Pools();
    }
    DescendNext(CIRCUIT, INIT, repaired, 2, WORK0, 0, [P], STATE_PN, {Negate(IN)}, {Negate(IN)}, WORK1);
  }

  lemma InitialPredecessor(repaired: bool)
    ensures NextWork(CIRCUIT, INIT, repaired, 2, WORK1, WORK2)
  {
    assert First(WORK1, 1) by { Firsts(); }
    assert Descends(CIRCUIT, WORK1, 1, [Negate(P)], STATE_0, {IN}, {Negate(IN)}, WORK2) by {
      assert !Subsumed(ROUND1, [P], 1) by { NotSubsumed(); }
      assert MayPrecede(CIRCUIT, ROUND1, [P], 1, [Negate(P)], STATE_0, {IN}, {Negate(IN)}) by { Predecessors(); }
      Pools();
    }
    DescendNext(CIRCUIT, INIT, repaired, 2, WORK1, 1, [Negate(P)], STATE_0, {IN}, {Negate(IN)}, WORK2);
  }

  lemma TheChain()
    ensures EndsIn(WORK2, 2, CEX) && LastBefore(WORK2.pool, 2) == 1
  {
    var pool := WORK2.pool;
    Firsts();
    assert LastBefore(pool, 1) == 1;
    assert Chain(pool, 0) == [CexStep({Negate(IN)}, [])];
    assert Chain(pool, 1) == [CexStep({Negate(IN)}, STATE_PN)] + Chain(pool, 0);
    assert Chain(pool, 2) == [CexStep({IN}, STATE_0)] + Chain(pool, 1);
  }

  lemma FirstRound(repaired: bool) returns (run: seq<Work>, end: Work)
    ensures RunTo(CIRCUIT, INIT, repaired, [Q], 1, START, run, end) && end.queue == {} && end.levels == ROUND1
  {
    assert !Subsumed(START, [Q], 1) by { NotSubsumed(); }
    assert MayBlock(CIRCUIT, INIT, FrameCubes(START, Fin(0)), repaired, [Q], [Q]) by { Blocked(repaired); }
    run, end := TargetBlocked(CIRCUIT, INIT, repaired, [Q], START);
  }

  lemma QPasses()
    ensures !Passes(CIRCUIT, ROUND1, 1, [Q]) && !Excludes(CIRCUIT, FrameCubes(START, Inf), [Q])
  {
    Frames();
    StepOfP();
    CubesMean({P, N});
  }

  /** The target cannot be pushed out of level 1. */
  lemma NothingPushed()
    ensures Pushed(CIRCUIT, ROUND1, 1) == ROUND1 && !Excludes(CIRCUIT, FrameCubes(START, Inf), [Q])
  {
    QPasses();
    assert PushedFrame(CIRCUIT, ROUND1, 1) == ROUND1;
    assert [Q] in AtLevel(ROUND1, Fin(1)) && FiniteFrom(ROUND1, 1) == {[Q]};
    assert FiniteFrom(ROUND1, 2) == {};
    assert Pushed(CIRCUIT, ROUND1, 2) == ROUND1;
  }

  // ----- what comes of it -----

  lemma InputsRight()
    ensures InputsFollow(CIRCUIT, INIT, [Q], CEX)
  {
    var ws := [{IN}, {P}, {Q}];
    StepOfStart();
    IsStep({P}, {Q});
    OwnInputs({IN});
    OwnInputs({P});
    OwnInputs({Q});
    CubesMean({Q});
    forall j | 0 < j < |ws|
      ensures CIRCUIT.Step(ws[j - 1], ws[j])
    {
      assert j == 1 || j == 2;
    }
    assert Follows(CIRCUIT, INIT, [Q], CEX, ws);
  }

  lemma OwnInputs(v: Valuation)
    ensures IN in v ==> SatAll(v, {IN})
    ensures IN !in v ==> SatAll(v, {Negate(IN)})
  {
  }

  /** n is off all along, but on in the second state of the counterexample. */
  lemma SecondStateWrong(v: Valuation, w: Valuation)
    requires Init(CIRCUIT, INIT, v) && CIRCUIT.Step(v, w)
    ensures !SatCube(w, STATE_PN)
  {
    Avoid(v);
    StepMeans(v, w);
    assert N in STATE_PN && !Holds(w, N);
  }

  lemma StatesWrong()
    ensures !Checks(CIRCUIT, INIT, [Q], CEX)
  {
    forall ws
      ensures !Simulates(CIRCUIT, INIT, [Q], CEX, ws)
    {
      if Simulates(CIRCUIT, INIT, [Q], CEX, ws) {
        SecondStateWrong(ws[0], ws[1]);
      }
    }
  }

  /** Prove may answer UNSAFE with a counterexample whose inputs are right, but whose
      second state does not follow from the first. The repository's own check rejects
      it. */
  lemma StatesDoNotFollow(repaired: bool) returns (stages: seq<Stage>, run: seq<Work>)
    ensures CIRCUIT.WellFormed() && START == Restricted(map[], INIT) && CIRCUIT.ResetCubes() == [[P], [N], [Q]]
    ensures RoundsTo(CIRCUIT, INIT, repaired, [CIRCUIT.bad], START, stages, Stage(ROUND1, 2))
    ensures RunTo(CIRCUIT, INIT, repaired, [CIRCUIT.bad], 2, ROUND1, run, WORK2) && EndsIn(WORK2, 2, CEX)
    ensures InputsFollow(CIRCUIT, INIT, [CIRCUIT.bad], CEX) && !Checks(CIRCUIT, INIT, [CIRCUIT.bad], CEX)
  {
    WellFormedCircuit();
    StartIsFresh();
    var first, end := FirstRound(repaired);
    NothingPushed();
    FirstStage(CIRCUIT, INIT, repaired, [Q], START);
    NextStage(CIRCUIT, INIT, repaired, [Q], START, [Stage(START, 1)], Stage(START, 1), first, end, Stage(ROUND1, 2));
    stages := [Stage(START, 1)] + [Stage(ROUND1, 2)];
    FirstPredecessor(repaired);
    InitialPredecessor(repaired);
    RunStarts(CIRCUIT, INIT, repaired, [Q], 2, ROUND1);
    RunNext(CIRCUIT, INIT, repaired, [Q], 2, ROUND1, [WORK0], WORK0, WORK1);
    RunNext(CIRCUIT, INIT, repaired, [Q], 2, ROUND1, [WORK0] + [WORK1], WORK1, WORK2);
    run := [WORK0] + [WORK1] + [WORK2];
    TheChain();
    InputsRight();
    StatesWrong();
  }
}
