/** The inputs of the target are those of the first predecessor found for it
    (src/pme/ic3/ic3_solver.cpp:327): a run of prove whose counterexample has last
    inputs under which the bad literal is off. */
module StaleInputs {
  import opened Collections
  import opened Ids
  import opened Cubes
  import opened TransitionRelations
  import opened InductiveTraces
  import opened TraceInvariants
  import opened FrameSolvers
  import opened UnsatCoreLifters
  import opened Generalizations
  import opened Pushings
  import opened ProofObligations
  import opened BlockRuns
  import opened Counterexamples
  import opened SmallCircuits

  const A: ID := 4
  const C: ID := 6
  const B: ID := 8
  const IN: ID := 10
  const NOT_A: ID := 12
  const NOT_B: ID := 14
  const BAD: ID := 16

  /** a stays as it is, c' = 1, b' = c, and bad = !(in & !a) & !(!in & !b). At first all
      are 0. */
  const CIRCUIT := TransitionRelation(
    {IN}, [Latch(A, A, ID_FALSE), Latch(C, ID_TRUE, ID_FALSE), Latch(B, C, ID_FALSE)],
    [AndGate(NOT_A, IN, Negate(A)), AndGate(NOT_B, Negate(IN), Negate(B)), AndGate(BAD, Negate(NOT_A), Negate(NOT_B))],
    BAD)

  const INIT: set<Cube> := {[A], [C], [B]}

  lemma WellFormedCircuit()
    ensures CIRCUIT.WellFormed()
  {
    assert CIRCUIT.latches[0].id == A && CIRCUIT.latches[1].id == C && CIRCUIT.latches[2].id == B;
    assert CIRCUIT.gates[0].lhs == NOT_A && CIRCUIT.gates[1].lhs == NOT_B;
    forall k | 0 <= k < |CIRCUIT.latches|
      ensures LatchOk(CIRCUIT, 12, k)
    {
      assert k == 0 || k == 1 || k == 2;
    }
    forall i | 0 <= i < |CIRCUIT.gates|
      ensures GateOk(CIRCUIT, 12, i)
    {
      assert i == 0 || i == 1 || i == 2;
    }
    OrderedWellFormed(CIRCUIT, 12);
  }

  predicate BadIn(v: Valuation) {
    (IN in v ==> A in v) && (IN !in v ==> B in v)
  }

  lemma FrameMeans(v: Valuation)
    requires CIRCUIT.Frame(v)
    ensures BAD in v <==> BadIn(v)
  {
    GateMeans(CIRCUIT, v, 0);
    GateMeans(CIRCUIT, v, 1);
    GateMeans(CIRCUIT, v, 2);
  }

  lemma StepMeans(v: Valuation, w: Valuation)
    requires CIRCUIT.Step(v, w)
    ensures (A in w <==> A in v) && (C in w <==> ID_FALSE !in v) && (B in w <==> C in v)
    ensures (BAD in v <==> BadIn(v)) && (BAD in w <==> BadIn(w))
  {
    WellFormedCircuit();
    FrameMeans(v);
    FrameMeans(w);
    LatchMeans(CIRCUIT, v, w, 0);
    LatchMeans(CIRCUIT, v, w, 1);
    LatchMeans(CIRCUIT, v, w, 2);
  }

  /** A step from a frame with these leaves, and with these inputs next. */
  lemma StepFrom(leaf: set<ID>, next: set<ID>) returns (v: Valuation, w: Valuation)
    requires leaf <= {A, C, B, IN} && next <= {IN}
    ensures CIRCUIT.Step(v, w) && v * {A, C, B, IN} == leaf && (IN in w <==> IN in next)
  {
    WellFormedCircuit();
    LatchLeaf(CIRCUIT, 0);
    LatchLeaf(CIRCUIT, 1);
    LatchLeaf(CIRCUIT, 2);
    assert {A, C, B, IN} <= CIRCUIT.Leaves();
    CompleteIsFrame(CIRCUIT, leaf);
    v := Complete(CIRCUIT, leaf);
    w := StepAnyInputs(CIRCUIT, v, next);
    forall x | x in {A, C, B, IN}
      ensures x in v <==> x in leaf
    {
      assert x in v <==> x in v * CIRCUIT.Leaves();
    }
    assert IN in w <==> IN in w * CIRCUIT.inputs;
  }

  lemma CubesMean(v: Valuation)
    ensures SatCube(v, [A]) <==> A in v
    ensures SatCube(v, [C]) <==> C in v
    ensures SatCube(v, [B]) <==> B in v
    ensures SatCube(v, [BAD]) <==> BAD in v
    ensures SatCube(v, [Negate(A)]) <==> A !in v
  {
    assert A in [A] && C in [C] && B in [B] && BAD in [BAD] && Negate(A) in [Negate(A)];
  }

  lemma InitMeans(v: Valuation)
    ensures Init(CIRCUIT, INIT, v) <==> CIRCUIT.Frame(v) && A !in v && C !in v && B !in v
  {
    CubesMean(v);
    assert [A] in INIT && [C] in INIT && [B] in INIT;
  }

  // ----- the traces of the run -----

  const START: Trace := map[[A] := Fin(0), [C] := Fin(0), [B] := Fin(0)]
  const ROUND1: Trace := START[[BAD] := Fin(1)]
  const LEARNT1: Trace := ROUND1[[A] := Fin(1)]
  const LEARNT2: Trace := ROUND1[[A] := Fin(2)]

  lemma Frames()
    ensures FrameCubes(START, Fin(0)) == INIT && FrameCubes(START, Inf) == {}
    ensures FrameCubes(ROUND1, Fin(0)) == INIT + {[BAD]} && FrameCubes(ROUND1, Fin(1)) == {[BAD]}
    ensures FrameCubes(LEARNT1, Fin(1)) == {[BAD], [A]} && FrameCubes(LEARNT2, Fin(1)) == {[BAD], [A]}
    ensures FrameCubes(LEARNT2, Fin(0)) == INIT + {[BAD]}
    ensures FrameCubes(ROUND1, Inf) == {} && FrameCubes(LEARNT2, Inf) == {}
  {
  }

  lemma StartIsFresh()
    ensures START == Restricted(map[], INIT)
    ensures CIRCUIT.ResetCubes() == [[A], [C], [B]]
  {
    var a := CIRCUIT.latches;
    assert a[1..] == [Latch(C, ID_TRUE, ID_FALSE), Latch(B, C, ID_FALSE)];
    assert a[1..][1..] == [Latch(B, C, ID_FALSE)];
    assert a[1..][1..][1..] == [];
    assert ResetCubesOf(a[1..][1..]) == [[B]];
    assert ResetCubesOf(a[1..]) == [[C], [B]];
  }

  lemma Avoid(v: Valuation)
    ensures Avoids(v, {[BAD]}) <==> BAD !in v
    ensures Avoids(v, {[BAD], [A]}) <==> BAD !in v && A !in v
    ensures Avoids(v, INIT) <==> A !in v && C !in v && B !in v
    ensures Avoids(v, INIT + {[BAD]}) <==> A !in v && C !in v && B !in v && BAD !in v
  {
    CubesMean(v);
    assert [BAD] in {[BAD]} && [BAD] in {[BAD], [A]} && [A] in {[BAD], [A]};
    assert [A] in INIT && [C] in INIT && [B] in INIT && [BAD] in INIT + {[BAD]};
  }

  // ----- what is blocked -----

  lemma NothingInitial()
    ensures Initiated(CIRCUIT, INIT, [A]) && Initiated(CIRCUIT, INIT, [BAD])
  {
    forall v | Init(CIRCUIT, INIT, v)
      ensures !SatCube(v, [A]) && !SatCube(v, [BAD])
    {
      InitMeans(v);
      FrameMeans(v);
      CubesMean(v);
    }
  }

  lemma Blocked(repaired: bool)
    ensures MayBlock(CIRCUIT, INIT, FrameCubes(START, Fin(0)), repaired, [BAD], [BAD])
    ensures MayBlock(CIRCUIT, INIT, FrameCubes(ROUND1, Fin(0)), repaired, [A], [A])
    ensures MayBlock(CIRCUIT, INIT, FrameCubes(LEARNT1, Fin(1)), repaired, [A], [A])
  {
    Frames();
    NothingInitial();
    forall v, w | CIRCUIT.Step(v, w) && Avoids(v, INIT)
      ensures !SatCube(w, [BAD])
    {
      Avoid(v);
      StepMeans(v, w);
      CubesMean(w);
    }
    forall v, w | CIRCUIT.Step(v, w) && !SatCube(v, [A])
      ensures !SatCube(w, [A])
    {
      StepMeans(v, w);
      CubesMean(v);
      CubesMean(w);
    }
    OneLiteralBlocked(CIRCUIT, INIT, INIT, repaired, BAD);
    OneLiteralBlocked(CIRCUIT, INIT, INIT + {[BAD]}, repaired, A);
    OneLiteralBlocked(CIRCUIT, INIT, {[BAD], [A]}, repaired, A);
  }

  // ----- the predecessors -----

  const STATE_A: Cube := [A, Negate(C), Negate(B)]
  const STATE_C: Cube := [Negate(A), C, Negate(B)]
  const STATE_0: Cube := [Negate(A), Negate(C), Negate(B)]

  lemma Shown(v: Valuation)
    ensures v * {A, C, B, IN} == {A} ==> StateOf(CIRCUIT, v) == STATE_A
    ensures v * {A, C, B, IN} == {C} ==> StateOf(CIRCUIT, v) == STATE_C
    ensures v * {A, C, B, IN} == {} ==> StateOf(CIRCUIT, v) == STATE_0
    ensures IN in v ==> LiteralsOf(CIRCUIT.inputs, v) == {IN}
    ensures IN !in v ==> LiteralsOf(CIRCUIT.inputs, v) == {Negate(IN)}
  {
    if v * {A, C, B, IN} == {A} {
      Leaves(v, {A});
    } else if v * {A, C, B, IN} == {C} {
      Leaves(v, {C});
    } else if v * {A, C, B, IN} == {} {
      Leaves(v, {});
    }
  }

  lemma LatchCube(t: Cube)
    requires t == [A] || t == [C] || t == [Negate(A)]
    ensures t != [] && Ascending(t) && OverLatches(CIRCUIT, t)
  {
    LatchLeaf(CIRCUIT, 0);
    LatchLeaf(CIRCUIT, 1);
  }

  /** From a the target needs in on in the next step. */
  lemma LeadsFromA()
    ensures Leads(CIRCUIT, {}, [A], {Negate(IN)}, {IN}, [BAD])
  {
    forall v, w | CIRCUIT.Step(v, w) && SatCube(v, [A]) && SatAll(w, {IN})
      ensures SatCube(w, [BAD])
    {
      StepMeans(v, w);
      CubesMean(v);
      CubesMean(w);
      assert Holds(w, IN);
    }
  }

  /** From c it needs it off. */
  lemma LeadsFromC()
    ensures Leads(CIRCUIT, {}, [C], {Negate(IN)}, {Negate(IN)}, [BAD])
  {
    forall v, w | CIRCUIT.Step(v, w) && SatCube(v, [C]) && SatAll(w, {Negate(IN)})
      ensures SatCube(w, [BAD])
    {
      StepMeans(v, w);
      CubesMean(v);
      CubesMean(w);
      assert Holds(w, Negate(IN));
    }
  }

  lemma LeadsFromStart()
    ensures Leads(CIRCUIT, {}, [Negate(A)], {Negate(IN)}, {Negate(IN)}, [C])
  {
    forall v, w | CIRCUIT.Step(v, w)
      ensures SatCube(w, [C])
    {
      StepMeans(v, w);
      CubesMean(w);
      NoConstant(v);
    }
  }

  /** The values of the leaves, one by one. */
  lemma Leaf(v: Valuation, leaf: set<ID>, x: ID)
    requires v * {A, C, B, IN} == leaf && x in {A, C, B, IN}
    ensures x in v <==> x in leaf
  {
    assert x in v <==> x in v * {A, C, B, IN};
  }

  lemma Leaves(v: Valuation, leaf: set<ID>)
    requires v * {A, C, B, IN} == leaf
    ensures (A in v <==> A in leaf) && (C in v <==> C in leaf) && (B in v <==> B in leaf) && (IN in v <==> IN in leaf)
  {
    Leaf(v, leaf, A);
    Leaf(v, leaf, C);
    Leaf(v, leaf, B);
    Leaf(v, leaf, IN);
  }

  lemma StepOfA() returns (v: Valuation, w: Valuation)
    ensures CIRCUIT.Step(v, w) && BAD !in v && SatCube(v, [A]) && SatCube(w, [BAD])
    ensures STATE_A == StateOf(CIRCUIT, v) && LiteralsOf(CIRCUIT.inputs, v) == {Negate(IN)}
    ensures LiteralsOf(CIRCUIT.inputs, w) == {IN}
  {
    v, w := StepFrom({A}, {IN});
    Leaves(v, {A});
    assert IN !in v && B !in v && A in v;
    StepMeans(v, w);
    Shown(v);
    Shown(w);
    CubesMean(v);
    CubesMean(w);
  }

  lemma StepOfC() returns (v: Valuation, w: Valuation)
    ensures CIRCUIT.Step(v, w) && Avoids(v, {[BAD], [A]}) && SatCube(v, [C]) && SatCube(w, [BAD])
    ensures STATE_C == StateOf(CIRCUIT, v) && LiteralsOf(CIRCUIT.inputs, v) == {Negate(IN)}
    ensures LiteralsOf(CIRCUIT.inputs, w) == {Negate(IN)}
  {
    v, w := StepFrom({C}, {});
    Leaves(v, {C});
    StepMeans(v, w);
    Shown(v);
    Shown(w);
    Avoid(v);
    CubesMean(v);
    CubesMean(w);
  }

  lemma StepOfStart() returns (v: Valuation, w: Valuation)
    ensures CIRCUIT.Step(v, w) && Avoids(v, INIT + {[BAD]}) && SatCube(v, [Negate(A)]) && SatCube(w, [C])
    ensures STATE_0 == StateOf(CIRCUIT, v) && LiteralsOf(CIRCUIT.inputs, v) == {Negate(IN)}
    ensures LiteralsOf(CIRCUIT.inputs, w) == {Negate(IN)}
  {
    v, w := StepFrom({}, {});
    Leaves(v, {});
    StepMeans(v, w);
    NoConstant(v);
    Shown(v);
    Shown(w);
    Avoid(v);
    CubesMean(v);
    CubesMean(w);
  }

  lemma NoConstant(v: Valuation)
    requires CIRCUIT.Frame(v)
    ensures ID_FALSE !in v
  {
    WellFormedCircuit();
    assert v <= CIRCUIT.Vars();
  }

  /** The two predecessors of the target, and that of the second one. */
  lemma Predecessors()
    ensures MayPrecede(CIRCUIT, ROUND1, [BAD], 2, [A], STATE_A, {Negate(IN)}, {IN})
    ensures MayPrecede(CIRCUIT, LEARNT2, [BAD], 2, [C], STATE_C, {Negate(IN)}, {Negate(IN)})
    ensures MayPrecede(CIRCUIT, LEARNT2, [C], 1, [Negate(A)], STATE_0, {Negate(IN)}, {Negate(IN)})
  {
    Frames();
    LatchCube([A]);
    LatchCube([C]);
    LatchCube([Negate(A)]);
    LeadsFromA();
    LeadsFromC();
    LeadsFromStart();
    var v, w := StepOfA();
    Avoid(v);
    MayPrecedeBy(CIRCUIT, ROUND1, [BAD], 2, [A], STATE_A, {Negate(IN)}, {IN}, v, w);
    v, w := StepOfC();
    MayPrecedeBy(CIRCUIT, LEARNT2, [BAD], 2, [C], STATE_C, {Negate(IN)}, {Negate(IN)}, v, w);
    v, w := StepOfStart();
    MayPrecedeBy(CIRCUIT, LEARNT2, [C], 1, [Negate(A)], STATE_0, {Negate(IN)}, {Negate(IN)}, v, w);
  }

  // ----- the run -----

  const T0 := ProofObligation(2, [BAD], [], {}, 0, None)
  const T1 := T0.(inputs := {IN})
  const O1 := ProofObligation(1, [A], STATE_A, {Negate(IN)}, 0, Some(0))
  const O1UP := O1.(level := 2)
  const O2 := ProofObligation(1, [C], STATE_C, {Negate(IN)}, 0, Some(0))
  const O3 := ProofObligation(0, [Negate(A)], STATE_0, {Negate(IN)}, 0, Some(2))

  const WORK0 := StartWork(ROUND1, [BAD], 2)
  const WORK1 := Work(ROUND1, [T1, O1], {0, 1})
  const WORK2 := Work(LEARNT1, [T1, O1UP], {0, 1})
  const WORK3 := Work(LEARNT2, [T1, O1UP], {0})
  const WORK4 := Work(LEARNT2, [T1, O1UP, O2], {0, 2})
  const WORK5 := Work(LEARNT2, [T1, O1UP, O2, O3], {0, 2, 3})

  const CEX := [CexStep({Negate(IN)}, STATE_0), CexStep({Negate(IN)}, STATE_C), CexStep({IN}, [])]

  lemma NotSubsumed()
    ensures !Subsumed(START, [BAD], 1) && !Subsumed(ROUND1, [BAD], 2) && !Subsumed(ROUND1, [A], 1)
    ensures !Subsumed(LEARNT1, [A], 2) && !Subsumed(LEARNT2, [BAD], 2) && !Subsumed(LEARNT2, [C], 1)
  {
    assert A in [A] && A !in [BAD] && A !in [C] && BAD in [BAD] && BAD !in [A] && BAD !in [C];
  }

  lemma Firsts()
    ensures First(WORK0, 0) && First(WORK1, 1) && First(WORK2, 1) && First(WORK3, 0) && First(WORK4, 2)
  {
    CubeLessIrreflexive([A]);
    CubeLessIrreflexive([C]);
    CubeLessIrreflexive([BAD]);
    assert !CubeLess([BAD], [A]);
    assert !Before(T0, T0) && !Before(T1, T1) && !Before(O1, O1) && !Before(O1UP, O1UP) && !Before(O2, O2);
    assert !Before(T1, O1) && !Before(T1, O1UP) && !Before(T1, O2);
  }

  lemma Pools()
    ensures WORK1.pool == Extend(WORK0.pool, 0, {IN}, O1) && WORK1.queue == WORK0.queue + {|WORK0.pool|}
    ensures WORK2.pool == Promote(WORK1.pool, 1, 2) && WORK2.queue == Requeue(WORK1.pool, WORK1.queue, 1, 2)
    ensures WORK3.pool == Promote(WORK2.pool, 1, 2) && WORK3.queue == Requeue(WORK2.pool, WORK2.queue, 1, 2)
    ensures WORK4.pool == Extend(WORK3.pool, 0, {Negate(IN)}, O2) && WORK4.queue == WORK3.queue + {|WORK3.pool|}
    ensures WORK5.pool == Extend(WORK4.pool, 2, {Negate(IN)}, O3) && WORK5.queue == WORK4.queue + {|WORK4.pool|}
  {
  }

  /** The predecessor with a on is found first, ... */
  lemma FirstPredecessor(repaired: bool)
    ensures NextWork(CIRCUIT, INIT, repaired, 2, WORK0, WORK1)
  {
    assert First(WORK0, 0) by { Firsts(); }
    assert Descends(CIRCUIT, WORK0, 0, [A], STATE_A, {Negate(IN)}, {IN}, WORK1) by {
      assert !Subsumed(ROUND1, [BAD], 2) by { NotSubsumed(); }
      assert MayPrecede(CIRCUIT, ROUND1, [BAD], 2, [A], STATE_A, {Negate(IN)}, {IN}) by { Predecessors(); }
      Pools();
    }
    DescendNext(CIRCUIT, INIT, repaired, 2, WORK0, 0, [A], STATE_A, {Negate(IN)}, {IN}, WORK1);
  }

  /** ... blocked at level 1, ... */
  lemma BlockedAtOne(repaired: bool)
    ensures NextWork(CIRCUIT, INIT, repaired, 2, WORK1, WORK2)
  {
    assert First(WORK1, 1) by { Firsts(); }
    assert Learns(CIRCUIT, INIT, repaired, 2, WORK1, 1, [A], WORK2) by {
      assert !Subsumed(ROUND1, [A], 1) by { NotSubsumed(); }
      assert MayBlock(CIRCUIT, INIT, FrameCubes(ROUND1, Fin(0)), repaired, [A], [A]) by { Blocked(repaired); }
      Pools();
    }
    LearnNext(CIRCUIT, INIT, repaired, 2, WORK1, 1, [A], WORK2);
  }

  lemma RaisedAgain()
    ensures LEARNT1[[A] := Fin(2)] == LEARNT2
  {
  }

  /** ... and at level 2. */
  lemma BlockedAtTwo(repaired: bool)
    ensures NextWork(CIRCUIT, INIT, repaired, 2, WORK2, WORK3)
  {
    assert First(WORK2, 1) by { Firsts(); }
    assert Learns(CIRCUIT, INIT, repaired, 2, WORK2, 1, [A], WORK3) by {
      assert !Subsumed(LEARNT1, [A], 2) by { NotSubsumed(); }
      assert MayBlock(CIRCUIT, INIT, FrameCubes(LEARNT1, Fin(1)), repaired, [A], [A]) by { Blocked(repaired); }
      RaisedAgain();
      Pools();
    }
    LearnNext(CIRCUIT, INIT, repaired, 2, WORK2, 1, [A], WORK3);
  }

  /** Then the target has a second predecessor, but keeps its inputs. */
  lemma SecondPredecessor(repaired: bool)
    ensures NextWork(CIRCUIT, INIT, repaired, 2, WORK3, WORK4)
  {
    assert First(WORK3, 0) by { Firsts(); }
    assert Descends(CIRCUIT, WORK3, 0, [C], STATE_C, {Negate(IN)}, {Negate(IN)}, WORK4) by {
      assert !Subsumed(LEARNT2, [BAD], 2) by { NotSubsumed(); }
      assert MayPrecede(CIRCUIT, LEARNT2, [BAD], 2, [C], STATE_C, {Negate(IN)}, {Negate(IN)}) by { Predecessors(); }
      Pools();
    }
    DescendNext(CIRCUIT, INIT, repaired, 2, WORK3, 0, [C], STATE_C, {Negate(IN)}, {Negate(IN)}, WORK4);
  }

  lemma InitialPredecessor(repaired: bool)
    ensures NextWork(CIRCUIT, INIT, repaired, 2, WORK4, WORK5)
  {
    assert First(WORK4, 2) by { Firsts(); }
    assert Descends(CIRCUIT, WORK4, 2, [Negate(A)], STATE_0, {Negate(IN)}, {Negate(IN)}, WORK5) by {
      assert !Subsumed(LEARNT2, [C], 1) by { NotSubsumed(); }
      assert MayPrecede(CIRCUIT, LEARNT2, [C], 1, [Negate(A)], STATE_0, {Negate(IN)}, {Negate(IN)}) by { Predecessors(); }
      Pools();
    }
    DescendNext(CIRCUIT, INIT, repaired, 2, WORK4, 2, [Negate(A)], STATE_0, {Negate(IN)}, {Negate(IN)}, WORK5);
  }

  lemma SecondRound(repaired: bool) returns (run: seq<Work>)
    ensures RunTo(CIRCUIT, INIT, repaired, [BAD], 2, ROUND1, run, WORK5) && EndsIn(WORK5, 3, CEX)
    ensures LastBefore(WORK5.pool, 3) == 2
  {
    FirstPredecessor(repaired);
    BlockedAtOne(repaired);
    BlockedAtTwo(repaired);
    SecondPredecessor(repaired);
    InitialPredecessor(repaired);
    run := [WORK0];
    RunStarts(CIRCUIT, INIT, repaired, [BAD], 2, ROUND1);
    RunNext(CIRCUIT, INIT, repaired, [BAD], 2, ROUND1, run, WORK0, WORK1);
    RunNext(CIRCUIT, INIT, repaired, [BAD], 2, ROUND1, run + [WORK1], WORK1, WORK2);
    run := run + [WORK1] + [WORK2];
    RunNext(CIRCUIT, INIT, repaired, [BAD], 2, ROUND1, run, WORK2, WORK3);
    RunNext(CIRCUIT, INIT, repaired, [BAD], 2, ROUND1, run + [WORK3], WORK3, WORK4);
    run := run + [WORK3] + [WORK4];
    RunNext(CIRCUIT, INIT, repaired, [BAD], 2, ROUND1, run, WORK4, WORK5);
    run := run + [WORK5];
    TheChain();
  }

  lemma TheChain()
    ensures EndsIn(WORK5, 3, CEX) && LastBefore(WORK5.pool, 3) == 2
  {
    var pool := WORK5.pool;
    CubeLessIrreflexive([Negate(A)]);
    assert First(WORK5, 3);
    assert LastBefore(pool, 2) == 2;
    assert Chain(pool, 0) == [CexStep({IN}, [])];
    assert Chain(pool, 2) == [CexStep({Negate(IN)}, STATE_C)] + Chain(pool, 0);
    assert Chain(pool, 3) == [CexStep({Negate(IN)}, STATE_0)] + Chain(pool, 2);
  }

  // ----- what comes of it -----

  /** From the first state the inputs of the steps lead to a state in which the last ones
      turn the bad literal off. */
  lemma LastInputsWrong(ws: seq<Valuation>)
    requires |ws| == 3 && Init(CIRCUIT, INIT, ws[0]) && CIRCUIT.Step(ws[0], ws[1]) && CIRCUIT.Step(ws[1], ws[2])
    requires SatAll(ws[2], {IN})
    ensures !SatCube(ws[2], [BAD])
  {
    InitMeans(ws[0]);
    StepMeans(ws[0], ws[1]);
    StepMeans(ws[1], ws[2]);
    CubesMean(ws[2]);
    assert Holds(ws[2], IN);
  }

  lemma NothingFollows()
    ensures !InputsFollow(CIRCUIT, INIT, [BAD], CEX) && !Checks(CIRCUIT, INIT, [BAD], CEX)
  {
    forall ws
      ensures !Follows(CIRCUIT, INIT, [BAD], CEX, ws) && !Simulates(CIRCUIT, INIT, [BAD], CEX, ws)
    {
      if Follows(CIRCUIT, INIT, [BAD], CEX, ws) || Simulates(CIRCUIT, INIT, [BAD], CEX, ws) {
        LastInputsWrong(ws);
      }
    }
  }

  // ----- the round before -----

  lemma FirstRound(repaired: bool) returns (run: seq<Work>, end: Work)
    ensures RunTo(CIRCUIT, INIT, repaired, [BAD], 1, START, run, end) && end.queue == {} && end.levels == ROUND1
  {
    assert !Subsumed(START, [BAD], 1) by { NotSubsumed(); }
    assert MayBlock(CIRCUIT, INIT, FrameCubes(START, Fin(0)), repaired, [BAD], [BAD]) by { Blocked(repaired); }
    run, end := TargetBlocked(CIRCUIT, INIT, repaired, [BAD], START);
  }

  lemma BadPasses()
    ensures !Passes(CIRCUIT, ROUND1, 1, [BAD]) && !Excludes(CIRCUIT, FrameCubes(START, Inf), [BAD])
  {
    Frames();
    var v, w := StepOfA();
    Avoid(v);
    CubesMean(v);
  }

  /** The target cannot be pushed out of level 1. */
  lemma NothingPushed()
    ensures Pushed(CIRCUIT, ROUND1, 1) == ROUND1 && !Excludes(CIRCUIT, FrameCubes(START, Inf), [BAD])
  {
    BadPasses();
    assert PushedFrame(CIRCUIT, ROUND1, 1) == ROUND1;
    assert [BAD] in AtLevel(ROUND1, Fin(1)) && FiniteFrom(ROUND1, 1) == {[BAD]};
    assert FiniteFrom(ROUND1, 2) == {};
    assert Pushed(CIRCUIT, ROUND1, 2) == ROUND1;
  }

  /** Prove may answer UNSAFE with a counterexample of three steps that replays only
      with other last inputs: from the first trace of the circuit, the second round
      takes the inputs of the target from a predecessor that is then blocked. The
      repository's own check rejects the counterexample. */
  lemma StaleLastInputs(repaired: bool) returns (stages: seq<Stage>, run: seq<Work>)
    ensures CIRCUIT.WellFormed() && START == Restricted(map[], INIT) && CIRCUIT.ResetCubes() == [[A], [C], [B]]
    ensures RoundsTo(CIRCUIT, INIT, repaired, [CIRCUIT.bad], START, stages, Stage(ROUND1, 2))
    ensures RunTo(CIRCUIT, INIT, repaired, [CIRCUIT.bad], 2, ROUND1, run, WORK5) && EndsIn(WORK5, 3, CEX)
    ensures LastBefore(WORK5.pool, 3) == 2
    ensures !InputsFollow(CIRCUIT, INIT, [CIRCUIT.bad], CEX) && !Checks(CIRCUIT, INIT, [CIRCUIT.bad], CEX)
  {
    WellFormedCircuit();
    StartIsFresh();
    var first, end := FirstRound(repaired);
    NothingPushed();
    FirstStage(CIRCUIT, INIT, repaired, [BAD], START);
    NextStage(CIRCUIT, INIT, repaired, [BAD], START, [Stage(START, 1)], Stage(START, 1), first, end, Stage(ROUND1, 2));
    stages := [Stage(START, 1)] + [Stage(ROUND1, 2)];
    run := SecondRound(repaired);
    NothingFollows();
  }
}
