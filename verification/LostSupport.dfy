/** Re-initiating a generalised cube against the cube that still has the dropped
    literal (src/pme/ic3/ic3_solver.cpp:453) can give a lemma that is not
    inductive relative to its frame: a run of prove on a circuit that does it. */
module LostSupports {
  import opened Ids
  import opened Cubes
  import opened TransitionRelations
  import opened InductiveTraces
  import opened TraceInvariants
  import opened UnsatCoreLifters
  import opened Generalizations
  import opened ProofObligations
  import opened SmallCircuits
  import opened Ic3Solvers

  const X: ID := 4
  const L: ID := 6
  const Y: ID := 8
  const B: ID := 10
  const IN0: ID := 12
  const IN1: ID := 14
  const XY: ID := 16
  const BOTH: ID := 18
  const XN: ID := 20
  const BN: ID := 22

  /** x' = in0 & !(x & y & in1), l' = in1, y' = x & y, and bad' = x & y & l. At
      first x, l and bad are 0 and y is 1. */
  const CIRCUIT := TransitionRelation(
    {IN0, IN1},
    [Latch(X, XN, ID_FALSE), Latch(L, IN1, ID_FALSE), Latch(Y, XY, ID_TRUE), Latch(B, BN, ID_FALSE)],
    [AndGate(XY, X, Y), AndGate(BOTH, XY, IN1), AndGate(XN, IN0, Negate(BOTH)), AndGate(BN, XY, L)],
    B)

  const INIT: set<Cube> := {[X], [L], [Negate(Y)], [B]}

  lemma LatchesInOrder()
    ensures forall k | 0 <= k < |CIRCUIT.latches| :: LatchOk(CIRCUIT, 16, k)
  {
    assert CIRCUIT.gates[2].lhs == XN && CIRCUIT.gates[0].lhs == XY && CIRCUIT.gates[3].lhs == BN;
    assert LatchOk(CIRCUIT, 16, 0);
    assert LatchOk(CIRCUIT, 16, 1);
    assert LatchOk(CIRCUIT, 16, 2);
    assert LatchOk(CIRCUIT, 16, 3);
    forall k | 0 <= k < |CIRCUIT.latches|
      ensures LatchOk(CIRCUIT, 16, k)
    {
      assert k == 0 || k == 1 || k == 2 || k == 3;
    }
  }

  lemma GatesInOrder()
    ensures forall i | 0 <= i < |CIRCUIT.gates| :: GateOk(CIRCUIT, 16, i)
  {
    assert CIRCUIT.latches[0].id == X && CIRCUIT.latches[1].id == L && CIRCUIT.latches[2].id == Y;
    assert CIRCUIT.gates[0].lhs == XY && CIRCUIT.gates[1].lhs == BOTH;
    assert GateOk(CIRCUIT, 16, 0);
    assert GateOk(CIRCUIT, 16, 1);
    assert GateOk(CIRCUIT, 16, 2);
    assert GateOk(CIRCUIT, 16, 3);
    forall i | 0 <= i < |CIRCUIT.gates|
      ensures GateOk(CIRCUIT, 16, i)
    {
      assert i == 0 || i == 1 || i == 2 || i == 3;
    }
  }

  lemma WellFormedCircuit()
    ensures CIRCUIT.WellFormed()
  {
    LatchesInOrder();
    GatesInOrder();
    OrderedWellFormed(CIRCUIT, 16);
  }

  lemma LeavesAre()
    ensures {X, L, Y, B, IN0, IN1} <= CIRCUIT.Leaves()
  {
    LatchLeaf(CIRCUIT, 0);
    LatchLeaf(CIRCUIT, 1);
    LatchLeaf(CIRCUIT, 2);
    LatchLeaf(CIRCUIT, 3);
  }

  lemma FrameMeans(v: Valuation)
    requires CIRCUIT.Frame(v)
    ensures XY in v <==> X in v && Y in v
    ensures XN in v <==> IN0 in v && !(X in v && Y in v && IN1 in v)
    ensures BN in v <==> X in v && Y in v && L in v
  {
    GateMeans(CIRCUIT, v, 0);
    GateMeans(CIRCUIT, v, 1);
    GateMeans(CIRCUIT, v, 2);
    GateMeans(CIRCUIT, v, 3);
  }

  lemma StepMeans(v: Valuation, w: Valuation)
    requires CIRCUIT.Step(v, w)
    ensures X in w <==> IN0 in v && !(X in v && Y in v && IN1 in v)
    ensures L in w <==> IN1 in v
    ensures Y in w <==> X in v && Y in v
    ensures B in w <==> X in v && Y in v && L in v
  {
    WellFormedCircuit();
    FrameMeans(v);
    LatchMeans(CIRCUIT, v, w, 0);
    LatchMeans(CIRCUIT, v, w, 1);
    LatchMeans(CIRCUIT, v, w, 2);
    LatchMeans(CIRCUIT, v, w, 3);
  }

  /** A step from a frame with these leaves. */
  lemma StepFrom(leaf: set<ID>) returns (v: Valuation, w: Valuation)
    requires leaf <= {X, L, Y, B, IN0, IN1}
    ensures CIRCUIT.Step(v, w)
    ensures (X in v <==> X in leaf) && (L in v <==> L in leaf) && (Y in v <==> Y in leaf) && (B in v <==> B in leaf)
    ensures (IN0 in v <==> IN0 in leaf) && (IN1 in v <==> IN1 in leaf)
  {
    WellFormedCircuit();
    LeavesAre();
    v, w := SomeStep(CIRCUIT, leaf);
    assert X in CIRCUIT.Leaves() && L in CIRCUIT.Leaves() && Y in CIRCUIT.Leaves() && B in CIRCUIT.Leaves();
    assert IN0 in CIRCUIT.Leaves() && IN1 in CIRCUIT.Leaves();
  }

  lemma InitMeans(v: Valuation)
    ensures Init(CIRCUIT, INIT, v) <==> CIRCUIT.Frame(v) && X !in v && L !in v && Y in v && B !in v
  {
    forall c
      ensures c in INIT <==> c == [X] || c == [L] || c == [Negate(Y)] || c == [B]
    {
    }
    assert SatCube(v, [X]) <==> X in v by { OneLiteralCube(v, X); }
    assert SatCube(v, [L]) <==> L in v by { OneLiteralCube(v, L); }
    assert SatCube(v, [B]) <==> B in v by { OneLiteralCube(v, B); }
    assert SatCube(v, [Negate(Y)]) <==> Y !in v by { OneLiteralCube(v, Negate(Y)); }
    assert [X] in INIT && [L] in INIT && [Negate(Y)] in INIT && [B] in INIT;
  }

  lemma OneLiteralCube(v: Valuation, lit: ID)
    ensures SatCube(v, [lit]) <==> Holds(v, lit)
  {
    assert lit in [lit];
  }

  lemma CubesMean(v: Valuation)
    ensures SatCube(v, [X, L, Y]) <==> X in v && L in v && Y in v
    ensures SatCube(v, [L, Y]) <==> L in v && Y in v
    ensures SatCube(v, [X, Y]) <==> X in v && Y in v
    ensures SatCube(v, [X, L]) <==> X in v && L in v
    ensures SatCube(v, [Y]) <==> Y in v
    ensures SatCube(v, [L]) <==> L in v
    ensures SatCube(v, [B]) <==> B in v
  {
    assert X in [X, L, Y] && L in [X, L, Y] && Y in [X, L, Y];
    assert L in [L, Y] && Y in [L, Y] && X in [X, Y] && Y in [X, Y] && X in [X, L] && L in [X, L];
    assert Y in [Y] && L in [L] && B in [B];
  }

  // ----- the queries of the run -----

  /** The trace when the solver starts, after the target was blocked at level 1,
      after its predecessor was, and after that was blocked at level 2. */
  const START: Trace := map[[X] := Fin(0), [L] := Fin(0), [Negate(Y)] := Fin(0), [B] := Fin(0)]
  const ROUND1: Trace := START[[B] := Fin(1)]
  const LEARNT1: Trace := ROUND1[[L, Y] := Fin(1)]
  const LEARNT2: Trace := LEARNT1[[L, Y] := Fin(2)]

  lemma Frames()
    ensures FrameCubes(START, Fin(0)) == INIT && FrameCubes(ROUND1, Fin(0)) == INIT
    ensures FrameCubes(ROUND1, Fin(1)) == {[B]} && FrameCubes(ROUND1, Inf) == {}
    ensures FrameCubes(LEARNT1, Fin(1)) == {[B], [L, Y]} && FrameCubes(LEARNT2, Fin(1)) == {[B], [L, Y]}
  {
  }

  lemma StartIsFresh()
    ensures CIRCUIT.ResetCubes() == [[X], [L], [Negate(Y)], [B]]
    ensures START == Restricted(map[], INIT)
  {
    var a := CIRCUIT.latches;
    assert a[1..] == [Latch(L, IN1, ID_FALSE), Latch(Y, XY, ID_TRUE), Latch(B, BN, ID_FALSE)];
    assert a[1..][1..] == [Latch(Y, XY, ID_TRUE), Latch(B, BN, ID_FALSE)];
    assert a[1..][1..][1..] == [Latch(B, BN, ID_FALSE)];
    assert a[1..][1..][1..][1..] == [];
    assert ResetCubesOf(a[1..][1..][1..]) == [[B]];
    assert ResetCubesOf(a[1..][1..]) == [[Negate(Y)], [B]];
    assert ResetCubesOf(a[1..]) == [[L], [Negate(Y)], [B]];
  }

  lemma InitialStates()
    ensures Initiated(CIRCUIT, INIT, [X, L, Y]) && Initiated(CIRCUIT, INIT, [L, Y]) && Initiated(CIRCUIT, INIT, [X, Y])
    ensures Initiated(CIRCUIT, INIT, [L]) && Initiated(CIRCUIT, INIT, [B]) && !Initiated(CIRCUIT, INIT, [Y])
  {
    forall v | Init(CIRCUIT, INIT, v)
      ensures !SatCube(v, [X, L, Y]) && !SatCube(v, [L, Y]) && !SatCube(v, [X, Y]) && !SatCube(v, [L]) && !SatCube(v, [B])
    {
      InitMeans(v);
      CubesMean(v);
    }
    var v, w := StepFrom({Y});
    InitMeans(v);
    CubesMean(v);
  }

  lemma AvoidsFrames(v: Valuation)
    ensures Avoids(v, {[B]}) <==> B !in v
    ensures Avoids(v, {[B], [L, Y]}) <==> B !in v && !(L in v && Y in v)
  {
    CubesMean(v);
    assert [B] in {[B]} && [B] in {[B], [L, Y]} && [L, Y] in {[B], [L, Y]};
  }

  /** From initial states: the target and y are out of reach in one step, l is
      not. */
  lemma FirstSteps()
    ensures Consecution(CIRCUIT, INIT, [B], [B])
    ensures Consecution(CIRCUIT, INIT, [X, L, Y], [Y])
    ensures !Consecution(CIRCUIT, INIT, [L], [L])
  {
    forall v, w | CIRCUIT.Step(v, w) && Avoids(v, INIT)
      ensures !SatCube(w, [B]) && !SatCube(w, [Y])
    {
      assert Init(CIRCUIT, INIT, v);
      InitMeans(v);
      StepMeans(v, w);
      CubesMean(w);
    }
    var v, w := StepFrom({Y, IN1});
    InitMeans(v);
    StepMeans(v, w);
    CubesMean(v);
    CubesMean(w);
  }

  /** Two steps on the target has the predecessor {x, l, y}. */
  lemma TargetOpen()
    ensures !Consecution(CIRCUIT, {[B]}, [B], [B])
    ensures forall inp, pinp :: Leads(CIRCUIT, {}, [X, L, Y], inp, pinp, [B])
  {
    var v, w := StepFrom({X, L, Y});
    AvoidsFrames(v);
    StepMeans(v, w);
    CubesMean(v);
    CubesMean(w);
    forall v, w | CIRCUIT.Step(v, w) && SatCube(v, [X, L, Y])
      ensures SatCube(w, [B])
    {
      StepMeans(v, w);
      CubesMean(v);
      CubesMean(w);
    }
  }

  /** In the frame at level 1 the predecessor is blocked, and so is {x, y} with
      core {y}; but {l, y} is not, and neither is {l}. */
  lemma SecondSteps()
    ensures Consecution(CIRCUIT, {[B], [L, Y]}, [X, L, Y], [X, L, Y])
    ensures Consecution(CIRCUIT, {[B], [L, Y]}, [X, Y], [Y])
    ensures !Consecution(CIRCUIT, {[B], [L, Y]}, [L, Y], [L, Y])
    ensures !Consecution(CIRCUIT, {[B], [L, Y]}, [L], [L])
  {
    forall v, w | CIRCUIT.Step(v, w)
      ensures !SatCube(w, [X, L, Y])
      ensures !SatCube(v, [X, Y]) ==> !SatCube(w, [Y])
    {
      StepMeans(v, w);
      CubesMean(v);
      CubesMean(w);
    }
    var v, w := StepFrom({X, Y, IN1});
    AvoidsFrames(v);
    StepMeans(v, w);
    CubesMean(v);
    CubesMean(w);
    Escaping(v, w);
  }

  lemma Escaping(v: Valuation, w: Valuation)
    requires CIRCUIT.Step(v, w) && Avoids(v, {[B], [L, Y]})
    requires !SatCube(v, [L, Y]) && SatCube(w, [L, Y]) && !SatCube(v, [L]) && SatCube(w, [L])
    ensures !Consecution(CIRCUIT, {[B], [L, Y]}, [L, Y], [L, Y])
    ensures !Consecution(CIRCUIT, {[B], [L, Y]}, [L], [L])
  {
  }

  // ----- what block makes of them -----

  lemma Parts()
    ensures SubtractLit([X, L, Y], 0) == [L, Y] && SubtractLit([X, L, Y], 1) == [X, Y]
    ensures SubtractLit([L, Y], 0) == [Y] && SubtractLit([L, Y], 1) == [L]
  {
  }

  /** {y} admits initial states, and {x, l, y} gives it back l. */
  lemma GivesBackL()
    ensures MadeInitiated(CIRCUIT, INIT, [Y], [X, L, Y]) == [L, Y]
  {
    InitialStates();
    Parts();
    assert Reinitiated(CIRCUIT, INIT, [Y], [L, Y], 2) == [L, Y];
    assert Reinitiated(CIRCUIT, INIT, [Y], [L, Y], 1) == [L, Y];
    assert Reinitiated(CIRCUIT, INIT, [Y], [L, Y], 0) == [L, Y];
    assert Reinitiated(CIRCUIT, INIT, [Y], [X, L, Y], 0) == [L, Y];
  }

  lemma StuckPair(f: set<Cube>)
    requires !Consecution(CIRCUIT, f, [L], [L])
    ensures OnePass(CIRCUIT, INIT, f, false, [L, Y], [L, Y])
    ensures TriesNext(CIRCUIT, INIT, f, false, Attempt([L, Y], 1), Attempt([L, Y], 2))
  {
    InitialStates();
    Parts();
    var path := [Attempt([L, Y], 0), Attempt([L, Y], 1), Attempt([L, Y], 2)];
    assert TriesNext(CIRCUIT, INIT, f, false, path[0], path[1]);
    assert TriesNext(CIRCUIT, INIT, f, false, path[1], path[2]);
    assert TriedTo(CIRCUIT, INIT, f, false, [L, Y], path);
  }

  /** One pass, and one that changes nothing. */
  lemma TwoPasses(f: set<Cube>, s: Cube, t: Cube)
    requires OnePass(CIRCUIT, INIT, f, false, s, t) && OnePass(CIRCUIT, INIT, f, false, t, t)
    ensures MayGeneralize(CIRCUIT, INIT, f, false, s, t)
  {
    PassNext(CIRCUIT, INIT, f, false, [s], t);
    assert [s] + [t] == [s, t];
    PassNext(CIRCUIT, INIT, f, false, [s, t], t);
  }

  /** Level 1: the target, and {x, l, y} with core {y}. */
  lemma BlockedFirst()
    ensures MayBlock(CIRCUIT, INIT, INIT, false, [B], [B])
    ensures MayBlock(CIRCUIT, INIT, INIT, false, [X, L, Y], [L, Y])
  {
    FirstSteps();
    InitialStates();
    assert Answers(CIRCUIT, INIT, [B], [B]);
    var one := [Attempt([B], 0)];
    assert TriedTo(CIRCUIT, INIT, INIT, false, [B], one);
    TwoPasses(INIT, [B], [B]);
    GivesBackL();
    StuckPair(INIT);
    TwoPasses(INIT, [L, Y], [L, Y]);
    assert Answers(CIRCUIT, INIT, [X, L, Y], [Y]);
  }

  lemma FirstTry(f: set<Cube>)
    requires f == {[B], [L, Y]}
    ensures TriesNext(CIRCUIT, INIT, f, false, Attempt([X, L, Y], 0), Attempt([X, L, Y], 1))
  {
    SecondSteps();
    Parts();
  }

  lemma SecondTry(f: set<Cube>)
    requires f == {[B], [L, Y]}
    ensures TriesNext(CIRCUIT, INIT, f, false, Attempt([X, L, Y], 1), Attempt([L, Y], 1))
  {
    SecondSteps();
    InitialStates();
    Parts();
    GivesBackL();
    assert Answers(CIRCUIT, f, [X, Y], [Y]);
    CoreBlocks(CIRCUIT, f, [X, Y], [Y]);
  }

  lemma DropsX(f: set<Cube>)
    requires f == {[B], [L, Y]}
    ensures OnePass(CIRCUIT, INIT, f, false, [X, L, Y], [L, Y])
  {
    SecondSteps();
    StuckPair(f);
    FirstTry(f);
    SecondTry(f);
    var path := [Attempt([X, L, Y], 0), Attempt([X, L, Y], 1), Attempt([L, Y], 1), Attempt([L, Y], 2)];
    assert TriedTo(CIRCUIT, INIT, f, false, [X, L, Y], path);
  }

  lemma SecondGeneralizes(f: set<Cube>)
    requires f == {[B], [L, Y]} && !Consecution(CIRCUIT, f, [L], [L])
    ensures MayGeneralize(CIRCUIT, INIT, f, false, [X, L, Y], [L, Y])
  {
    DropsX(f);
    StuckPair(f);
    TwoPasses(f, [X, L, Y], [L, Y]);
  }

  /** A cube that is its own core is generalised as it is. */
  lemma BlockedWhole(f: set<Cube>, s: Cube, t: Cube)
    requires Ascending(s) && Consecution(CIRCUIT, f, s, s) && Initiated(CIRCUIT, INIT, s)
    requires MayGeneralize(CIRCUIT, INIT, f, false, s, t)
    ensures MayBlock(CIRCUIT, INIT, f, false, s, t)
  {
    assert Answers(CIRCUIT, f, s, s) && MadeInitiated(CIRCUIT, INIT, s, s) == s;
  }

  lemma SecondWhole(f: set<Cube>, s: Cube)
    requires f == {[B], [L, Y]} && s == [X, L, Y]
    ensures Ascending(s) && Consecution(CIRCUIT, f, s, s) && Initiated(CIRCUIT, INIT, s)
    ensures !Consecution(CIRCUIT, f, [L], [L])
  {
    SecondSteps();
    InitialStates();
  }

  /** Level 2: dropping l from {x, l, y} gives it back, without x. */
  lemma BlockedSecond(f: set<Cube>)
    requires f == {[B], [L, Y]}
    ensures MayBlock(CIRCUIT, INIT, f, false, [X, L, Y], [L, Y])
  {
    SecondWhole(f, [X, L, Y]);
    SecondGeneralizes(f);
    BlockedWhole(f, [X, L, Y], [L, Y]);
  }

  /** A run of prove from the solver's first trace: the target is blocked at level
      1, cannot be pushed, and has the predecessor {x, l, y}, which is blocked at
      level 1 by {l, y}. It comes back at level 2, where block may answer {l, y}
      again, although the frame below does not support it. */
  lemma DroppedLiteralReturns()
    ensures CIRCUIT.WellFormed() && START == Restricted(map[], INIT)
    ensures CIRCUIT.ResetCubes() == [[X], [L], [Negate(Y)], [B]] && CIRCUIT.bad == B
    ensures Initiated(CIRCUIT, INIT, [B]) && !Subsumed(START, [B], 1)
    ensures MayBlock(CIRCUIT, INIT, FrameCubes(START, Fin(0)), false, [B], [B])
    ensures !Consecution(CIRCUIT, FrameCubes(ROUND1, Fin(1)), [B], [B]) && !Subsumed(ROUND1, [B], 2)
    ensures forall inp, pinp :: Leads(CIRCUIT, FrameCubes(ROUND1, Inf), [X, L, Y], inp, pinp, [B])
    ensures !Subsumed(ROUND1, [X, L, Y], 1) && !Subsumed(LEARNT1, [X, L, Y], 2)
    ensures MayBlock(CIRCUIT, INIT, FrameCubes(ROUND1, Fin(0)), false, [X, L, Y], [L, Y])
    ensures MayBlock(CIRCUIT, INIT, FrameCubes(LEARNT1, Fin(1)), false, [X, L, Y], [L, Y])
    ensures !Consecution(CIRCUIT, FrameCubes(LEARNT1, Fin(1)), [L, Y], [L, Y])
    ensures !Supported(CIRCUIT, FrameCubes(LEARNT2, Fin(1)), [L, Y])
  {
    WellFormedCircuit();
    StartIsFresh();
    Frames();
    InitialStates();
    BlockedFirst();
    TargetOpen();
    BlockedSecond(FrameCubes(LEARNT1, Fin(1)));
    SecondSteps();
    NothingSubsumes();
    LostAtTwo();
  }

  // ----- the end of the run -----

  /** The trace when the target has been blocked at level 2 as well, which leaves
      level 1 empty. */
  const BLOCKED2: Trace := LEARNT2[[B] := Fin(2)]

  lemma LastFrames()
    ensures FrameCubes(LEARNT2, Fin(1)) == {[B], [L, Y]}
    ensures (forall c | c in BLOCKED2 :: BLOCKED2[c] != Fin(1)) && FrameCubes(Promoted(BLOCKED2, 1), Inf) == {[B], [L, Y]}
  {
    Frames();
    PromotedFrames(BLOCKED2, 1, Inf);
  }

  lemma TargetBlocked()
    ensures Consecution(CIRCUIT, {[B], [L, Y]}, [B], [B])
  {
    forall v, w | CIRCUIT.Step(v, w) && Avoids(v, {[B], [L, Y]})
      ensures !SatCube(w, [B])
    {
      AvoidsFrames(v);
      StepMeans(v, w);
      CubesMean(w);
    }
  }

  lemma TargetBlockedBy(f: set<Cube>)
    requires f == {[B], [L, Y]}
    ensures MayBlock(CIRCUIT, INIT, f, false, [B], [B])
  {
    TargetBlocked();
    InitialStates();
    var one := [Attempt([B], 0)];
    assert TriedTo(CIRCUIT, INIT, f, false, [B], one);
    TwoPasses(f, [B], [B]);
    assert Answers(CIRCUIT, f, [B], [B]);
  }

  /** The run goes on: with {l, y} in the frame at level 1 the target is blocked at level
      2. That leaves level 1 empty, so both lemmas are promoted, and the bad literal is
      excluded. Prove answers SAFE, and what it records is not inductive. */
  lemma SafeWithoutInvariant(proof: seq<Clause>)
    requires Records(proof, FrameCubes(Promoted(BLOCKED2, 1), Inf))
    ensures !Subsumed(LEARNT2, [B], 2)
    ensures MayBlock(CIRCUIT, INIT, FrameCubes(LEARNT2, Fin(1)), false, [B], [B])
    ensures Subsumed(BLOCKED2, [B], 2) && Subsumed(BLOCKED2, [X, L, Y], 2)
    ensures forall c | c in BLOCKED2 :: BLOCKED2[c] != Fin(1)
    ensures Excludes(CIRCUIT, FrameCubes(Promoted(BLOCKED2, 1), Inf), [CIRCUIT.bad])
    ensures !InductiveProof(CIRCUIT, INIT, CIRCUIT.bad, proof)
  {
    LastFrames();
    TargetBlockedBy(FrameCubes(LEARNT2, Fin(1)));
    SubsumedAtTheEnd();
    BadExcluded();
    NotInductive(proof);
  }

  lemma SubsumedAtTheEnd()
    ensures !Subsumed(LEARNT2, [B], 2) && Subsumed(BLOCKED2, [B], 2) && Subsumed(BLOCKED2, [X, L, Y], 2)
  {
    assert B in [B] && B !in [L, Y] && L in [L, Y] && L !in [B];
    assert SubCube([B], [B]) && BLOCKED2[[B]] == Fin(2);
    assert SubCube([L, Y], [X, L, Y]) && BLOCKED2[[L, Y]] == Fin(2);
  }

  lemma BadExcluded()
    ensures Excludes(CIRCUIT, {[B], [L, Y]}, [CIRCUIT.bad])
  {
    forall v | CIRCUIT.Frame(v) && Avoids(v, {[B], [L, Y]})
      ensures !SatCube(v, [B])
    {
      AvoidsFrames(v);
      CubesMean(v);
    }
  }

  lemma NotInductive(proof: seq<Clause>)
    requires Records(proof, {[B], [L, Y]})
    ensures !InductiveProof(CIRCUIT, INIT, CIRCUIT.bad, proof)
  {
    LostAtTwo();
    RecordsSelfSupporting(CIRCUIT, {[B], [L, Y]}, proof);
    assert [L, Y] in {[B], [L, Y]};
  }

  lemma NothingSubsumes()
    ensures !Subsumed(START, [B], 1) && !Subsumed(ROUND1, [B], 2)
    ensures !Subsumed(ROUND1, [X, L, Y], 1) && !Subsumed(LEARNT1, [X, L, Y], 2)
  {
    assert B in [B] && B !in [X, L, Y];
  }

  lemma LostAtTwo()
    ensures !Supported(CIRCUIT, {[B], [L, Y]}, [L, Y])
  {
    var v, w := StepFrom({X, Y, IN1});
    AvoidsFrames(v);
    StepMeans(v, w);
    CubesMean(w);
  }
}
