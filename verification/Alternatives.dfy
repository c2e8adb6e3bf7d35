/** A proof with its property twice, which any one of three further clauses
    supports: its support and its collapse sets. */
module Alternatives {
  import opened Ids
  import opened TransitionRelations
  import opened ProofSets
  import opened PropertyCopies
  import opened CollapseSets
  import opened SmallCircuits

  const P: ID := 4
  const A: ID := 6
  const B: ID := 8
  const C: ID := 10
  const NEITHER: ID := 12
  const NONE: ID := 14
  const PN: ID := 16

  /** p' = p & (a | b | c), and a, b and c stay as they are. */
  const CIRCUIT := TransitionRelation(
    {},
    [Latch(P, PN, ID_TRUE), Latch(A, A, ID_TRUE), Latch(B, B, ID_TRUE), Latch(C, C, ID_TRUE)],
    [AndGate(NEITHER, Negate(A), Negate(B)), AndGate(NONE, NEITHER, Negate(C)), AndGate(PN, P, Negate(NONE))],
    Negate(P))

  const PROOF := Proof(CIRCUIT, [[P], [P], [A], [B], [C]], 0)
  const EVERY: set<ClauseID> := {0, 1, 2, 3, 4}

  lemma WellFormedCircuit()
    ensures CIRCUIT.WellFormed()
  {
    assert CIRCUIT.latches[0].id == P && CIRCUIT.latches[1].id == A && CIRCUIT.latches[2].id == B;
    assert CIRCUIT.latches[3].id == C;
    assert CIRCUIT.gates[0].lhs == NEITHER && CIRCUIT.gates[1].lhs == NONE && CIRCUIT.gates[2].lhs == PN;
    assert LatchOk(CIRCUIT, 12, 0) && LatchOk(CIRCUIT, 12, 1) && LatchOk(CIRCUIT, 12, 2) && LatchOk(CIRCUIT, 12, 3);
    assert GateOk(CIRCUIT, 12, 0) && GateOk(CIRCUIT, 12, 1) && GateOk(CIRCUIT, 12, 2);
    OrderedWellFormed(CIRCUIT, 12);
  }

  lemma StepMeans(v: Valuation, w: Valuation)
    requires CIRCUIT.Step(v, w)
    ensures P in w <==> P in v && (A in v || B in v || C in v)
    ensures (A in w <==> A in v) && (B in w <==> B in v) && (C in w <==> C in v)
  {
    WellFormedCircuit();
    GateMeans(CIRCUIT, v, 0);
    GateMeans(CIRCUIT, v, 1);
    GateMeans(CIRCUIT, v, 2);
    LatchMeans(CIRCUIT, v, w, 0);
    LatchMeans(CIRCUIT, v, w, 1);
    LatchMeans(CIRCUIT, v, w, 2);
    LatchMeans(CIRCUIT, v, w, 3);
  }

  /** A step from the state in which only the property holds. */
  lemma StepFromP() returns (v: Valuation, w: Valuation)
    ensures CIRCUIT.Step(v, w) && P in v && A !in v && B !in v && C !in v && P !in w
  {
    WellFormedCircuit();
    LatchLeaf(CIRCUIT, 0);
    LatchLeaf(CIRCUIT, 1);
    LatchLeaf(CIRCUIT, 2);
    LatchLeaf(CIRCUIT, 3);
    v, w := SomeStep(CIRCUIT, {P});
    assert P in CIRCUIT.Leaves() && A in CIRCUIT.Leaves() && B in CIRCUIT.Leaves() && C in CIRCUIT.Leaves();
    StepMeans(v, w);
  }

  // ----- support -----

  /** The variable of each clause. */
  function VarOf(c: ClauseID): ID
    requires c < 5
  {
    if c < 2 then P else 2 + 2 * c
  }

  lemma ClauseMeans(v: Valuation, c: ClauseID)
    requires c < 5
    ensures c < |PROOF.clauses| && (SatClause(v, PROOF.clauses[c]) <==> VarOf(c) in v)
  {
    OneLiteral(v, VarOf(c));
  }

  lemma SetMeans(v: Valuation, s: set<ClauseID>)
    ensures SatSet(PROOF, v, s) <==> forall c | c in s && c < 5 :: VarOf(c) in v
  {
    forall c: ClauseID | c < 5
      ensures c < |PROOF.clauses| && (SatClause(v, PROOF.clauses[c]) <==> VarOf(c) in v)
    {
      ClauseMeans(v, c);
    }
  }

  predicate HasOne(s: set<ClauseID>) {
    2 in s || 3 in s || 4 in s
  }

  lemma AllIds()
    ensures PROOF.All() == EVERY && Copies(PROOF) == {0, 1} && PROOF.Valid()
  {
    assert PROOF.clauses[0] == [P] && PROOF.clauses[1] == [P];
    assert PROOF.clauses[2] == [A] && PROOF.clauses[3] == [B] && PROOF.clauses[4] == [C];
    assert forall c: ClauseID :: c in PROOF.All() <==> c < 5;
  }

  lemma SupportsMeans(s: set<ClauseID>, c: ClauseID)
    requires c < 5
    ensures c < |PROOF.clauses| && (Supports(PROOF, s, c) <==> c >= 2 || HasOne(s))
  {
    if c >= 2 || HasOne(s) {
      forall v, w | CIRCUIT.Step(v, w) && SatSet(PROOF, v, s) && SatClause(v, PROOF.clauses[c])
        ensures SatClause(w, PROOF.clauses[c])
      {
        Kept(v, w, s, c);
      }
    } else {
      var v, w := StepFromP();
      SetMeans(v, s);
      ClauseMeans(v, c);
      ClauseMeans(w, c);
    }
  }

  lemma Kept(v: Valuation, w: Valuation, s: set<ClauseID>, c: ClauseID)
    requires c < 5 && (c >= 2 || HasOne(s))
    requires CIRCUIT.Step(v, w) && SatSet(PROOF, v, s) && SatClause(v, PROOF.clauses[c])
    ensures SatClause(w, PROOF.clauses[c])
  {
    SetMeans(v, s);
    ClauseMeans(v, c);
    ClauseMeans(w, c);
    StepMeans(v, w);
    assert (2 in s ==> VarOf(2) in v) && (3 in s ==> VarOf(3) in v) && (4 in s ==> VarOf(4) in v);
  }

  lemma InductiveMeans(s: set<ClauseID>)
    requires s <= EVERY
    ensures Inductive(PROOF, s) <==> (0 !in s && 1 !in s) || HasOne(s)
  {
    AllIds();
    forall c | c in s
      ensures c < |PROOF.clauses| && (Supports(PROOF, s, c) <==> c >= 2 || HasOne(s))
    {
      SupportsMeans(s, c);
    }
  }

  predicate Safe(s: set<ClauseID>) {
    0 in s && HasOne(s)
  }

  lemma SafeMeans(s: set<ClauseID>)
    requires s <= EVERY
    ensures HasSafe(PROOF, s, {0}) <==> Safe(s)
  {
    AllIds();
    if Safe(s) {
      InductiveMeans(s);
      assert SafeInductive(PROOF, s, {0});
    } else {
      forall t | t <= s && 0 in t
        ensures !Inductive(PROOF, t)
      {
        InductiveMeans(t);
      }
    }
  }

  // ----- collapse sets -----

  const ONES: set<ClauseID> := {2, 3, 4}

  lemma CollapsesMeans(c: ClauseID, k: set<ClauseID>)
    requires c < 2
    ensures c < |PROOF.clauses| && (Collapses(PROOF, c, k) <==> k <= EVERY && c !in k && ONES <= k)
  {
    AllIds();
    if k <= EVERY && c !in k && ONES <= k {
      var v, w := StepFromP();
      ClauseMeans(v, 0);
      ClauseMeans(v, 1);
      ClauseMeans(w, c);
      assert forall d | d in Failing(PROOF, v) :: d in k;
    }
    if Collapses(PROOF, c, k) {
      MissedCollapse(PROOF, EVERY - k, c, k);
      SupportsMeans(EVERY - k, c);
    }
  }

  lemma MinimalMeans(c: ClauseID, k: set<ClauseID>)
    requires c < 2
    ensures c < |PROOF.clauses| && (MinimalCollapse(PROOF, c, k) <==> k == ONES)
  {
    CollapsesMeans(c, k);
    CollapsesMeans(c, ONES);
    forall l | l < ONES
      ensures !Collapses(PROOF, c, l)
    {
      CollapsesMeans(c, l);
    }
    if MinimalCollapse(PROOF, c, k) {
      assert !(ONES < k);
    }
  }
}
