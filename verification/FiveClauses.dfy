/** A proof of five clauses in which d supports what e and f support together:
    its support and its collapse sets. */
module FiveClauses {
  import opened Collections
  import opened Ids
  import opened TransitionRelations
  import opened ProofSets
  import opened CollapseSets
  import opened SmallCircuits

  const P: ID := 4
  const C: ID := 6
  const D: ID := 8
  const E: ID := 10
  const F: ID := 12
  const EF: ID := 14
  const NONE: ID := 16
  const PN: ID := 18
  const CN: ID := 20

  /** p' = p & (d | e & f), c' = c & d, and d, e and f stay as they are. */
  const CIRCUIT := TransitionRelation(
    {},
    [Latch(P, PN, ID_TRUE), Latch(C, CN, ID_TRUE), Latch(D, D, ID_TRUE), Latch(E, E, ID_TRUE), Latch(F, F, ID_TRUE)],
    [AndGate(EF, E, F), AndGate(NONE, Negate(D), Negate(EF)), AndGate(PN, P, Negate(NONE)), AndGate(CN, C, D)],
    Negate(P))

  const PROOF := Proof(CIRCUIT, [[P], [C], [D], [E], [F]], 0)

  lemma LatchesInOrder()
    ensures forall k | 0 <= k < |CIRCUIT.latches| :: LatchOk(CIRCUIT, 14, k)
  {
    assert CIRCUIT.gates[2].lhs == PN && CIRCUIT.gates[3].lhs == CN;
    assert CIRCUIT.latches[2].id == D && CIRCUIT.latches[3].id == E && CIRCUIT.latches[4].id == F;
    assert LatchOk(CIRCUIT, 14, 0);
    assert LatchOk(CIRCUIT, 14, 1);
    assert LatchOk(CIRCUIT, 14, 2);
    assert LatchOk(CIRCUIT, 14, 3);
    assert LatchOk(CIRCUIT, 14, 4);
    forall k | 0 <= k < |CIRCUIT.latches|
      ensures LatchOk(CIRCUIT, 14, k)
    {
      assert k == 0 || k == 1 || k == 2 || k == 3 || k == 4;
    }
  }

  lemma GatesAreInOrder()
    ensures forall i | 0 <= i < |CIRCUIT.gates| :: GateOk(CIRCUIT, 14, i)
  {
    assert CIRCUIT.latches[0].id == P && CIRCUIT.latches[1].id == C && CIRCUIT.latches[2].id == D;
    assert CIRCUIT.latches[3].id == E && CIRCUIT.latches[4].id == F;
    assert CIRCUIT.gates[0].lhs == EF && CIRCUIT.gates[1].lhs == NONE;
    assert GateOk(CIRCUIT, 14, 0);
    assert GateOk(CIRCUIT, 14, 1);
    assert GateOk(CIRCUIT, 14, 2);
    assert GateOk(CIRCUIT, 14, 3);
    forall i | 0 <= i < |CIRCUIT.gates|
      ensures GateOk(CIRCUIT, 14, i)
    {
      assert i == 0 || i == 1 || i == 2 || i == 3;
    }
  }

  lemma WellFormedCircuit()
    ensures CIRCUIT.WellFormed()
  {
    LatchesInOrder();
    GatesAreInOrder();
    OrderedWellFormed(CIRCUIT, 14);
  }

  lemma NoneMeans(v: Valuation)
    requires CIRCUIT.Frame(v)
    ensures NONE in v <==> D !in v && !(E in v && F in v)
  {
    GateMeans(CIRCUIT, v, 0);
    GateMeans(CIRCUIT, v, 1);
  }

  lemma FrameMeans(v: Valuation)
    requires CIRCUIT.Frame(v)
    ensures PN in v <==> P in v && (D in v || (E in v && F in v))
    ensures CN in v <==> C in v && D in v
  {
    NoneMeans(v);
    GateMeans(CIRCUIT, v, 2);
    GateMeans(CIRCUIT, v, 3);
  }

  lemma StepMeans(v: Valuation, w: Valuation)
    requires CIRCUIT.Step(v, w)
    ensures P in w <==> P in v && (D in v || (E in v && F in v))
    ensures C in w <==> C in v && D in v
    ensures (D in w <==> D in v) && (E in w <==> E in v) && (F in w <==> F in v)
  {
    WellFormedCircuit();
    FrameMeans(v);
    LatchMeans(CIRCUIT, v, w, 0);
    LatchMeans(CIRCUIT, v, w, 1);
    LatchMeans(CIRCUIT, v, w, 2);
    LatchMeans(CIRCUIT, v, w, 3);
    LatchMeans(CIRCUIT, v, w, 4);
  }

  /** A step from any latch values. */
  lemma StepFrom(leaf: set<ID>) returns (v: Valuation, w: Valuation)
    requires leaf <= {P, C, D, E, F}
    ensures CIRCUIT.Step(v, w)
    ensures (P in v <==> P in leaf) && (C in v <==> C in leaf) && (D in v <==> D in leaf)
    ensures (E in v <==> E in leaf) && (F in v <==> F in leaf)
  {
    WellFormedCircuit();
    LatchLeaf(CIRCUIT, 0);
    LatchLeaf(CIRCUIT, 1);
    LatchLeaf(CIRCUIT, 2);
    LatchLeaf(CIRCUIT, 3);
    LatchLeaf(CIRCUIT, 4);
    v, w := SomeStep(CIRCUIT, leaf);
    assert P in CIRCUIT.Leaves() && C in CIRCUIT.Leaves() && D in CIRCUIT.Leaves();
    assert E in CIRCUIT.Leaves() && F in CIRCUIT.Leaves();
  }

  // ----- support and collapse sets -----

  /** The variable of each clause. */
  function VarOf(c: ClauseID): ID
    requires c < 5
  {
    4 + 2 * c
  }

  lemma ClauseMeans(v: Valuation, c: ClauseID)
    requires c < 5
    ensures c < |PROOF.clauses| && (SatClause(v, PROOF.clauses[c]) <==> VarOf(c) in v)
  {
    OneLiteral(v, VarOf(c));
  }

  lemma SetMeans(v: Valuation, s: set<ClauseID>)
    ensures SatSet(PROOF, v, s) <==> forall c | c in s && c < 5 :: VarOf(c) in v
  {
    forall c: ClauseID | c < 5
      ensures c < |PROOF.clauses| && (SatClause(v, PROOF.clauses[c]) <==> VarOf(c) in v)
    {
      ClauseMeans(v, c);
    }
  }

  /** What each clause needs besides itself. */
  predicate Needs(s: set<ClauseID>, c: ClauseID) {
    (c == 0 ==> 2 in s || (3 in s && 4 in s)) && (c == 1 ==> 2 in s)
  }

  lemma SupportsMeans(s: set<ClauseID>, c: ClauseID)
    requires c < 5
    ensures c < |PROOF.clauses| && (Supports(PROOF, s, c) <==> Needs(s, c))
  {
    if Needs(s, c) {
      forall v, w | CIRCUIT.Step(v, w) && SatSet(PROOF, v, s) && SatClause(v, PROOF.clauses[c])
        ensures SatClause(w, PROOF.clauses[c])
      {
        Kept(v, w, s, c);
      }
    } else {
      var v, w := Lost(s, c);
    }
  }

  lemma Kept(v: Valuation, w: Valuation, s: set<ClauseID>, c: ClauseID)
    requires c < 5 && Needs(s, c) && CIRCUIT.Step(v, w) && SatSet(PROOF, v, s) && SatClause(v, PROOF.clauses[c])
    ensures SatClause(w, PROOF.clauses[c])
  {
    SetMeans(v, s);
    ClauseMeans(v, c);
    ClauseMeans(w, c);
    StepMeans(v, w);
    assert 2 in s ==> VarOf(2) in v;
    assert 3 in s ==> VarOf(3) in v;
    assert 4 in s ==> VarOf(4) in v;
  }

  lemma Lost(s: set<ClauseID>, c: ClauseID) returns (v: Valuation, w: Valuation)
    requires c < 5 && !Needs(s, c)
    ensures c < |PROOF.clauses| && CIRCUIT.Step(v, w)
    ensures SatSet(PROOF, v, s) && SatClause(v, PROOF.clauses[c]) && !SatClause(w, PROOF.clauses[c])
  {
    if c == 1 {
      v, w := LostFrom(s, c, {P, C, E, F});
    } else if 3 in s {
      v, w := LostFrom(s, c, {P, C, E});
    } else {
      v, w := LostFrom(s, c, {P, C, F});
    }
  }

  lemma LostFrom(s: set<ClauseID>, c: ClauseID, leaf: set<ID>) returns (v: Valuation, w: Valuation)
    requires P in leaf && C in leaf && D !in leaf && leaf <= {P, C, D, E, F}
    requires 2 !in s && (3 in s ==> E in leaf) && (4 in s ==> F in leaf)
    requires c == 1 || (c == 0 && !(E in leaf && F in leaf))
    ensures c < |PROOF.clauses| && CIRCUIT.Step(v, w)
    ensures SatSet(PROOF, v, s) && SatClause(v, PROOF.clauses[c]) && !SatClause(w, PROOF.clauses[c])
  {
    v, w := StepFrom(leaf);
    StepMeans(v, w);
    SetMeans(v, s);
    ClauseMeans(v, c);
    ClauseMeans(w, c);
  }

  lemma AllIds()
    ensures forall c: ClauseID :: c in PROOF.All() <==> c < 5
  {
  }

  /** The inductive sets, and the sets with a safe inductive subset. */
  lemma InductiveMeans(s: set<ClauseID>)
    requires s <= PROOF.All()
    ensures Inductive(PROOF, s) <==> forall c | c in s :: Needs(s, c)
  {
    AllIds();
    forall c | c in s
      ensures c < |PROOF.clauses| && (Supports(PROOF, s, c) <==> Needs(s, c))
    {
      SupportsMeans(s, c);
    }
  }

  predicate Safe(s: set<ClauseID>) {
    0 in s && (2 in s || (3 in s && 4 in s))
  }

  lemma SafeMeans(s: set<ClauseID>)
    requires s <= PROOF.All()
    ensures HasSafe(PROOF, s, {0}) <==> Safe(s)
  {
    if Safe(s) {
      var t := if 2 in s then {0, 2} else {0, 3, 4};
      InductiveMeans(t);
      assert SafeInductive(PROOF, t, {0});
    } else {
      forall t | t <= s && 0 in t
        ensures !Inductive(PROOF, t)
      {
        InductiveMeans(t);
      }
    }
  }

  /** The minimal collapse sets of p and c that matter. */
  predicate Breaks(c: ClauseID, k: set<ClauseID>) {
    && k <= PROOF.All() && c !in k && (c == 0 || c == 1) && 2 in k && (c == 0 ==> 3 in k || 4 in k)
  }

  lemma CollapsesMeans(c: ClauseID, k: set<ClauseID>)
    requires c == 0 || c == 1
    ensures c < |PROOF.clauses| && (Collapses(PROOF, c, k) <==> Breaks(c, k))
  {
    AllIds();
    if Breaks(c, k) {
      BreaksCollapses(c, k);
    }
    if Collapses(PROOF, c, k) {
      CollapsesBreaks(c, k);
    }
  }

  lemma BreaksCollapses(c: ClauseID, k: set<ClauseID>)
    requires Breaks(c, k)
    ensures c < |PROOF.clauses| && Collapses(PROOF, c, k)
  {
    AllIds();
    var s := PROOF.All() - k;
    SupportsMeans(s, c);
    var v, w :| CIRCUIT.Step(v, w) && SatSet(PROOF, v, s) && SatClause(v, PROOF.clauses[c])
      && !SatClause(w, PROOF.clauses[c]);
    forall d | d in Failing(PROOF, v)
      ensures d in k
    {
      assert d in PROOF.All() && d !in s;
    }
  }

  lemma CollapsesBreaks(c: ClauseID, k: set<ClauseID>)
    requires (c == 0 || c == 1) && c < |PROOF.clauses| && Collapses(PROOF, c, k)
    ensures Breaks(c, k)
  {
    AllIds();
    var s := PROOF.All() - k;
    assert s !! k;
    MissedCollapse(PROOF, s, c, k);
    SupportsMeans(s, c);
  }

  lemma MinimalOfC(k: set<ClauseID>)
    ensures MinimalCollapse(PROOF, 1, k) <==> k == {2}
  {
    CollapsesMeans(1, k);
    CollapsesMeans(1, {2});
    if MinimalCollapse(PROOF, 1, k) {
      assert !({2} < k);
    }
    if k == {2} {
      forall l | l < k
        ensures !Collapses(PROOF, 1, l)
      {
        CollapsesMeans(1, l);
      }
    }
  }

  lemma MinimalOfP()
    ensures MinimalCollapse(PROOF, 0, {2, 4})
    ensures forall k | MinimalCollapse(PROOF, 0, k) :: |k| >= 2
  {
    CollapsesMeans(0, {2, 4});
    forall l | l < {2, 4}
      ensures !Collapses(PROOF, 0, l)
    {
      CollapsesMeans(0, l);
    }
    forall k | MinimalCollapse(PROOF, 0, k)
      ensures |k| >= 2
    {
      CollapsesMeans(0, k);
      var d: ClauseID := if 3 in k then 3 else 4;
      SubsetSize({2, d}, k);
    }
  }
}
