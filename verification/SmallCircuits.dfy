/** Facts about concrete circuits: when their gates and latches are in order, and
    what their frames and steps look like. */
module SmallCircuits {
  import opened Ids
  import opened TransitionRelations

  /** The variable is an input, a latch, or the output of one of the first n
      gates. */
  ghost predicate Source(tr: TransitionRelation, n: nat, x: ID) {
    || x == ID_FALSE || x in tr.inputs
    || (exists k :: 0 <= k < |tr.latches| && tr.latches[k].id == x)
    || (exists j :: 0 <= j < n && j < |tr.gates| && tr.gates[j].lhs == x)
  }

  predicate LeafOk(id: ID, hi: ID) {
    MIN_ID <= id < hi && !IsNegated(id)
  }

  ghost predicate LatchOk(tr: TransitionRelation, hi: ID, k: nat)
    requires k < |tr.latches|
  {
    && LeafOk(tr.latches[k].id, hi) && tr.latches[k].id !in tr.inputs
    && (k > 0 ==> tr.latches[k - 1].id < tr.latches[k].id)
    && Source(tr, |tr.gates|, Strip(tr.latches[k].next))
  }

  ghost predicate GateOk(tr: TransitionRelation, hi: ID, i: nat)
    requires i < |tr.gates|
  {
    && hi <= tr.gates[i].lhs && !IsNegated(tr.gates[i].lhs)
    && (i > 0 ==> tr.gates[i - 1].lhs < tr.gates[i].lhs)
    && Source(tr, i, Strip(tr.gates[i].rhs0)) && Source(tr, i, Strip(tr.gates[i].rhs1))
  }

  /** Variables in increasing order, leaves below hi and gates from there on. */
  ghost predicate InOrder(tr: TransitionRelation, hi: ID) {
    && MIN_ID <= hi && (forall x | x in tr.inputs :: LeafOk(x, hi))
    && (forall k | 0 <= k < |tr.latches| :: LatchOk(tr, hi, k))
    && forall i | 0 <= i < |tr.gates| :: GateOk(tr, hi, i)
  }

  lemma {:induction false} LatchesGrow(tr: TransitionRelation, hi: ID, i: nat, j: nat)
    requires InOrder(tr, hi) && i < j < |tr.latches|
    ensures tr.latches[i].id < tr.latches[j].id
    decreases j
  {
    assert LatchOk(tr, hi, j);
    if i < j - 1 {
      LatchesGrow(tr, hi, i, j - 1);
    }
  }

  lemma {:induction false} GatesGrow(tr: TransitionRelation, hi: ID, i: nat, j: nat)
    requires InOrder(tr, hi) && i < j < |tr.gates|
    ensures tr.gates[i].lhs < tr.gates[j].lhs
    decreases j
  {
    assert GateOk(tr, hi, j);
    if i < j - 1 {
      GatesGrow(tr, hi, i, j - 1);
    }
  }

  lemma SourceBefore(tr: TransitionRelation, n: nat, x: ID)
    requires n <= |tr.gates| && Source(tr, n, x)
    ensures x in tr.Before(n)
  {
    if k :| 0 <= k < |tr.latches| && tr.latches[k].id == x {
      assert tr.latches[k] in tr.latches;
    } else if j :| 0 <= j < n && tr.gates[j].lhs == x {
      assert tr.gates[..n][j] == tr.gates[j];
    }
  }

  lemma LeafBelow(tr: TransitionRelation, hi: ID, x: ID)
    requires InOrder(tr, hi) && x in tr.Leaves()
    ensures LeafOk(x, hi)
  {
    if x !in tr.inputs {
      var latch :| latch in tr.latches && latch.id == x;
      var k :| 0 <= k < |tr.latches| && tr.latches[k] == latch;
      assert LatchOk(tr, hi, k);
    }
  }

  lemma NewOutput(tr: TransitionRelation, hi: ID, i: nat)
    requires InOrder(tr, hi) && i < |tr.gates|
    ensures tr.gates[i].lhs !in tr.Before(i)
  {
    var x := tr.gates[i].lhs;
    assert GateOk(tr, hi, i);
    if x in tr.Leaves() {
      LeafBelow(tr, hi, x);
    }
    forall g | g in tr.gates[..i]
      ensures g.lhs != x
    {
      var j :| 0 <= j < i && tr.gates[..i][j] == g;
      GatesGrow(tr, hi, j, i);
    }
  }

  lemma OrderedGates(tr: TransitionRelation, hi: ID)
    requires InOrder(tr, hi)
    ensures tr.GatesInOrder()
  {
    forall i | 0 <= i < |tr.gates|
      ensures Reads(tr.gates[i], tr.Before(i))
    {
      assert GateOk(tr, hi, i);
      NewOutput(tr, hi, i);
      SourceBefore(tr, i, Strip(tr.gates[i].rhs0));
      SourceBefore(tr, i, Strip(tr.gates[i].rhs1));
    }
  }

  lemma OrderedLatches(tr: TransitionRelation, hi: ID)
    requires InOrder(tr, hi)
    ensures tr.LatchesKnown() && tr.LatchesDistinct() && tr.inputs !! tr.LatchIDs()
  {
    forall latch | latch in tr.latches
      ensures Strip(latch.next) in tr.Before(|tr.gates|) && latch.id !in tr.inputs
    {
      var k :| 0 <= k < |tr.latches| && tr.latches[k] == latch;
      assert LatchOk(tr, hi, k);
      SourceBefore(tr, |tr.gates|, Strip(latch.next));
    }
    forall i, j | 0 <= i < j < |tr.latches|
      ensures tr.latches[i].id != tr.latches[j].id
    {
      LatchesGrow(tr, hi, i, j);
    }
  }

  lemma OrderedVars(tr: TransitionRelation, hi: ID)
    requires InOrder(tr, hi)
    ensures tr.PlainVars()
  {
    forall id | id in tr.Vars()
      ensures MIN_ID <= id && !IsNegated(id)
    {
      if id in tr.Leaves() {
        LeafBelow(tr, hi, id);
      } else {
        var g :| g in tr.gates && g.lhs == id;
        var i :| 0 <= i < |tr.gates| && tr.gates[i] == g;
        assert GateOk(tr, hi, i);
      }
    }
  }

  /** Circuits with variables in order are well formed. */
  lemma OrderedWellFormed(tr: TransitionRelation, hi: ID)
    requires InOrder(tr, hi)
    ensures tr.WellFormed()
  {
    OrderedVars(tr, hi);
    OrderedGates(tr, hi);
    OrderedLatches(tr, hi);
  }

  // ----- frames and steps -----

  lemma GateMeans(tr: TransitionRelation, v: Valuation, i: nat)
    requires tr.Frame(v) && i < |tr.gates|
    ensures tr.gates[i].lhs in v <==> Holds(v, tr.gates[i].rhs0) && Holds(v, tr.gates[i].rhs1)
  {
    assert tr.gates[i] in tr.gates;
    assert Agrees(v, tr.gates[i]);
  }

  lemma SameLatch(tr: TransitionRelation, i: nat, j: nat)
    requires tr.LatchesDistinct() && i < |tr.latches| && j < |tr.latches| && tr.latches[i].id == tr.latches[j].id
    ensures i == j
  {
  }

  lemma LatchMeans(tr: TransitionRelation, v: Valuation, w: Valuation, k: nat)
    requires tr.WellFormed() && tr.Step(v, w) && k < |tr.latches|
    ensures tr.latches[k].id in w <==> Holds(v, tr.latches[k].next)
  {
    var latch := tr.latches[k];
    assert latch in tr.latches && latch.id in tr.LatchIDs();
    assert latch.id in w <==> latch.id in w * tr.LatchIDs();
    if latch.id in tr.NextState(v) {
      var other :| other in tr.latches && Holds(v, other.next) && other.id == latch.id;
      var m :| 0 <= m < |tr.latches| && tr.latches[m] == other;
      SameLatch(tr, m, k);
    }
  }

  /** A frame with these leaves, and a step from it with these next inputs. */
  lemma SomeStep(tr: TransitionRelation, leaf: set<ID>) returns (v: Valuation, w: Valuation)
    requires tr.WellFormed() && leaf <= tr.Leaves()
    ensures tr.Step(v, w) && forall x | x in tr.Leaves() :: x in v <==> x in leaf
  {
    CompleteIsFrame(tr, leaf);
    v := Complete(tr, leaf);
    w := StepAnyInputs(tr, v, {});
    forall x | x in tr.Leaves()
      ensures x in v <==> x in leaf
    {
      assert x in v <==> x in v * tr.Leaves();
    }
  }

  lemma LatchLeaf(tr: TransitionRelation, k: nat)
    requires k < |tr.latches|
    ensures tr.latches[k].id in tr.LatchIDs() && tr.latches[k].id in tr.Leaves()
  {
    assert tr.latches[k] in tr.latches;
  }
}
