/** The main results about cardinality networks. */
module NetworkMeaning {
  import opened Ids
  import opened NetworkSpec
  import opened NetworkProofs
  import opened NetworkExtension

  /** With le clauses, output i is true once at least i+1 inputs are; with ge
      clauses, output i is true only then. */
  lemma CardinalityExact(v: Valuation, next: ID, inputs: seq<ID>, m: nat, le: bool, ge: bool)
    requires |inputs| > 0 && m > 0
    requires Models(v, Emit(CardinalityNetwork(next, inputs, m).gates, le, ge))
    ensures var outs := CardinalityNetwork(next, inputs, m).outputs;
      && |outs| == Min(|inputs|, m)
      && (le ==> forall i :: 0 <= i < |outs| && Count(v, inputs) >= i + 1 ==> Holds(v, outs[i]))
      && (ge ==> forall i :: 0 <= i < |outs| && Holds(v, outs[i]) ==> Count(v, inputs) >= i + 1)
  {
    EmitMeaning(v, CardinalityNetwork(next, inputs, m).gates, le, ge);
    if le {
      CardinalityLe(v, next, inputs, m);
    }
    if ge {
      CardinalityGe(v, next, inputs, m);
    }
  }

  /** The outputs are exactly the sorted prefix of the inputs. */
  ghost predicate SortedPrefix(v: Valuation, inputs: seq<ID>, outs: seq<ID>) {
    forall i :: 0 <= i < |outs| ==> (Holds(v, outs[i]) <==> Count(v, inputs) >= i + 1)
  }

  /** Every valuation extends to the fresh variables such that all clauses hold
      and the outputs are exact, whichever of le and ge was asked for. */
  lemma CardinalityExtends(v: Valuation, next: ID, inputs: seq<ID>, m: nat, le: bool, ge: bool) returns (w: Valuation)
    requires |inputs| > 0 && m > 0 && Below(inputs, next) && !IsNegated(next)
    ensures var net := CardinalityNetwork(next, inputs, m);
      && AgreeOutside(v, w, next, net.next)
      && Models(w, Emit(net.gates, le, ge))
      && SortedPrefix(w, inputs, net.outputs)
      && Count(w, inputs) == Count(v, inputs)
  {
    var net := CardinalityNetwork(next, inputs, m);
    CardinalityFits(next, inputs, m);
    w := RunGates(v, net.gates, next, net.next);
    EmitMeaning(w, net.gates, le, ge);
    EmitMeaning(w, net.gates, true, true);
    CardinalityExact(w, next, inputs, m, true, true);
    AgreeCount(v, w, next, net.next, inputs);
  }

  lemma GateClausesBelow(g: Gate, lo: ID, hi: ID, le: bool, ge: bool)
    requires Placed(g, lo, hi)
    ensures CnfBelow(GateClauses(g, le, ge), hi)
  {
    assert forall cls, lit :: cls in GateClauses(g, le, ge) && lit in cls ==> Strip(lit) <= LastOutput(g);
  }

  lemma {:induction false} EmitBelow(gates: seq<Gate>, lo: ID, hi: ID, le: bool, ge: bool)
    requires InOrder(gates, lo, hi)
    ensures CnfBelow(Emit(gates, le, ge), hi)
  {
    if gates != [] {
      assert Placed(gates[0], lo, hi);
      GateClausesBelow(gates[0], lo, hi, le, ge);
      EmitBelow(gates[1..], lo, hi, le, ge);
    }
  }
}
