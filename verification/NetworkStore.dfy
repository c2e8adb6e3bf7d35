/** Networks over fresh variables, next to the clauses a solver already holds. */
module NetworkStores {
  import opened Ids
  import opened VariableManagers
  import opened NetworkSpec
  import opened NetworkProofs
  import opened NetworkExtension
  import opened NetworkMeaning
  import opened CardinalityConstraints

  /** The network, kept folded: the argument k does not matter. */
  function FoldedNetwork(lo: ID, inputs: seq<ID>, m: nat, k: nat): (net: Network)
    requires |inputs| > 0 && m > 0
    ensures |net.outputs| == Min(|inputs|, m)
    decreases k
  {
    if k == 0 then CardinalityNetwork(lo, inputs, m) else FoldedNetwork(lo, inputs, m, k - 1)
  }

  function CountingNetwork(lo: ID, inputs: seq<ID>, m: nat): (net: Network)
    requires |inputs| > 0 && m > 0
    ensures |net.outputs| == Min(|inputs|, m)
  {
    FoldedNetwork(lo, inputs, m, m)
  }

  lemma {:induction false} UnfoldNetwork(lo: ID, inputs: seq<ID>, m: nat, k: nat)
    requires |inputs| > 0 && m > 0
    ensures FoldedNetwork(lo, inputs, m, k) == CardinalityNetwork(lo, inputs, m)
    decreases k
  {
    if k > 0 {
      UnfoldNetwork(lo, inputs, m, k - 1);
    }
  }

  lemma NetworkIs(lo: ID, inputs: seq<ID>, m: nat)
    requires |inputs| > 0 && m > 0
    ensures CountingNetwork(lo, inputs, m) == CardinalityNetwork(lo, inputs, m)
  {
    UnfoldNetwork(lo, inputs, m, m);
  }

  /** A network's clauses over fresh variables keep the solver's clauses below the counter. */
  lemma NetworkBelow(db: seq<Clause>, inputs: seq<ID>, m: nat, le: bool, ge: bool, lo: ID)
    requires inputs != [] && m > 0 && Below(inputs, lo) && CnfBelow(db, lo) && !IsNegated(lo)
    ensures var net := CountingNetwork(lo, inputs, m);
      && lo <= net.next && !IsNegated(net.next) && Below(net.outputs, net.next) && Below(inputs, net.next)
      && CnfBelow(db + Emit(net.gates, le, ge), net.next)
  {
    var net := CountingNetwork(lo, inputs, m);
    NetworkIs(lo, inputs, m);
    CardinalityFits(lo, inputs, m);
    EmitBelow(net.gates, lo, net.next, le, ge);
  }

  lemma NetworkSound(w: Valuation, db: seq<Clause>, inputs: seq<ID>, m: nat, le: bool, ge: bool, lo: ID)
    requires inputs != [] && m > 0
    requires Models(w, db + Emit(CountingNetwork(lo, inputs, m).gates, le, ge))
    ensures le ==> LeSound(w, inputs, CountingNetwork(lo, inputs, m).outputs)
    ensures ge ==> GeSound(w, inputs, CountingNetwork(lo, inputs, m).outputs)
  {
    NetworkIs(lo, inputs, m);
    ModelsConcat(w, db, Emit(CountingNetwork(lo, inputs, m).gates, le, ge));
    CardinalityExact(w, lo, inputs, m, le, ge);
  }

  /** Every solution extends to a new network with exact outputs. */
  lemma NetworkExtends(u: Valuation, db: seq<Clause>, inputs: seq<ID>, m: nat, le: bool, ge: bool, lo: ID) returns (w: Valuation)
    requires inputs != [] && m > 0 && Below(inputs, lo) && CnfBelow(db, lo) && !IsNegated(lo)
    requires Models(u, db)
    ensures var net := CountingNetwork(lo, inputs, m);
      && AgreeOutside(u, w, lo, net.next)
      && Models(w, db + Emit(net.gates, le, ge))
      && SortedPrefix(w, inputs, net.outputs) && Count(w, inputs) == Count(u, inputs)
  {
    var net := CountingNetwork(lo, inputs, m);
    NetworkIs(lo, inputs, m);
    w := CardinalityExtends(u, lo, inputs, m, le, ge);
    AgreeModels(u, w, lo, net.next, db);
    ModelsConcat(w, db, Emit(net.gates, le, ge));
  }

  lemma NegatedBelow(lits: seq<ID>, bound: ID)
    requires Below(lits, bound)
    ensures Below(NegateVec(lits), bound)
  {
    forall lit | lit in NegateVec(lits)
      ensures Strip(lit) < bound
    {
      var i :| 0 <= i < |lits| && NegateVec(lits)[i] == lit;
      assert lits[i] in lits;
    }
  }

  method NewConstraint(vm: VariableManager, inputs: seq<ID>, n: nat, le: bool, ge: bool)
    returns (constraint: SortingConstraint, cnf: seq<Clause>)
    requires vm.Valid() && (le || ge) && inputs != [] && n > 0
    modifies vm
    ensures vm.Valid() && fresh(constraint)
    ensures constraint.cnfized && constraint.le == le && constraint.ge == ge
    ensures constraint.inputs == inputs && constraint.cardinality == n
    ensures var net := CountingNetwork(old(vm.nextID), inputs, n);
      constraint.outputs == net.outputs && cnf == Emit(net.gates, le, ge) && vm.nextID == net.next
  {
    constraint := new SortingConstraint(le, ge);
    constraint.AddInputs(inputs);
    constraint.SetCardinality(n);
    NetworkIs(vm.nextID, inputs, n);
    cnf := constraint.CNFize(vm);
  }
}
