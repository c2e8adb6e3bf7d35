/** Cardinality constraints over sorting networks
    (src/pme/util/cardinality_constraint.cpp). */
module CardinalityConstraints {
  import opened Ids
  import opened VariableManagers
  import opened NetworkSpec
  import opened NetworkMeaning
  import SortingNetwork

  datatype Error = InvalidArgument | PartialConstraint
  datatype Result<T> = Success(value: T) | Failure(error: Error)

  /** The outputs before position k, asserted. */
  function TrueBefore(outs: seq<ID>, k: nat): Cube {
    outs[..Min(k, |outs|)]
  }

  /** The outputs from position k on, negated. */
  function FalseAfter(outs: seq<ID>, k: nat): Cube {
    NegateVec(outs[Min(k, |outs|)..])
  }

  ghost predicate LeSound(v: Valuation, inputs: seq<ID>, outs: seq<ID>) {
    forall i :: 0 <= i < |outs| && Count(v, inputs) >= i + 1 ==> Holds(v, outs[i])
  }

  ghost predicate GeSound(v: Valuation, inputs: seq<ID>, outs: seq<ID>) {
    forall i :: 0 <= i < |outs| && Holds(v, outs[i]) ==> Count(v, inputs) >= i + 1
  }

  lemma FalseAfterHolds(v: Valuation, outs: seq<ID>, k: nat)
    ensures SatCube(v, FalseAfter(outs, k)) <==> forall i :: k <= i < |outs| ==> !Holds(v, outs[i])
  {
    var cube := FalseAfter(outs, k);
    forall i | k <= i < |outs|
      ensures cube[i - k] in cube && Holds(v, cube[i - k]) == !Holds(v, outs[i])
    {
      assert cube[i - k] == Negate(outs[i]);
      NegateFlips(v, outs[i]);
    }
  }

  /** Assuming fewer than n: with le clauses it bounds the inputs, and every
      exact valuation with fewer than n true inputs meets it. */
  lemma LessThanMeaning(v: Valuation, inputs: seq<ID>, outs: seq<ID>, n: nat)
    requires 0 < n <= |outs|
    ensures LeSound(v, inputs, outs) && SatCube(v, FalseAfter(outs, n - 1)) ==> Count(v, inputs) < n
    ensures SortedPrefix(v, inputs, outs) && Count(v, inputs) < n ==> SatCube(v, FalseAfter(outs, n - 1))
  {
    FalseAfterHolds(v, outs, n - 1);
  }

  /** Assuming more than n. */
  lemma GreaterThanMeaning(v: Valuation, inputs: seq<ID>, outs: seq<ID>, n: nat)
    requires n < |outs|
    ensures GeSound(v, inputs, outs) && SatCube(v, TrueBefore(outs, n + 1)) ==> Count(v, inputs) > n
    ensures SortedPrefix(v, inputs, outs) && Count(v, inputs) > n ==> SatCube(v, TrueBefore(outs, n + 1))
  {
    assert TrueBefore(outs, n + 1)[n] == outs[n];
  }

  /** Assuming exactly n. */
  lemma EqualMeaning(v: Valuation, inputs: seq<ID>, outs: seq<ID>, n: nat)
    requires n < |outs|
    ensures SortedPrefix(v, inputs, outs) ==>
      (SatCube(v, TrueBefore(outs, n) + FalseAfter(outs, n)) <==> Count(v, inputs) == n)
  {
    FalseAfterHolds(v, outs, n);
    var t, f := TrueBefore(outs, n), FalseAfter(outs, n);
    assert SatCube(v, t + f) <==> SatCube(v, t) && SatCube(v, f) by {
      assert forall lit :: lit in t + f <==> lit in t || lit in f;
    }
    if n > 0 {
      assert t[n-1] == outs[n-1];
    }
  }

  /** When every input must hold, the inputs themselves are the assumption. */
  lemma {:induction false} AllInputs(v: Valuation, inputs: seq<ID>)
    ensures SatCube(v, inputs) <==> Count(v, inputs) == |inputs|
  {
    if inputs != [] {
      AllInputs(v, inputs[1..]);
      CountBound(v, inputs[1..]);
      assert inputs == [inputs[0]] + inputs[1..];
    }
  }

  class SortingConstraint {
    const le: bool
    const ge: bool
    var cardinality: nat
    var inputs: seq<ID>
    var outputs: seq<ID>
    var cnfized: bool

    constructor (le: bool, ge: bool)
      requires le || ge
      ensures this.le == le && this.ge == ge
      ensures inputs == [] && cardinality == 0 && !cnfized && outputs == []
    {
      this.le := le;
      this.ge := ge;
      cardinality := 0;
      inputs := [];
      outputs := [];
      cnfized := false;
    }

    method AddInput(id: ID)
      modifies this
      ensures inputs == old(inputs) + [id]
      ensures cardinality == old(cardinality) && outputs == old(outputs) && cnfized == old(cnfized)
    {
      inputs := inputs + [id];
    }

    method AddInputs(ids: seq<ID>)
      modifies this
      ensures inputs == old(inputs) + ids
      ensures cardinality == old(cardinality) && outputs == old(outputs) && cnfized == old(cnfized)
    {
      for i := 0 to |ids|
        invariant inputs == old(inputs) + ids[..i]
        invariant cardinality == old(cardinality) && outputs == old(outputs) && cnfized == old(cnfized)
      {
        AddInput(ids[i]);
      }
    }

    method SetCardinality(n: nat)
      modifies this
      ensures cardinality == n
      ensures inputs == old(inputs) && outputs == old(outputs) && cnfized == old(cnfized)
    {
      cardinality := n;
    }

    function InputCardinality(): nat
      reads this
    {
      |inputs|
    }

    function OutputCardinality(): nat
      reads this
    {
      Min(cardinality, |inputs|)
    }

    method CNFize(vm: VariableManager) returns (cnf: seq<Clause>)
      requires vm.Valid() && (le || ge) && inputs != [] && cardinality > 0
      modifies this, vm
      ensures vm.Valid() && cnfized && inputs == old(inputs) && cardinality == old(cardinality)
      ensures var net := CardinalityNetwork(old(vm.nextID), inputs, cardinality);
        outputs == net.outputs && cnf == Emit(net.gates, le, ge) && vm.nextID == net.next
    {
      cnfized := true;
      outputs, cnf := SortingNetwork.BuildCardinalityNetwork(vm, inputs, cardinality, le, ge);
    }

    // The assume functions collect their assumptions in one pass over the outputs.

    method AssumeEq(n: nat) returns (r: Result<Cube>)
      requires cnfized
      ensures r ==
        if !ge || !le then Failure(PartialConstraint)
        else if n == InputCardinality() && n == OutputCardinality() then Success(inputs)
        else if n >= OutputCardinality() then Failure(InvalidArgument)
        else Success(TrueBefore(outputs, n) + FalseAfter(outputs, n))
    {
      if !ge || !le {
        return Failure(PartialConstraint);
      }
      if n == InputCardinality() && n == OutputCardinality() {
        return Success(inputs);
      } else if n >= OutputCardinality() {
        return Failure(InvalidArgument);
      }
      var assumps: Cube := [];
      for i := 0 to |outputs|
        invariant assumps == TrueBefore(outputs[..i], n) + FalseAfter(outputs[..i], n)
      {
        EqualStep(outputs, i, n);
        if n > 0 && i <= n - 1 {
          assumps := assumps + [outputs[i]];
        } else {
          assumps := assumps + [Negate(outputs[i])];
        }
      }
      assert outputs[..|outputs|] == outputs;
      r := Success(assumps);
    }

    method AssumeLEq(n: nat) returns (r: Result<Cube>)
      requires cnfized
      ensures r ==
        if !le then Failure(PartialConstraint)
        else if n == InputCardinality() && n == OutputCardinality() then Success([])
        else if n >= OutputCardinality() then Failure(InvalidArgument)
        else Success(FalseAfter(outputs, n))
    {
      if !le {
        return Failure(PartialConstraint);
      }
      if n == InputCardinality() && n == OutputCardinality() {
        return Success([]);
      } else if n >= OutputCardinality() {
        return Failure(InvalidArgument);
      }
      var assumps: Cube := [];
      for i := 0 to |outputs|
        invariant assumps == FalseAfter(outputs[..i], n)
      {
        PrefixStep(outputs, i, n);
        if i >= n {
          assumps := assumps + [Negate(outputs[i])];
        }
      }
      assert outputs[..|outputs|] == outputs;
      r := Success(assumps);
    }

    method AssumeLT(n: nat) returns (r: Result<Cube>)
      requires cnfized
      ensures r ==
        if !le then Failure(PartialConstraint)
        else if n == 0 || n > OutputCardinality() then Failure(InvalidArgument)
        else Success(FalseAfter(outputs, n - 1))
    {
      if !le {
        return Failure(PartialConstraint);
      }
      if n == 0 {
        return Failure(InvalidArgument);
      }
      if n > OutputCardinality() {
        return Failure(InvalidArgument);
      }
      var assumps := NegatedFrom(n);
      r := Success(assumps);
    }

    /** The loop of assumeLT. */
    method NegatedFrom(n: nat) returns (assumps: Cube)
      requires n > 0
      ensures assumps == FalseAfter(outputs, n - 1)
    {
      assumps := [];
      for i := 0 to |outputs|
        invariant assumps == FalseAfter(outputs[..i], n - 1)
      {
        PrefixStep(outputs, i, n - 1);
        if n > 0 && i >= n - 1 {
          assumps := assumps + [Negate(outputs[i])];
        }
      }
      assert outputs[..|outputs|] == outputs;
    }

    method AssumeGEq(n: nat) returns (r: Result<Cube>)
      requires cnfized || (n == InputCardinality() && n == OutputCardinality())
      ensures r ==
        if !ge then Failure(PartialConstraint)
        else if n == InputCardinality() && n == OutputCardinality() then Success(inputs)
        else if n >= OutputCardinality() then Failure(InvalidArgument)
        else Success(TrueBefore(outputs, n))
    {
      if !ge {
        return Failure(PartialConstraint);
      }
      if n == InputCardinality() && n == OutputCardinality() {
        return Success(inputs);
      } else if n >= OutputCardinality() {
        return Failure(InvalidArgument);
      }
      var assumps: Cube := [];
      for i := 0 to |outputs|
        invariant assumps == TrueBefore(outputs[..i], n)
      {
        PrefixStep(outputs, i, n);
        if n > 0 && i <= n - 1 {
          assumps := assumps + [outputs[i]];
        }
      }
      assert outputs[..|outputs|] == outputs;
      r := Success(assumps);
    }

    method AssumeGT(n: nat) returns (r: Result<Cube>)
      requires cnfized
      ensures r ==
        if !ge then Failure(PartialConstraint)
        else if n >= OutputCardinality() then Failure(InvalidArgument)
        else Success(TrueBefore(outputs, n + 1))
    {
      if !ge {
        return Failure(PartialConstraint);
      }
      if n >= OutputCardinality() {
        return Failure(InvalidArgument);
      }
      var assumps: Cube := [];
      for i := 0 to |outputs|
        invariant assumps == TrueBefore(outputs[..i], n + 1)
      {
        PrefixStep(outputs, i, n + 1);
        if i <= n {
          assumps := assumps + [outputs[i]];
        }
      }
      assert outputs[..|outputs|] == outputs;
      r := Success(assumps);
    }
  }

  /** How the two cubes grow with one more output. */
  lemma PrefixStep(outs: seq<ID>, i: nat, k: nat)
    requires i < |outs|
    ensures TrueBefore(outs[..i + 1], k) == TrueBefore(outs[..i], k) + (if i < k then [outs[i]] else [])
    ensures FalseAfter(outs[..i + 1], k) == FalseAfter(outs[..i], k) + (if i >= k then [Negate(outs[i])] else [])
  {
  }

  lemma EqualStep(outs: seq<ID>, i: nat, k: nat)
    requires i < |outs|
    ensures TrueBefore(outs[..i + 1], k) + FalseAfter(outs[..i + 1], k) ==
      TrueBefore(outs[..i], k) + FalseAfter(outs[..i], k) + [if i < k then outs[i] else Negate(outs[i])]
  {
    PrefixStep(outs, i, k);
    if i < k {
      assert FalseAfter(outs[..i], k) == [] && FalseAfter(outs[..i + 1], k) == [];
    }
  }
}
