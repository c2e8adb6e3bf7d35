/** Fresh variables of a network: where they lie, and that every valuation of
    the inputs extends to them. */
module NetworkExtension {
  import opened Ids
  import opened NetworkSpec
  import opened NetworkProofs

  function FirstOutput(g: Gate): ID {
    g.y1
  }

  function LastOutput(g: Gate): ID {
    if g.Comparator? then g.y2 else g.y1
  }

  /** The gate writes fresh positive variables in [lo, hi) that come after the variables it reads. */
  predicate Placed(g: Gate, lo: ID, hi: ID) {
    && lo <= FirstOutput(g) && LastOutput(g) < hi
    && Strip(g.x1) < FirstOutput(g) && Strip(g.x2) < FirstOutput(g)
    && !IsNegated(g.y1)
    && (g.Comparator? ==> g.y1 < g.y2 && !IsNegated(g.y2))
  }

  predicate InOrder(gates: seq<Gate>, lo: ID, hi: ID) {
    && (forall i :: 0 <= i < |gates| ==> Placed(gates[i], lo, hi))
    && (forall i, j :: 0 <= i < j < |gates| ==> LastOutput(gates[i]) < FirstOutput(gates[j]))
  }

  /** A well-formed network built from counter value lo. */
  predicate Fits(net: Network, lo: ID) {
    && lo <= net.next && !IsNegated(net.next)
    && InOrder(net.gates, lo, net.next)
    && Below(net.outputs, net.next)
  }

  lemma InOrderConcat(a: seq<Gate>, b: seq<Gate>, lo: ID, mid: ID, hi: ID)
    requires lo <= mid <= hi && InOrder(a, lo, mid) && InOrder(b, mid, hi)
    ensures InOrder(a + b, lo, hi)
  {
    forall i, j | 0 <= i < j < |a + b|
      ensures LastOutput((a + b)[i]) < FirstOutput((a + b)[j])
    {
      if i < |a| {
        assert Placed(a[i], lo, mid);
      }
      if j >= |a| {
        assert Placed(b[j - |a|], mid, hi);
      }
    }
  }

  lemma InOrderOne(g: Gate, lo: ID, hi: ID)
    requires Placed(g, lo, hi)
    ensures InOrder([g], lo, hi)
  {
  }

  // ----- every network fits -----

  lemma BelowSplit(s: seq<ID>, bound: ID)
    requires Below(s, bound)
    ensures Below(Odds(s), bound) && Below(Evens(s), bound)
  {
  }

  lemma CompareFits(z: seq<ID>, next: ID, m: nat)
    requires 2*m < |z| && Below(z, next) && !IsNegated(next)
    ensures InOrder(CompareGates(z, next, m), next, next + 4*m)
    ensures Below(CompareOutputs(z, next, m), next + 4*m)
  {
    var gates := CompareGates(z, next, m);
    forall i | 0 <= i < m
      ensures Placed(gates[i], next, next + 4*m)
    {
      assert z[2*i + 1] in z && z[2*i + 2] in z;
    }
    var outs := CompareOutputs(z, next, m);
    forall lit | lit in outs
      ensures Strip(lit) < next + 4*m
    {
      var j :| 0 <= j < |outs| && outs[j] == lit;
      assert z[0] in z;
    }
  }

  lemma ZipperBelow(even: seq<ID>, odd: seq<ID>, a: nat, bound: ID)
    requires |odd| <= |even| <= |odd| + 2
    requires |even| == |odd| + 2 ==> a % 2 == 1 && a < |even| + |odd| - 1
    requires Below(even, bound) && Below(odd, bound)
    ensures Below(Zipper(even, odd, a), bound)
  {
  }

  lemma InterleaveBelow(even: seq<ID>, odd: seq<ID>, m: nat, bound: ID)
    requires m < |even| && m <= |odd|
    requires Below(even, bound) && Below(odd, bound)
    ensures Below(Interleave(even, odd, m), bound)
  {
  }

  lemma MergeStageFits(odd: Network, even: Network, a: nat, lo: ID)
    requires |odd.outputs| <= |even.outputs| <= |odd.outputs| + 2 && |even.outputs| > 0
    requires |even.outputs| == |odd.outputs| + 2 ==> a % 2 == 1 && a < |even.outputs| + |odd.outputs| - 1
    requires Fits(odd, lo) && Fits(even, odd.next)
    ensures Fits(MergeStage(odd, even, a), lo)
  {
    var z := Zipper(even.outputs, odd.outputs, a);
    ZipperBelow(even.outputs, odd.outputs, a, even.next);
    ComparedFits(odd, even, z, (|z| - 1) / 2, lo);
  }

  lemma ComparedFits(odd: Network, even: Network, z: seq<ID>, m: nat, lo: ID)
    requires 2*m < |z| && Below(z, even.next) && Fits(odd, lo) && Fits(even, odd.next)
    ensures Fits(Compared(odd, even, z, m), lo)
  {
    CompareFits(z, even.next, m);
    StageInOrder(odd, even, CompareGates(z, even.next, m), lo, even.next + 4*m);
    assert z[|z|-1] in z;
  }

  lemma StageInOrder(odd: Network, even: Network, gates: seq<Gate>, lo: ID, hi: ID)
    requires Fits(odd, lo) && Fits(even, odd.next) && even.next <= hi && InOrder(gates, even.next, hi)
    ensures InOrder(odd.gates + even.gates + gates, lo, hi)
  {
    InOrderConcat(odd.gates, even.gates, lo, odd.next, even.next);
    InOrderConcat(odd.gates + even.gates, gates, lo, even.next, hi);
  }

  lemma {:induction false} MergeFits(next: ID, a: seq<ID>, b: seq<ID>)
    requires |a| <= |b| && Below(a, next) && Below(b, next) && !IsNegated(next)
    ensures Fits(MergeOrdered(next, a, b), next)
    decreases |a| + |b|
  {
    if |a| == 1 && |b| == 1 {
      assert a[0] in a && b[0] in b;
      InOrderOne(Comparator(a[0], b[0], next, next + 2), next, next + 4);
    } else if a != [] {
      BelowSplit(a, next);
      BelowSplit(b, next);
      var odd, even := MergeParts(next, a, b);
      MergeFits(next, Odds(a), Odds(b));
      MergeFits(odd.next, Evens(a), Evens(b));
      MergeStageFits(odd, even, |a|, next);
    }
  }

  lemma SimpMergeStageFits(odd: Network, even: Network, c: nat, lo: ID)
    requires c >= 2 && |odd.outputs| == c / 2 && |even.outputs| == c / 2 + 1
    requires Fits(odd, lo) && Fits(even, odd.next)
    ensures Fits(SimpMergeStage(odd, even, c), lo)
  {
    if c % 2 == 0 {
      WithOrFits(odd, even, (c - 1) / 2, lo);
    } else {
      WithoutOrFits(odd, even, (c - 1) / 2, lo);
    }
  }

  lemma WithoutOrFits(odd: Network, even: Network, m: nat, lo: ID)
    requires |odd.outputs| == m && |even.outputs| == m + 1
    requires Fits(odd, lo) && Fits(even, odd.next)
    ensures Fits(WithoutOr(odd, even, m), lo)
  {
    var z := Interleave(even.outputs, odd.outputs, m);
    InterleaveBelow(even.outputs, odd.outputs, m, even.next);
    CompareFits(z, even.next, m);
    StageInOrder(odd, even, CompareGates(z, even.next, m), lo, even.next + 4*m);
  }

  /** One more gate that computes the OR of two earlier literals. */
  lemma OrFits(gates: seq<Gate>, outputs: seq<ID>, e: ID, o: ID, lo: ID, y: ID)
    requires lo <= y && !IsNegated(y) && Strip(e) < y && Strip(o) < y
    requires InOrder(gates, lo, y) && Below(outputs, y)
    ensures Fits(Network(outputs + [y], gates + [Or(e, o, y)], y + 2), lo)
  {
    InOrderOne(Or(e, o, y), y, y + 2);
    InOrderConcat(gates, [Or(e, o, y)], lo, y, y + 2);
  }

  lemma WithOrFits(odd: Network, even: Network, m: nat, lo: ID)
    requires |odd.outputs| == m + 1 && |even.outputs| == m + 2
    requires Fits(odd, lo) && Fits(even, odd.next)
    ensures Fits(WithOr(odd, even, m), lo)
  {
    var z := Interleave(even.outputs, odd.outputs, m);
    var e, o, y := even.outputs[m + 1], odd.outputs[m], even.next + 4*m;
    InterleaveBelow(even.outputs, odd.outputs, m, even.next);
    CompareFits(z, even.next, m);
    StageInOrder(odd, even, CompareGates(z, even.next, m), lo, y);
    assert e in even.outputs && o in odd.outputs;
    OrFits(odd.gates + even.gates + CompareGates(z, even.next, m), CompareOutputs(z, even.next, m), e, o, lo, y);
  }

  lemma {:induction false} SimpMergeFits(next: ID, a: seq<ID>, b: seq<ID>, c: nat)
    requires |a| <= |b| <= c && Below(a, next) && Below(b, next) && !IsNegated(next)
    ensures Fits(SimpMergeOrdered(next, a, b, c), next)
    decreases |a| + |b|, 1
  {
    if a == [] {
    } else if |a| == 1 && |b| == 1 && c == 1 {
      assert a[0] in a && b[0] in b;
      InOrderOne(Or(a[0], b[0], next), next, next + 2);
    } else if |a| + |b| <= c {
      MergeFits(next, a, b);
    } else {
      SimpMergeSplitFits(next, a, b, c);
    }
  }

  lemma {:induction false} SimpMergeSplitFits(next: ID, a: seq<ID>, b: seq<ID>, c: nat)
    requires 0 < |a| <= |b| <= c && c > 1 && |a| + |b| > c
    requires Below(a, next) && Below(b, next) && !IsNegated(next)
    ensures Fits(SimpMergeSplit(next, a, b, c), next)
    decreases |a| + |b|, 0
  {
    BelowSplit(a, next);
    BelowSplit(b, next);
    var odd, even := SimpMergeParts(next, a, b, c);
    SimpMergeFits(next, Odds(a), Odds(b), c / 2);
    SimpMergeFits(odd.next, Evens(a), Evens(b), c / 2 + 1);
    SimpMergeStageFits(odd, even, c, next);
  }

  /** Two networks followed by one over their outputs. */
  lemma JoinFits(left: Network, right: Network, merged: Network, lo: ID)
    requires Fits(left, lo) && Fits(right, left.next) && Fits(merged, right.next)
    ensures Fits(Network(merged.outputs, left.gates + right.gates + merged.gates, merged.next), lo)
  {
    InOrderConcat(left.gates, right.gates, lo, left.next, right.next);
    InOrderConcat(left.gates + right.gates, merged.gates, lo, right.next, merged.next);
  }

  lemma {:induction false} SortingFits(next: ID, inputs: seq<ID>)
    requires |inputs| > 0 && Below(inputs, next) && !IsNegated(next)
    ensures Fits(Sorting(next, inputs), next)
    decreases |inputs|
  {
    if |inputs| == 2 {
      MergeFits(next, [inputs[0]], [inputs[1]]);
    } else if |inputs| > 2 {
      var l := |inputs| / 2;
      SortingFits(next, inputs[..l]);
      var left := Sorting(next, inputs[..l]);
      SortingFits(left.next, inputs[l..]);
      var right := Sorting(left.next, inputs[l..]);
      if |left.outputs| <= |right.outputs| {
        MergeFits(right.next, left.outputs, right.outputs);
      } else {
        MergeFits(right.next, right.outputs, left.outputs);
      }
      JoinFits(left, right, Merge(right.next, left.outputs, right.outputs), next);
    }
  }

  lemma {:induction false} CardinalityFits(next: ID, inputs: seq<ID>, m: nat)
    requires |inputs| > 0 && m > 0 && Below(inputs, next) && !IsNegated(next)
    ensures Fits(CardinalityNetwork(next, inputs, m), next)
    decreases |inputs|
  {
    if |inputs| <= m {
      SortingFits(next, inputs);
    } else {
      var l := |inputs| / 2;
      CardinalityFits(next, inputs[..l], m);
      var left := CardinalityNetwork(next, inputs[..l], m);
      CardinalityFits(left.next, inputs[l..], m);
      var right := CardinalityNetwork(left.next, inputs[l..], m);
      if |left.outputs| <= |right.outputs| {
        SimpMergeFits(right.next, Truncate(left.outputs, m), Truncate(right.outputs, m), m);
      } else {
        SimpMergeFits(right.next, Truncate(right.outputs, m), Truncate(left.outputs, m), m);
      }
      JoinFits(left, right, SimpMerge(right.next, left.outputs, right.outputs, m), next);
    }
  }

  // ----- extending a valuation -----

  function Assign(v: Valuation, x: ID, value: bool): Valuation {
    if value then v + {x} else v - {x}
  }

  function Run(v: Valuation, g: Gate): Valuation {
    match g
    case Comparator(x1, x2, y1, y2) =>
      Assign(Assign(v, y1, Holds(v, x1) || Holds(v, x2)), y2, Holds(v, x1) && Holds(v, x2))
    case Or(x1, x2, y) =>
      Assign(v, y, Holds(v, x1) || Holds(v, x2))
  }

  /** Every gate behaves as the circuit it encodes. */
  ghost predicate Computes(v: Valuation, gates: seq<Gate>) {
    AllLe(v, gates) && AllGe(v, gates)
  }

  lemma GateAgrees(v: Valuation, w: Valuation, g: Gate, lo: ID, hi: ID)
    requires (exists below :: Placed(g, below, lo)) && AgreeOutside(v, w, lo, hi)
    ensures GateLe(v, g) == GateLe(w, g) && GateGe(v, g) == GateGe(w, g)
  {
    AgreeHolds(v, w, lo, hi, g.x1);
    AgreeHolds(v, w, lo, hi, g.x2);
    AgreeHolds(v, w, lo, hi, g.y1);
    if g.Comparator? {
      AgreeHolds(v, w, lo, hi, g.y2);
    }
  }

  lemma RunOne(u: Valuation, g: Gate, hi: ID)
    requires Placed(g, FirstOutput(g), hi)
    ensures AgreeOutside(u, Run(u, g), FirstOutput(g), hi)
    ensures GateLe(Run(u, g), g) && GateGe(Run(u, g), g)
  {
    var w := Run(u, g);
    assert AgreeOutside(u, w, FirstOutput(g), hi);
    AgreeHolds(u, w, FirstOutput(g), hi, g.x1);
    AgreeHolds(u, w, FirstOutput(g), hi, g.x2);
  }

  lemma InOrderInit(gates: seq<Gate>, lo: ID, hi: ID)
    requires gates != [] && InOrder(gates, lo, hi)
    ensures var g := gates[|gates|-1];
      && lo <= FirstOutput(g) && Placed(g, FirstOutput(g), hi)
      && InOrder(gates[..|gates|-1], lo, FirstOutput(g))
  {
    var init, g := gates[..|gates|-1], gates[|gates|-1];
    assert Placed(g, lo, hi);
    forall i | 0 <= i < |init|
      ensures Placed(init[i], lo, FirstOutput(g))
    {
      assert Placed(gates[i], lo, hi);
      assert LastOutput(gates[i]) < FirstOutput(gates[|gates|-1]);
    }
  }

  /** Whatever the inputs are, running the gates in order satisfies them all
      and touches fresh variables only. */
  lemma {:induction false} RunGates(v: Valuation, gates: seq<Gate>, lo: ID, hi: ID) returns (w: Valuation)
    requires lo <= hi && InOrder(gates, lo, hi)
    ensures AgreeOutside(v, w, lo, hi)
    ensures Computes(w, gates)
  {
    if gates == [] {
      w := v;
    } else {
      var init, g := gates[..|gates|-1], gates[|gates|-1];
      var mid := FirstOutput(g);
      InOrderInit(gates, lo, hi);
      var u := RunGates(v, init, lo, mid);
      w := Run(u, g);
      RunOne(u, g, hi);
      forall h | h in gates
        ensures GateLe(w, h) && GateGe(w, h)
      {
        if h in init {
          GateAgrees(u, w, h, mid, hi);
        } else {
          assert h == g;
        }
      }
    }
  }
}
