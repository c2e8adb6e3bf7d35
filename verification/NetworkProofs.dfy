/** What the networks mean: the le clauses carry true inputs forward, the ge
    clauses carry true outputs back, and every valuation of the inputs extends
    to the fresh variables. */
module NetworkProofs {
  import opened Ids
  import opened NetworkSpec

  /** The first k literals (or all of them) are true. */
  ghost predicate TrueUpTo(v: Valuation, s: seq<ID>, k: int) {
    forall i :: 0 <= i < |s| && i < k ==> Holds(v, s[i])
  }

  /** No literal from position k on is true. */
  ghost predicate FalseFrom(v: Valuation, s: seq<ID>, k: int) {
    forall i :: 0 <= i < |s| && k <= i ==> !Holds(v, s[i])
  }

  ghost predicate GateLe(v: Valuation, g: Gate) {
    match g
    case Comparator(x1, x2, y1, y2) =>
      && (Holds(v, x1) || Holds(v, x2) ==> Holds(v, y1))
      && (Holds(v, x1) && Holds(v, x2) ==> Holds(v, y2))
    case Or(x1, x2, y) =>
      Holds(v, x1) || Holds(v, x2) ==> Holds(v, y)
  }

  ghost predicate GateGe(v: Valuation, g: Gate) {
    match g
    case Comparator(x1, x2, y1, y2) =>
      && (Holds(v, y1) ==> Holds(v, x1) || Holds(v, x2))
      && (Holds(v, y2) ==> Holds(v, x1) && Holds(v, x2))
    case Or(x1, x2, y) =>
      Holds(v, y) ==> Holds(v, x1) || Holds(v, x2)
  }

  ghost predicate AllLe(v: Valuation, gates: seq<Gate>) {
    forall g | g in gates :: GateLe(v, g)
  }

  ghost predicate AllGe(v: Valuation, gates: seq<Gate>) {
    forall g | g in gates :: GateGe(v, g)
  }

  // ----- the emitted clauses say exactly that -----

  lemma ModelsConcat(v: Valuation, a: seq<Clause>, b: seq<Clause>)
    ensures Models(v, a + b) <==> Models(v, a) && Models(v, b)
  {
    assert forall cls :: cls in a + b <==> cls in a || cls in b;
  }

  lemma CompMeaning(v: Valuation, x1: ID, x2: ID, y1: ID, y2: ID, le: bool, ge: bool)
    ensures Models(v, CompClauses(x1, x2, y1, y2, le, ge)) <==>
      (le ==> GateLe(v, Comparator(x1, x2, y1, y2))) && (ge ==> GateGe(v, Comparator(x1, x2, y1, y2)))
  {
    var up, down := CompClauses(x1, x2, y1, y2, le, false), CompClauses(x1, x2, y1, y2, false, ge);
    assert CompClauses(x1, x2, y1, y2, le, ge) == up + down;
    ModelsConcat(v, up, down);
    NegateFlips(v, x1); NegateFlips(v, x2); NegateFlips(v, y1); NegateFlips(v, y2);
    if le {
      TwoLiterals(v, Negate(x1), y1);
      TwoLiterals(v, Negate(x2), y1);
      ThreeLiterals(v, Negate(x1), Negate(x2), y2);
      assert up == [[Negate(x1), y1], [Negate(x2), y1], [Negate(x1), Negate(x2), y2]];
      assert up[0] in up && up[1] in up && up[2] in up;
    }
    if ge {
      TwoLiterals(v, x1, Negate(y2));
      TwoLiterals(v, x2, Negate(y2));
      ThreeLiterals(v, x1, x2, Negate(y1));
      assert down == [[x1, Negate(y2)], [x2, Negate(y2)], [x1, x2, Negate(y1)]];
      assert down[0] in down && down[1] in down && down[2] in down;
    }
  }

  lemma PartialCompMeaning(v: Valuation, x1: ID, x2: ID, y: ID, le: bool, ge: bool)
    ensures Models(v, PartialCompClauses(x1, x2, y, le, ge)) <==>
      (le ==> GateLe(v, Or(x1, x2, y))) && (ge ==> GateGe(v, Or(x1, x2, y)))
  {
    var up, down := PartialCompClauses(x1, x2, y, le, false), PartialCompClauses(x1, x2, y, false, ge);
    assert PartialCompClauses(x1, x2, y, le, ge) == up + down;
    ModelsConcat(v, up, down);
    NegateFlips(v, x1); NegateFlips(v, x2); NegateFlips(v, y);
    if le {
      TwoLiterals(v, Negate(x1), y);
      TwoLiterals(v, Negate(x2), y);
      assert up == [[Negate(x1), y], [Negate(x2), y]];
      assert up[0] in up && up[1] in up;
    }
    if ge {
      ThreeLiterals(v, x1, x2, Negate(y));
      assert down == [[x1, x2, Negate(y)]];
      assert down[0] in down;
    }
  }

  lemma GateClausesMeaning(v: Valuation, g: Gate, le: bool, ge: bool)
    ensures Models(v, GateClauses(g, le, ge)) <==> (le ==> GateLe(v, g)) && (ge ==> GateGe(v, g))
  {
    match g {
      case Comparator(x1, x2, y1, y2) => CompMeaning(v, x1, x2, y1, y2, le, ge);
      case Or(x1, x2, y) => PartialCompMeaning(v, x1, x2, y, le, ge);
    }
  }

  lemma {:induction false} EmitMeaning(v: Valuation, gates: seq<Gate>, le: bool, ge: bool)
    ensures Models(v, Emit(gates, le, ge)) <==> (le ==> AllLe(v, gates)) && (ge ==> AllGe(v, gates))
  {
    if gates != [] {
      var first, rest := gates[0], gates[1..];
      EmitMeaning(v, rest, le, ge);
      GateClausesMeaning(v, first, le, ge);
      ModelsConcat(v, GateClauses(first, le, ge), Emit(rest, le, ge));
      assert gates == [first] + rest;
    }
  }

  lemma {:induction false} EmitConcat(a: seq<Gate>, b: seq<Gate>, le: bool, ge: bool)
    ensures Emit(a + b, le, ge) == Emit(a, le, ge) + Emit(b, le, ge)
  {
    if a == [] {
      assert a + b == b;
    } else {
      assert (a + b)[0] == a[0] && (a + b)[1..] == a[1..] + b;
      EmitConcat(a[1..], b, le, ge);
      var front, middle, tail := GateClauses(a[0], le, ge), Emit(a[1..], le, ge), Emit(b, le, ge);
      assert front + (middle + tail) == (front + middle) + tail;
    }
  }

  lemma EmitOne(g: Gate, le: bool, ge: bool)
    ensures Emit([g], le, ge) == GateClauses(g, le, ge)
  {
    assert Emit([g][1..], le, ge) == [];
  }

  lemma AllLeConcat(v: Valuation, a: seq<Gate>, b: seq<Gate>)
    ensures AllLe(v, a + b) <==> AllLe(v, a) && AllLe(v, b)
  {
    assert forall g :: g in a + b <==> g in a || g in b;
  }

  lemma AllGeConcat(v: Valuation, a: seq<Gate>, b: seq<Gate>)
    ensures AllGe(v, a + b) <==> AllGe(v, a) && AllGe(v, b)
  {
    assert forall g :: g in a + b <==> g in a || g in b;
  }

  // ----- one level of comparators -----

  /** Level position i compares odd output i with even output i+1. */
  ghost predicate PairAt(z: seq<ID>, even: seq<ID>, odd: seq<ID>, i: nat)
    requires 2*i + 2 < |z| && i + 1 < |even| && i < |odd|
  {
    || (z[2*i + 1] == odd[i] && z[2*i + 2] == even[i + 1])
    || (z[2*i + 1] == even[i + 1] && z[2*i + 2] == odd[i])
  }

  ghost predicate Pairs(z: seq<ID>, even: seq<ID>, odd: seq<ID>, m: nat) {
    && 2*m < |z| && m < |even| && m <= |odd|
    && z[0] == even[0]
    && forall i :: 0 <= i < m ==> PairAt(z, even, odd, i)
  }

  lemma ZipperPairs(even: seq<ID>, odd: seq<ID>, a: nat)
    requires |odd| <= |even| <= |odd| + 2 && |even| > 0
    requires |even| == |odd| + 2 ==> a % 2 == 1 && a < |even| + |odd| - 1
    ensures var z := Zipper(even, odd, a); Pairs(z, even, odd, (|z| - 1) / 2)
    ensures var z := Zipper(even, odd, a);
      && (|even| == |odd| ==> z[|z|-1] == odd[|odd|-1])
      && (|even| == |odd| + 2 ==> z[|z|-1] == even[|even|-1])
  {
    var z := Zipper(even, odd, a);
    var m := (|z| - 1) / 2;
    forall i | 0 <= i < m
      ensures PairAt(z, even, odd, i)
    {
      assert (2*i + 1) / 2 == i && (2*i + 2) / 2 == i + 1;
    }
  }

  lemma InterleavePairs(even: seq<ID>, odd: seq<ID>, m: nat)
    requires m < |even| && m <= |odd|
    ensures Pairs(Interleave(even, odd, m), even, odd, m)
  {
    var z := Interleave(even, odd, m);
    forall i | 0 <= i < m
      ensures PairAt(z, even, odd, i)
    {
      assert (2*i + 1) / 2 == i && (2*i + 2) / 2 == i + 1;
    }
  }

  /** If even has pe and odd po leading true outputs, at most two apart, the
      compared outputs have pe + po of them. */
  lemma CompareLe(v: Valuation, even: seq<ID>, odd: seq<ID>, z: seq<ID>, next: ID, m: nat, pe: nat, po: nat)
    requires Pairs(z, even, odd, m)
    requires AllLe(v, CompareGates(z, next, m))
    requires po <= pe <= po + 2
    requires TrueUpTo(v, even, pe) && TrueUpTo(v, odd, po)
    ensures TrueUpTo(v, CompareOutputs(z, next, m), pe + po)
  {
    var outs := CompareOutputs(z, next, m);
    forall j | 0 <= j < |outs| && j < pe + po
      ensures Holds(v, outs[j])
    {
      if j == 0 {
        assert outs[0] == even[0];
      } else {
        var i := (j - 1) / 2;
        var g := CompareGates(z, next, m)[i];
        assert g in CompareGates(z, next, m) && GateLe(v, g);
        assert PairAt(z, even, odd, i);
        assert i < po ==> Holds(v, odd[i]);
        assert i + 1 < pe ==> Holds(v, even[i + 1]);
        assert outs[j] == (if j == 2*i + 1 then g.y1 else g.y2);
      }
    }
  }

  lemma CompareGe(v: Valuation, even: seq<ID>, odd: seq<ID>, z: seq<ID>, next: ID, m: nat, pe: nat, po: nat)
    requires Pairs(z, even, odd, m)
    requires AllGe(v, CompareGates(z, next, m))
    requires po <= pe <= po + 2
    requires FalseFrom(v, even, pe) && FalseFrom(v, odd, po)
    ensures FalseFrom(v, CompareOutputs(z, next, m), pe + po)
  {
    var outs := CompareOutputs(z, next, m);
    forall j | 0 <= j < |outs| && pe + po <= j
      ensures !Holds(v, outs[j])
    {
      if j == 0 {
        assert outs[0] == even[0];
      } else {
        var i := (j - 1) / 2;
        var g := CompareGates(z, next, m)[i];
        assert g in CompareGates(z, next, m) && GateGe(v, g);
        assert PairAt(z, even, odd, i);
        assert po <= i ==> !Holds(v, odd[i]);
        assert pe <= i + 1 ==> !Holds(v, even[i + 1]);
        assert outs[j] == (if j == 2*i + 1 then g.y1 else g.y2);
      }
    }
  }

  // ----- merging -----

  /** The output that no comparator touches when the total is even. */
  lemma LastLe(v: Valuation, even: seq<ID>, odd: seq<ID>, last: ID, pe: nat, po: nat)
    requires (|even| == |odd| > 0 && last == odd[|odd|-1]) || (|even| == |odd| + 2 && last == even[|even|-1])
    requires po <= pe <= po + 2 && pe <= |even| && po <= |odd|
    requires TrueUpTo(v, even, pe) && TrueUpTo(v, odd, po)
    ensures pe + po > |even| + |odd| - 1 ==> Holds(v, last)
  {
  }

  lemma LastGe(v: Valuation, even: seq<ID>, odd: seq<ID>, last: ID, pe: nat, po: nat)
    requires (|even| == |odd| > 0 && last == odd[|odd|-1]) || (|even| == |odd| + 2 && last == even[|even|-1])
    requires po <= pe <= po + 2
    requires FalseFrom(v, even, pe) && FalseFrom(v, odd, po)
    ensures pe + po <= |even| + |odd| - 1 ==> !Holds(v, last)
  {
  }

  lemma ZippedLe(v: Valuation, even: seq<ID>, odd: seq<ID>, a: nat, pe: nat, po: nat) returns (z: seq<ID>)
    requires |odd| <= |even| <= |odd| + 2 && |even| > 0
    requires |even| == |odd| + 2 ==> a % 2 == 1 && a < |even| + |odd| - 1
    requires po <= pe <= po + 2 && pe <= |even| && po <= |odd|
    requires TrueUpTo(v, even, pe) && TrueUpTo(v, odd, po)
    ensures z == Zipper(even, odd, a) && Pairs(z, even, odd, (|z| - 1) / 2)
    ensures |z| % 2 == 0 && pe + po > |z| - 1 ==> Holds(v, z[|z| - 1])
  {
    z := Zipper(even, odd, a);
    ZipperPairs(even, odd, a);
    if |z| % 2 == 0 {
      LastLe(v, even, odd, z[|z| - 1], pe, po);
    }
  }

  lemma ComparedLe(v: Valuation, odd: Network, even: Network, z: seq<ID>, m: nat, pe: nat, po: nat)
    requires |z| > 0 && m == (|z| - 1) / 2 && Pairs(z, even.outputs, odd.outputs, m)
    requires AllLe(v, Compared(odd, even, z, m).gates) && po <= pe <= po + 2
    requires TrueUpTo(v, even.outputs, pe) && TrueUpTo(v, odd.outputs, po)
    requires |z| % 2 == 0 && pe + po > |z| - 1 ==> Holds(v, z[|z| - 1])
    ensures TrueUpTo(v, Compared(odd, even, z, m).outputs, pe + po)
  {
    AllLeConcat(v, odd.gates + even.gates, CompareGates(z, even.next, m));
    CompareLe(v, even.outputs, odd.outputs, z, even.next, m, pe, po);
  }

  lemma MergeStageLe(v: Valuation, odd: Network, even: Network, a: nat, pe: nat, po: nat)
    requires |odd.outputs| <= |even.outputs| <= |odd.outputs| + 2 && |even.outputs| > 0
    requires |even.outputs| == |odd.outputs| + 2 ==> a % 2 == 1 && a < |even.outputs| + |odd.outputs| - 1
    requires po <= pe <= po + 2 && pe <= |even.outputs| && po <= |odd.outputs|
    requires AllLe(v, MergeStage(odd, even, a).gates)
    requires TrueUpTo(v, even.outputs, pe) && TrueUpTo(v, odd.outputs, po)
    ensures TrueUpTo(v, MergeStage(odd, even, a).outputs, pe + po)
  {
    var z := ZippedLe(v, even.outputs, odd.outputs, a, pe, po);
    var m := (|z| - 1) / 2;
    assert MergeStage(odd, even, a) == Compared(odd, even, z, m);
    ComparedLe(v, odd, even, z, m, pe, po);
  }

  lemma ZippedGe(v: Valuation, even: seq<ID>, odd: seq<ID>, a: nat, pe: nat, po: nat) returns (z: seq<ID>)
    requires |odd| <= |even| <= |odd| + 2 && |even| > 0
    requires |even| == |odd| + 2 ==> a % 2 == 1 && a < |even| + |odd| - 1
    requires po <= pe <= po + 2
    requires FalseFrom(v, even, pe) && FalseFrom(v, odd, po)
    ensures z == Zipper(even, odd, a) && Pairs(z, even, odd, (|z| - 1) / 2)
    ensures |z| % 2 == 0 && pe + po <= |z| - 1 ==> !Holds(v, z[|z| - 1])
  {
    z := Zipper(even, odd, a);
    ZipperPairs(even, odd, a);
    if |z| % 2 == 0 {
      LastGe(v, even, odd, z[|z| - 1], pe, po);
    }
  }

  lemma ComparedGe(v: Valuation, odd: Network, even: Network, z: seq<ID>, m: nat, pe: nat, po: nat)
    requires |z| > 0 && m == (|z| - 1) / 2 && Pairs(z, even.outputs, odd.outputs, m)
    requires AllGe(v, Compared(odd, even, z, m).gates) && po <= pe <= po + 2
    requires FalseFrom(v, even.outputs, pe) && FalseFrom(v, odd.outputs, po)
    requires |z| % 2 == 0 && pe + po <= |z| - 1 ==> !Holds(v, z[|z| - 1])
    ensures FalseFrom(v, Compared(odd, even, z, m).outputs, pe + po)
  {
    AllGeConcat(v, odd.gates + even.gates, CompareGates(z, even.next, m));
    CompareGe(v, even.outputs, odd.outputs, z, even.next, m, pe, po);
  }

  lemma MergeStageGe(v: Valuation, odd: Network, even: Network, a: nat, pe: nat, po: nat)
    requires |odd.outputs| <= |even.outputs| <= |odd.outputs| + 2 && |even.outputs| > 0
    requires |even.outputs| == |odd.outputs| + 2 ==> a % 2 == 1 && a < |even.outputs| + |odd.outputs| - 1
    requires po <= pe <= po + 2
    requires AllGe(v, MergeStage(odd, even, a).gates)
    requires FalseFrom(v, even.outputs, pe) && FalseFrom(v, odd.outputs, po)
    ensures FalseFrom(v, MergeStage(odd, even, a).outputs, pe + po)
  {
    var z := ZippedGe(v, even.outputs, odd.outputs, a, pe, po);
    var m := (|z| - 1) / 2;
    assert MergeStage(odd, even, a) == Compared(odd, even, z, m);
    ComparedGe(v, odd, even, z, m, pe, po);
  }

  lemma SplitTrueUpTo(v: Valuation, s: seq<ID>, k: nat)
    requires TrueUpTo(v, s, k)
    ensures TrueUpTo(v, Odds(s), k / 2) && TrueUpTo(v, Evens(s), (k + 1) / 2)
  {
  }

  lemma SplitFalseFrom(v: Valuation, s: seq<ID>, k: nat)
    requires FalseFrom(v, s, k)
    ensures FalseFrom(v, Odds(s), k / 2) && FalseFrom(v, Evens(s), (k + 1) / 2)
  {
  }

  lemma MergeStageGates(odd: Network, even: Network, a: nat)
    requires |odd.outputs| <= |even.outputs| <= |odd.outputs| + 2 && |even.outputs| > 0
    requires |even.outputs| == |odd.outputs| + 2 ==> a % 2 == 1 && a < |even.outputs| + |odd.outputs| - 1
    ensures forall g :: g in odd.gates || g in even.gates ==> g in MergeStage(odd, even, a).gates
  {
  }

  /** The two halves of MergeSplit. */
  lemma MergeParts(next: ID, a: seq<ID>, b: seq<ID>) returns (odd: Network, even: Network)
    requires 0 < |a| <= |b| && |b| > 1
    ensures odd == MergeOrdered(next, Odds(a), Odds(b)) && even == MergeOrdered(odd.next, Evens(a), Evens(b))
    ensures |odd.outputs| <= |even.outputs| <= |odd.outputs| + 2 && |even.outputs| > 0
    ensures |odd.outputs| == |a| / 2 + |b| / 2 && |even.outputs| == (|a| + 1) / 2 + (|b| + 1) / 2
    ensures |even.outputs| == |odd.outputs| + 2 ==> |a| % 2 == 1 && |a| < |even.outputs| + |odd.outputs| - 1
    ensures MergeSplit(next, a, b) == MergeStage(odd, even, |a|)
    ensures forall g :: g in odd.gates || g in even.gates ==> g in MergeSplit(next, a, b).gates
  {
    MergeSizes(|a|, |b|);
    odd := MergeOrdered(next, Odds(a), Odds(b));
    even := MergeOrdered(odd.next, Evens(a), Evens(b));
    MergeStageGates(odd, even, |a|);
  }

  lemma HalvesMonotone(p: nat, n: nat)
    requires p <= n
    ensures p / 2 <= n / 2 && (p + 1) / 2 <= (n + 1) / 2
  {
  }

  /** Halves of p and q on the two sides of a stage. */
  lemma MergeStepLe(v: Valuation, odd: Network, even: Network, a: nat, p: nat, q: nat)
    requires |odd.outputs| <= |even.outputs| <= |odd.outputs| + 2 && |even.outputs| > 0
    requires |even.outputs| == |odd.outputs| + 2 ==> a % 2 == 1 && a < |even.outputs| + |odd.outputs| - 1
    requires p / 2 + q / 2 <= |odd.outputs| && (p + 1) / 2 + (q + 1) / 2 <= |even.outputs|
    requires AllLe(v, MergeStage(odd, even, a).gates)
    requires TrueUpTo(v, odd.outputs, p / 2 + q / 2) && TrueUpTo(v, even.outputs, (p + 1) / 2 + (q + 1) / 2)
    ensures TrueUpTo(v, MergeStage(odd, even, a).outputs, p + q)
  {
    var pe, po := (p + 1) / 2 + (q + 1) / 2, p / 2 + q / 2;
    assert pe + po == p + q && po <= pe <= po + 2 by {
      Halves(p); Halves(q);
    }
    MergeStageLe(v, odd, even, a, pe, po);
  }

  /** p and q leading true inputs give p + q leading true outputs. */
  lemma {:induction false} MergeOrderedLe(v: Valuation, next: ID, a: seq<ID>, b: seq<ID>, p: nat, q: nat)
    requires |a| <= |b|
    requires p <= |a| && q <= |b|
    requires AllLe(v, MergeOrdered(next, a, b).gates)
    requires TrueUpTo(v, a, p) && TrueUpTo(v, b, q)
    ensures TrueUpTo(v, MergeOrdered(next, a, b).outputs, p + q)
    decreases |a| + |b|, 1
  {
    if |a| == 1 && |b| == 1 {
      assert GateLe(v, MergeOrdered(next, a, b).gates[0]);
    } else if a != [] {
      MergeSplitLe(v, next, a, b, p, q);
    }
  }

  lemma {:induction false} MergeSplitLe(v: Valuation, next: ID, a: seq<ID>, b: seq<ID>, p: nat, q: nat)
    requires 0 < |a| <= |b| && |b| > 1
    requires p <= |a| && q <= |b|
    requires AllLe(v, MergeSplit(next, a, b).gates)
    requires TrueUpTo(v, a, p) && TrueUpTo(v, b, q)
    ensures TrueUpTo(v, MergeSplit(next, a, b).outputs, p + q)
    decreases |a| + |b|, 0
  {
    var odd, even := MergeParts(next, a, b);
    SplitTrueUpTo(v, a, p);
    SplitTrueUpTo(v, b, q);
    MergeSizes(|a|, |b|);
    HalvesMonotone(p, |a|);
    HalvesMonotone(q, |b|);
    MergeOrderedLe(v, next, Odds(a), Odds(b), p / 2, q / 2);
    MergeOrderedLe(v, odd.next, Evens(a), Evens(b), (p + 1) / 2, (q + 1) / 2);
    MergeStepLe(v, odd, even, |a|, p, q);
  }

  lemma MergeLe(v: Valuation, next: ID, inputsA: seq<ID>, inputsB: seq<ID>, p: nat, q: nat)
    requires p <= |inputsA| && q <= |inputsB|
    requires AllLe(v, Merge(next, inputsA, inputsB).gates)
    requires TrueUpTo(v, inputsA, p) && TrueUpTo(v, inputsB, q)
    ensures TrueUpTo(v, Merge(next, inputsA, inputsB).outputs, p + q)
  {
    if |inputsA| <= |inputsB| {
      MergeOrderedLe(v, next, inputsA, inputsB, p, q);
    } else {
      MergeOrderedLe(v, next, inputsB, inputsA, q, p);
    }
  }

  lemma MergeStepGe(v: Valuation, odd: Network, even: Network, a: nat, p: nat, q: nat)
    requires |odd.outputs| <= |even.outputs| <= |odd.outputs| + 2 && |even.outputs| > 0
    requires |even.outputs| == |odd.outputs| + 2 ==> a % 2 == 1 && a < |even.outputs| + |odd.outputs| - 1
    requires AllGe(v, MergeStage(odd, even, a).gates)
    requires FalseFrom(v, odd.outputs, p / 2 + q / 2) && FalseFrom(v, even.outputs, (p + 1) / 2 + (q + 1) / 2)
    ensures FalseFrom(v, MergeStage(odd, even, a).outputs, p + q)
  {
    var pe, po := (p + 1) / 2 + (q + 1) / 2, p / 2 + q / 2;
    assert pe + po == p + q && po <= pe <= po + 2 by {
      Halves(p); Halves(q);
    }
    MergeStageGe(v, odd, even, a, pe, po);
  }

  /** No input from p and q on gives no output from p + q on. */
  lemma {:induction false} MergeOrderedGe(v: Valuation, next: ID, a: seq<ID>, b: seq<ID>, p: nat, q: nat)
    requires |a| <= |b|
    requires AllGe(v, MergeOrdered(next, a, b).gates)
    requires FalseFrom(v, a, p) && FalseFrom(v, b, q)
    ensures FalseFrom(v, MergeOrdered(next, a, b).outputs, p + q)
    decreases |a| + |b|, 1
  {
    if |a| == 1 && |b| == 1 {
      assert GateGe(v, MergeOrdered(next, a, b).gates[0]);
    } else if a != [] {
      MergeSplitGe(v, next, a, b, p, q);
    }
  }

  lemma {:induction false} MergeSplitGe(v: Valuation, next: ID, a: seq<ID>, b: seq<ID>, p: nat, q: nat)
    requires 0 < |a| <= |b| && |b| > 1
    requires AllGe(v, MergeSplit(next, a, b).gates)
    requires FalseFrom(v, a, p) && FalseFrom(v, b, q)
    ensures FalseFrom(v, MergeSplit(next, a, b).outputs, p + q)
    decreases |a| + |b|, 0
  {
    var odd, even := MergeParts(next, a, b);
    SplitFalseFrom(v, a, p);
    SplitFalseFrom(v, b, q);
    MergeSizes(|a|, |b|);
    MergeOrderedGe(v, next, Odds(a), Odds(b), p / 2, q / 2);
    MergeOrderedGe(v, odd.next, Evens(a), Evens(b), (p + 1) / 2, (q + 1) / 2);
    MergeStepGe(v, odd, even, |a|, p, q);
  }

  lemma MergeGe(v: Valuation, next: ID, inputsA: seq<ID>, inputsB: seq<ID>, p: nat, q: nat)
    requires AllGe(v, Merge(next, inputsA, inputsB).gates)
    requires FalseFrom(v, inputsA, p) && FalseFrom(v, inputsB, q)
    ensures FalseFrom(v, Merge(next, inputsA, inputsB).outputs, p + q)
  {
    if |inputsA| <= |inputsB| {
      MergeOrderedGe(v, next, inputsA, inputsB, p, q);
    } else {
      MergeOrderedGe(v, next, inputsB, inputsA, q, p);
    }
  }

  // ----- truncated merging -----

  lemma SimpMergeStageGates(odd: Network, even: Network, c: nat)
    requires c >= 2 && |odd.outputs| == c / 2 && |even.outputs| == c / 2 + 1
    ensures forall g :: g in odd.gates || g in even.gates ==> g in SimpMergeStage(odd, even, c).gates
  {
  }

  /** Halves of long enough lists fill both sides of a stage. */
  lemma SimpHalves(next: ID, a: seq<ID>, b: seq<ID>, c: nat)
    requires 0 < |a| <= |b| <= c && c > 1 && |a| + |b| > c
    ensures |Odds(a)| <= |Odds(b)| <= c / 2 && |SimpMergeOrdered(next, Odds(a), Odds(b), c / 2).outputs| == c / 2
    ensures |Evens(a)| <= |Evens(b)| <= c / 2 + 1
    ensures |SimpMergeOrdered(next, Evens(a), Evens(b), c / 2 + 1).outputs| == c / 2 + 1
  {
    SimpMergeSizes(|a|, |b|, c);
    assert |Odds(a)| == |a| / 2 && |Odds(b)| == |b| / 2;
    assert |Evens(a)| == (|a| + 1) / 2 && |Evens(b)| == (|b| + 1) / 2;
  }

  lemma SimpMergeParts(next: ID, a: seq<ID>, b: seq<ID>, c: nat) returns (odd: Network, even: Network)
    requires 0 < |a| <= |b| <= c && c > 1 && |a| + |b| > c
    ensures odd == SimpMergeOrdered(next, Odds(a), Odds(b), c / 2)
    ensures even == SimpMergeOrdered(odd.next, Evens(a), Evens(b), c / 2 + 1)
    ensures |odd.outputs| == c / 2 && |even.outputs| == c / 2 + 1
    ensures SimpMergeSplit(next, a, b, c) == SimpMergeStage(odd, even, c)
    ensures forall g :: g in odd.gates || g in even.gates ==> g in SimpMergeSplit(next, a, b, c).gates
  {
    SimpHalves(next, a, b, c);
    odd := SimpMergeOrdered(next, Odds(a), Odds(b), c / 2);
    SimpHalves(odd.next, a, b, c);
    even := SimpMergeOrdered(odd.next, Evens(a), Evens(b), c / 2 + 1);
    SimpMergeStageGates(odd, even, c);
  }

  lemma SimpMergeStageLe(v: Valuation, odd: Network, even: Network, c: nat, pe: nat, po: nat)
    requires c >= 2 && |odd.outputs| == c / 2 && |even.outputs| == c / 2 + 1
    requires po <= pe <= po + 2
    requires AllLe(v, SimpMergeStage(odd, even, c).gates)
    requires TrueUpTo(v, even.outputs, pe) && TrueUpTo(v, odd.outputs, po)
    ensures TrueUpTo(v, SimpMergeStage(odd, even, c).outputs, pe + po)
  {
    var net := SimpMergeStage(odd, even, c);
    var m := (c - 1) / 2;
    var z := Interleave(even.outputs, odd.outputs, m);
    assert Pairs(z, even.outputs, odd.outputs, m) by {
      InterleavePairs(even.outputs, odd.outputs, m);
    }
    var compared := CompareGates(z, even.next, m);
    var outs := CompareOutputs(z, even.next, m);
    if c % 2 == 0 {
      var last := Or(even.outputs[c/2], odd.outputs[c/2 - 1], even.next + 4*m);
      assert net.gates == odd.gates + even.gates + compared + [last];
      assert net.outputs == outs + [even.next + 4*m];
      AllLeConcat(v, odd.gates + even.gates + compared, [last]);
      AllLeConcat(v, odd.gates + even.gates, compared);
      CompareLe(v, even.outputs, odd.outputs, z, even.next, m, pe, po);
      assert last in [last] && GateLe(v, last);
    } else {
      assert net.gates == odd.gates + even.gates + compared && net.outputs == outs;
      AllLeConcat(v, odd.gates + even.gates, compared);
      CompareLe(v, even.outputs, odd.outputs, z, even.next, m, pe, po);
    }
  }

  lemma SimpMergeStepLe(v: Valuation, odd: Network, even: Network, c: nat, p: nat, q: nat)
    requires c >= 2 && |odd.outputs| == c / 2 && |even.outputs| == c / 2 + 1
    requires AllLe(v, SimpMergeStage(odd, even, c).gates)
    requires TrueUpTo(v, odd.outputs, p / 2 + q / 2) && TrueUpTo(v, even.outputs, (p + 1) / 2 + (q + 1) / 2)
    ensures TrueUpTo(v, SimpMergeStage(odd, even, c).outputs, p + q)
  {
    var pe, po := (p + 1) / 2 + (q + 1) / 2, p / 2 + q / 2;
    assert pe + po == p + q && po <= pe <= po + 2 by {
      Halves(p); Halves(q);
    }
    SimpMergeStageLe(v, odd, even, c, pe, po);
  }

  lemma {:induction false} SimpMergeOrderedLe(v: Valuation, next: ID, a: seq<ID>, b: seq<ID>, c: nat, p: nat, q: nat)
    requires |a| <= |b| <= c
    requires p <= |a| && q <= |b|
    requires AllLe(v, SimpMergeOrdered(next, a, b, c).gates)
    requires TrueUpTo(v, a, p) && TrueUpTo(v, b, q)
    ensures TrueUpTo(v, SimpMergeOrdered(next, a, b, c).outputs, p + q)
    decreases |a| + |b|, 1
  {
    if a == [] {
    } else if |a| == 1 && |b| == 1 && c == 1 {
      assert GateLe(v, SimpMergeOrdered(next, a, b, c).gates[0]);
    } else if |a| + |b| <= c {
      MergeOrderedLe(v, next, a, b, p, q);
    } else {
      SimpMergeSplitLe(v, next, a, b, c, p, q);
    }
  }

  lemma {:induction false} SimpMergeSplitLe(v: Valuation, next: ID, a: seq<ID>, b: seq<ID>, c: nat, p: nat, q: nat)
    requires 0 < |a| <= |b| <= c && c > 1 && |a| + |b| > c
    requires p <= |a| && q <= |b|
    requires AllLe(v, SimpMergeSplit(next, a, b, c).gates)
    requires TrueUpTo(v, a, p) && TrueUpTo(v, b, q)
    ensures TrueUpTo(v, SimpMergeSplit(next, a, b, c).outputs, p + q)
    decreases |a| + |b|, 0
  {
    var odd, even := SimpMergeParts(next, a, b, c);
    SplitTrueUpTo(v, a, p);
    SplitTrueUpTo(v, b, q);
    SimpHalves(next, a, b, c);
    SimpMergeOrderedLe(v, next, Odds(a), Odds(b), c / 2, p / 2, q / 2);
    SimpMergeOrderedLe(v, odd.next, Evens(a), Evens(b), c / 2 + 1, (p + 1) / 2, (q + 1) / 2);
    SimpMergeStepLe(v, odd, even, c, p, q);
  }

  lemma SimpMergeLe(v: Valuation, next: ID, inputsA: seq<ID>, inputsB: seq<ID>, c: nat, p: nat, q: nat)
    requires (p <= |inputsA| || c <= |inputsA|) && (q <= |inputsB| || c <= |inputsB|)
    requires AllLe(v, SimpMerge(next, inputsA, inputsB, c).gates)
    requires TrueUpTo(v, inputsA, p) && TrueUpTo(v, inputsB, q)
    ensures TrueUpTo(v, SimpMerge(next, inputsA, inputsB, c).outputs, p + q)
  {
    var p', q' := Min(p, |inputsA|), Min(q, |inputsB|);
    var a, b := Truncate(inputsA, c), Truncate(inputsB, c);
    if |inputsA| <= |inputsB| {
      SimpMergeOrderedLe(v, next, a, b, c, Min(p', c), Min(q', c));
    } else {
      SimpMergeOrderedLe(v, next, b, a, c, Min(q', c), Min(p', c));
    }
  }

  lemma SimpMergeStageGe(v: Valuation, odd: Network, even: Network, c: nat, pe: nat, po: nat)
    requires c >= 2 && |odd.outputs| == c / 2 && |even.outputs| == c / 2 + 1
    requires po <= pe <= po + 2
    requires AllGe(v, SimpMergeStage(odd, even, c).gates)
    requires FalseFrom(v, even.outputs, pe) && FalseFrom(v, odd.outputs, po)
    ensures FalseFrom(v, SimpMergeStage(odd, even, c).outputs, pe + po)
  {
    var net := SimpMergeStage(odd, even, c);
    var m := (c - 1) / 2;
    var z := Interleave(even.outputs, odd.outputs, m);
    assert Pairs(z, even.outputs, odd.outputs, m) by {
      InterleavePairs(even.outputs, odd.outputs, m);
    }
    var compared := CompareGates(z, even.next, m);
    var outs := CompareOutputs(z, even.next, m);
    if c % 2 == 0 {
      var last := Or(even.outputs[c/2], odd.outputs[c/2 - 1], even.next + 4*m);
      assert net.gates == odd.gates + even.gates + compared + [last];
      assert net.outputs == outs + [even.next + 4*m];
      AllGeConcat(v, odd.gates + even.gates + compared, [last]);
      AllGeConcat(v, odd.gates + even.gates, compared);
      CompareGe(v, even.outputs, odd.outputs, z, even.next, m, pe, po);
      assert last in [last] && GateGe(v, last);
    } else {
      assert net.gates == odd.gates + even.gates + compared && net.outputs == outs;
      AllGeConcat(v, odd.gates + even.gates, compared);
      CompareGe(v, even.outputs, odd.outputs, z, even.next, m, pe, po);
    }
  }

  lemma SimpMergeStepGe(v: Valuation, odd: Network, even: Network, c: nat, p: nat, q: nat)
    requires c >= 2 && |odd.outputs| == c / 2 && |even.outputs| == c / 2 + 1
    requires AllGe(v, SimpMergeStage(odd, even, c).gates)
    requires FalseFrom(v, odd.outputs, p / 2 + q / 2) && FalseFrom(v, even.outputs, (p + 1) / 2 + (q + 1) / 2)
    ensures FalseFrom(v, SimpMergeStage(odd, even, c).outputs, p + q)
  {
    var pe, po := (p + 1) / 2 + (q + 1) / 2, p / 2 + q / 2;
    assert pe + po == p + q && po <= pe <= po + 2 by {
      Halves(p); Halves(q);
    }
    SimpMergeStageGe(v, odd, even, c, pe, po);
  }

  lemma {:induction false} SimpMergeOrderedGe(v: Valuation, next: ID, a: seq<ID>, b: seq<ID>, c: nat, p: nat, q: nat)
    requires |a| <= |b| <= c
    requires AllGe(v, SimpMergeOrdered(next, a, b, c).gates)
    requires FalseFrom(v, a, p) && FalseFrom(v, b, q)
    ensures FalseFrom(v, SimpMergeOrdered(next, a, b, c).outputs, p + q)
    decreases |a| + |b|, 1
  {
    if a == [] {
    } else if |a| == 1 && |b| == 1 && c == 1 {
      assert GateGe(v, SimpMergeOrdered(next, a, b, c).gates[0]);
    } else if |a| + |b| <= c {
      MergeOrderedGe(v, next, a, b, p, q);
    } else {
      SimpMergeSplitGe(v, next, a, b, c, p, q);
    }
  }

  lemma {:induction false} SimpMergeSplitGe(v: Valuation, next: ID, a: seq<ID>, b: seq<ID>, c: nat, p: nat, q: nat)
    requires 0 < |a| <= |b| <= c && c > 1 && |a| + |b| > c
    requires AllGe(v, SimpMergeSplit(next, a, b, c).gates)
    requires FalseFrom(v, a, p) && FalseFrom(v, b, q)
    ensures FalseFrom(v, SimpMergeSplit(next, a, b, c).outputs, p + q)
    decreases |a| + |b|, 0
  {
    var odd, even := SimpMergeParts(next, a, b, c);
    SplitFalseFrom(v, a, p);
    SplitFalseFrom(v, b, q);
    SimpHalves(next, a, b, c);
    SimpMergeOrderedGe(v, next, Odds(a), Odds(b), c / 2, p / 2, q / 2);
    SimpMergeOrderedGe(v, odd.next, Evens(a), Evens(b), c / 2 + 1, (p + 1) / 2, (q + 1) / 2);
    SimpMergeStepGe(v, odd, even, c, p, q);
  }

  lemma SimpMergeGe(v: Valuation, next: ID, inputsA: seq<ID>, inputsB: seq<ID>, c: nat, p: nat, q: nat)
    requires AllGe(v, SimpMerge(next, inputsA, inputsB, c).gates)
    requires FalseFrom(v, inputsA, p) && FalseFrom(v, inputsB, q)
    ensures FalseFrom(v, SimpMerge(next, inputsA, inputsB, c).outputs, p + q)
  {
    var a, b := Truncate(inputsA, c), Truncate(inputsB, c);
    if |inputsA| <= |inputsB| {
      SimpMergeOrderedGe(v, next, a, b, c, p, q);
    } else {
      SimpMergeOrderedGe(v, next, b, a, c, q, p);
    }
  }

  // ----- sorting and cardinality networks count their inputs -----

  lemma {:induction false} SortingLe(v: Valuation, next: ID, inputs: seq<ID>)
    requires |inputs| > 0
    requires AllLe(v, Sorting(next, inputs).gates)
    ensures TrueUpTo(v, Sorting(next, inputs).outputs, Count(v, inputs))
    decreases |inputs|
  {
    var net := Sorting(next, inputs);
    if |inputs| == 2 {
      var x1, x2 := [inputs[0]], [inputs[1]];
      assert inputs == x1 + x2;
      CountConcat(v, x1, x2);
      MergeLe(v, next, x1, x2, Count(v, x1), Count(v, x2));
    } else if |inputs| > 2 {
      var l := |inputs| / 2;
      assert inputs == inputs[..l] + inputs[l..];
      CountConcat(v, inputs[..l], inputs[l..]);
      CountBound(v, inputs[..l]);
      CountBound(v, inputs[l..]);
      var left := Sorting(next, inputs[..l]);
      var right := Sorting(left.next, inputs[l..]);
      var merged := Merge(right.next, left.outputs, right.outputs);
      AllLeConcat(v, left.gates + right.gates, merged.gates);
      AllLeConcat(v, left.gates, right.gates);
      SortingLe(v, next, inputs[..l]);
      SortingLe(v, left.next, inputs[l..]);
      MergeLe(v, right.next, left.outputs, right.outputs, Count(v, inputs[..l]), Count(v, inputs[l..]));
    }
  }

  lemma {:induction false} CardinalityLe(v: Valuation, next: ID, inputs: seq<ID>, m: nat)
    requires |inputs| > 0 && m > 0
    requires AllLe(v, CardinalityNetwork(next, inputs, m).gates)
    ensures TrueUpTo(v, CardinalityNetwork(next, inputs, m).outputs, Count(v, inputs))
    decreases |inputs|
  {
    if |inputs| <= m {
      SortingLe(v, next, inputs);
    } else {
      var l := |inputs| / 2;
      assert inputs == inputs[..l] + inputs[l..];
      CountConcat(v, inputs[..l], inputs[l..]);
      CountBound(v, inputs[..l]);
      CountBound(v, inputs[l..]);
      var left := CardinalityNetwork(next, inputs[..l], m);
      var right := CardinalityNetwork(left.next, inputs[l..], m);
      var merged := SimpMerge(right.next, left.outputs, right.outputs, m);
      AllLeConcat(v, left.gates + right.gates, merged.gates);
      AllLeConcat(v, left.gates, right.gates);
      CardinalityLe(v, next, inputs[..l], m);
      CardinalityLe(v, left.next, inputs[l..], m);
      SimpMergeLe(v, right.next, left.outputs, right.outputs, m, Min(Count(v, inputs[..l]), |left.outputs|), Min(Count(v, inputs[l..]), |right.outputs|));
    }
  }

  lemma {:induction false} SortingGe(v: Valuation, next: ID, inputs: seq<ID>)
    requires |inputs| > 0
    requires AllGe(v, Sorting(next, inputs).gates)
    ensures FalseFrom(v, Sorting(next, inputs).outputs, Count(v, inputs))
    decreases |inputs|
  {
    var net := Sorting(next, inputs);
    if |inputs| == 2 {
      var x1, x2 := [inputs[0]], [inputs[1]];
      assert inputs == x1 + x2;
      CountConcat(v, x1, x2);
      MergeGe(v, next, x1, x2, Count(v, x1), Count(v, x2));
    } else if |inputs| > 2 {
      var l := |inputs| / 2;
      assert inputs == inputs[..l] + inputs[l..];
      CountConcat(v, inputs[..l], inputs[l..]);
      CountBound(v, inputs[..l]);
      CountBound(v, inputs[l..]);
      var left := Sorting(next, inputs[..l]);
      var right := Sorting(left.next, inputs[l..]);
      var merged := Merge(right.next, left.outputs, right.outputs);
      AllGeConcat(v, left.gates + right.gates, merged.gates);
      AllGeConcat(v, left.gates, right.gates);
      SortingGe(v, next, inputs[..l]);
      SortingGe(v, left.next, inputs[l..]);
      MergeGe(v, right.next, left.outputs, right.outputs, Count(v, inputs[..l]), Count(v, inputs[l..]));
    }
  }

  lemma {:induction false} CardinalityGe(v: Valuation, next: ID, inputs: seq<ID>, m: nat)
    requires |inputs| > 0 && m > 0
    requires AllGe(v, CardinalityNetwork(next, inputs, m).gates)
    ensures FalseFrom(v, CardinalityNetwork(next, inputs, m).outputs, Count(v, inputs))
    decreases |inputs|
  {
    if |inputs| <= m {
      SortingGe(v, next, inputs);
    } else {
      var l := |inputs| / 2;
      assert inputs == inputs[..l] + inputs[l..];
      CountConcat(v, inputs[..l], inputs[l..]);
      CountBound(v, inputs[..l]);
      CountBound(v, inputs[l..]);
      var left := CardinalityNetwork(next, inputs[..l], m);
      var right := CardinalityNetwork(left.next, inputs[l..], m);
      var merged := SimpMerge(right.next, left.outputs, right.outputs, m);
      AllGeConcat(v, left.gates + right.gates, merged.gates);
      AllGeConcat(v, left.gates, right.gates);
      CardinalityGe(v, next, inputs[..l], m);
      CardinalityGe(v, left.next, inputs[l..], m);
      SimpMergeGe(v, right.next, left.outputs, right.outputs, m, Count(v, inputs[..l]), Count(v, inputs[l..]));
    }
  }

}
