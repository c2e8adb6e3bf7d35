/** The network builders of src/pme/util/sorting_network.cpp.

    They take variables from a manager and push clauses; each is tied to the
    network value that NetworkSpec defines. */
module SortingNetwork {
  import opened Ids
  import opened VariableManagers
  import opened NetworkSpec
  import opened NetworkProofs

  method TakeOdd(vec: seq<ID>) returns (odd: seq<ID>)
    ensures odd == Odds(vec)
  {
    odd := [];
    var i := 1;
    while i < |vec|
      invariant i == 2*|odd| + 1 && |odd| <= |vec| / 2
      invariant forall k :: 0 <= k < |odd| ==> odd[k] == vec[2*k + 1]
    {
      odd := odd + [vec[i]];
      i := i + 2;
    }
  }

  method TakeEven(vec: seq<ID>) returns (even: seq<ID>)
    ensures even == Evens(vec)
  {
    even := [];
    var i := 0;
    while i < |vec|
      invariant i == 2*|even| && |even| <= (|vec| + 1) / 2
      invariant forall k :: 0 <= k < |even| ==> even[k] == vec[2*k]
    {
      even := even + [vec[i]];
      i := i + 2;
    }
  }

  method ZipperMerge(even: seq<ID>, odd: seq<ID>, a: nat, b: nat) returns (merged: seq<ID>)
    requires |odd| <= |even| <= |odd| + 2 && |even| + |odd| == a + b
    requires |even| == |odd| + 2 ==> a % 2 == 1 && b % 2 == 1 && b > 1
    ensures merged == Zipper(even, odd, a)
  {
    if |even| - |odd| <= 1 {
      merged := ZipAlternating(even, odd, a);
    } else {
      merged := ZipAround(even, odd, a, b);
    }
  }

  /** Even and odd positions alternate. */
  method ZipAlternating(even: seq<ID>, odd: seq<ID>, a: nat) returns (merged: seq<ID>)
    requires |odd| <= |even| <= |odd| + 1
    ensures merged == Zipper(even, odd, a)
  {
    merged := [];
    ghost var z := Zipper(even, odd, a);
    for i := 0 to |odd|
      invariant |merged| == 2*i && merged == z[..2*i]
    {
      assert z[2*i] == even[i] && z[2*i + 1] == odd[i];
      merged := merged + [even[i]];
      merged := merged + [odd[i]];
    }
    if |even| - |odd| == 1 {
      assert z[|z|-1] == even[|even|-1];
      merged := merged + [even[|even|-1]];
    }
  }

  /** Both inputs were odd: two even positions meet after a + 1 outputs. */
  method ZipAround(even: seq<ID>, odd: seq<ID>, a: nat, b: nat) returns (merged: seq<ID>)
    requires |even| == |odd| + 2 && |even| + |odd| == a + b && a % 2 == 1 && b % 2 == 1 && b > 1
    ensures merged == Zipper(even, odd, a)
  {
    merged := [];
    ghost var z := Zipper(even, odd, a);
    var iEven, iOdd := 0, 0;
    while iOdd < |odd|
      invariant 0 <= iOdd <= |odd|
      invariant iEven == if 2*iOdd < a + 1 then iOdd else iOdd + 1
      invariant |merged| == iEven + iOdd <= |z| && merged == z[..|merged|]
    {
      assert z[|merged|] == even[iEven] && z[|merged| + 1] == odd[iOdd];
      merged := merged + [even[iEven]];
      merged := merged + [odd[iOdd]];
      iEven := iEven + 1;
      iOdd := iOdd + 1;
      if |merged| == a + 1 {
        assert z[|merged|] == even[iEven];
        merged := merged + [even[iEven]];
        iEven := iEven + 1;
      }
    }
    assert z[|z|-1] == even[|even|-1];
    merged := merged + [even[|even|-1]];
  }

  method Comp(x1: ID, x2: ID, y1: ID, y2: ID, le: bool, ge: bool) returns (cnf: seq<Clause>)
    requires le || ge
    ensures cnf == CompClauses(x1, x2, y1, y2, le, ge)
  {
    cnf := [];
    if le {
      cnf := cnf + [[Negate(x1), y1]];
      cnf := cnf + [[Negate(x2), y1]];
      cnf := cnf + [[Negate(x1), Negate(x2), y2]];
    }
    if ge {
      cnf := cnf + [[x1, Negate(y2)]];
      cnf := cnf + [[x2, Negate(y2)]];
      cnf := cnf + [[x1, x2, Negate(y1)]];
    }
  }

  method PartialComp(x1: ID, x2: ID, y: ID, le: bool, ge: bool) returns (cnf: seq<Clause>)
    requires le || ge
    ensures cnf == PartialCompClauses(x1, x2, y, le, ge)
  {
    cnf := [];
    if le {
      cnf := cnf + [[Negate(x1), y]];
      cnf := cnf + [[Negate(x2), y]];
    }
    if ge {
      cnf := cnf + [[x1, x2, Negate(y)]];
    }
  }

  lemma CompareGrows(z: seq<ID>, next: ID, m: nat, le: bool, ge: bool)
    requires 2*m + 2 < |z|
    ensures CompareOutputs(z, next, m + 1) == CompareOutputs(z, next, m) + [next + 4*m, next + 4*m + 2]
    ensures Emit(CompareGates(z, next, m + 1), le, ge) ==
      Emit(CompareGates(z, next, m), le, ge) + CompClauses(z[2*m + 1], z[2*m + 2], next + 4*m, next + 4*m + 2, le, ge)
  {
    var g := Comparator(z[2*m + 1], z[2*m + 2], next + 4*m, next + 4*m + 2);
    CompareGatesGrow(z, next, m);
    EmitConcat(CompareGates(z, next, m), [g], le, ge);
    EmitOne(g, le, ge);
  }

  lemma CompareGatesGrow(z: seq<ID>, next: ID, m: nat)
    requires 2*m + 2 < |z|
    ensures CompareGates(z, next, m + 1) ==
      CompareGates(z, next, m) + [Comparator(z[2*m + 1], z[2*m + 2], next + 4*m, next + 4*m + 2)]
    ensures CompareOutputs(z, next, m + 1) == CompareOutputs(z, next, m) + [next + 4*m, next + 4*m + 2]
  {
  }

  /** The loop shared by both merges: compares positions 1-2, 3-4, ... of z. */
  method CompareNeighbours(vm: VariableManager, z: seq<ID>, m: nat, le: bool, ge: bool) returns (outputs: seq<ID>, cnf: seq<Clause>)
    requires vm.Valid() && 2*m < |z| && (le || ge)
    modifies vm
    ensures vm.Valid() && vm.nextID == old(vm.nextID) + 4*m
    ensures outputs == CompareOutputs(z, old(vm.nextID), m)
    ensures cnf == Emit(CompareGates(z, old(vm.nextID), m), le, ge)
  {
    ghost var next := vm.nextID;
    outputs := [z[0]];
    cnf := [];
    for i := 0 to m
      invariant vm.Valid() && vm.nextID == next + 4*i
      invariant outputs == CompareOutputs(z, next, i)
      invariant cnf == Emit(CompareGates(z, next, i), le, ge)
    {
      var y1 := vm.GetNewID();
      var y2 := vm.GetNewID();
      var compCnf := Comp(z[2*i + 1], z[2*i + 2], y1, y2, le, ge);
      CompareGrows(z, next, i, le, ge);
      cnf := cnf + compCnf;
      outputs := outputs + [y1, y2];
    }
  }

  lemma ThreePartEmit(a: seq<Gate>, b: seq<Gate>, c: seq<Gate>, le: bool, ge: bool)
    ensures Emit(a + b + c, le, ge) == Emit(a, le, ge) + Emit(b, le, ge) + Emit(c, le, ge)
  {
    EmitConcat(a, b, le, ge);
    EmitConcat(a + b, c, le, ge);
  }

  /** Compares the merged outputs of the odd and the even network. */
  method CompareMerged(vm: VariableManager, zOdd: seq<ID>, zEven: seq<ID>, a: nat, b: nat, le: bool, ge: bool,
                       ghost odd: Network, ghost even: Network)
    returns (outputs: seq<ID>, cnf: seq<Clause>)
    requires vm.Valid() && (le || ge)
    requires |zOdd| <= |zEven| <= |zOdd| + 2 && |zEven| + |zOdd| == a + b && |zEven| > 0
    requires |zEven| == |zOdd| + 2 ==> a % 2 == 1 && b % 2 == 1 && b > 1
    requires zOdd == odd.outputs && zEven == even.outputs && vm.nextID == even.next
    modifies vm
    ensures vm.Valid()
    ensures var net := MergeStage(odd, even, a);
      && outputs == net.outputs
      && Emit(odd.gates, le, ge) + Emit(even.gates, le, ge) + cnf == Emit(net.gates, le, ge)
      && vm.nextID == net.next
  {
    var z := ZipperMerge(zEven, zOdd, a, b);
    outputs, cnf := CompareStage(vm, z, (|z| - 1) / 2, le, ge, odd, even);
  }

  method CompareStage(vm: VariableManager, z: seq<ID>, m: nat, le: bool, ge: bool, ghost odd: Network, ghost even: Network)
    returns (outputs: seq<ID>, cnf: seq<Clause>)
    requires vm.Valid() && (le || ge) && 2*m < |z| && vm.nextID == even.next
    modifies vm
    ensures vm.Valid()
    ensures var net := Compared(odd, even, z, m);
      && outputs == net.outputs
      && Emit(odd.gates, le, ge) + Emit(even.gates, le, ge) + cnf == Emit(net.gates, le, ge)
      && vm.nextID == net.next
  {
    outputs, cnf := CompareNeighbours(vm, z, m, le, ge);
    if |z| % 2 == 0 {
      outputs := outputs + [z[|z|-1]];
    }
    ThreePartEmit(odd.gates, even.gates, CompareGates(z, even.next, m), le, ge);
  }

  method MergeNetwork(vm: VariableManager, inputsA: seq<ID>, inputsB: seq<ID>, le: bool, ge: bool)
    returns (outputs: seq<ID>, cnf: seq<Clause>)
    requires vm.Valid() && (le || ge)
    modifies vm
    ensures vm.Valid()
    ensures var net := Merge(old(vm.nextID), inputsA, inputsB);
      outputs == net.outputs && cnf == Emit(net.gates, le, ge) && vm.nextID == net.next
    decreases |inputsA| + |inputsB|, 1
  {
    ghost var next := vm.nextID;
    var a := if |inputsA| <= |inputsB| then inputsA else inputsB;
    var b := if |inputsA| <= |inputsB| then inputsB else inputsA;
    assert Merge(next, inputsA, inputsB) == MergeOrdered(next, a, b);
    if |a| == 1 && |b| == 1 {
      var y1 := vm.GetNewID();
      var y2 := vm.GetNewID();
      outputs := [y1, y2];
      cnf := Comp(a[0], b[0], y1, y2, le, ge);
      EmitOne(Comparator(a[0], b[0], next, next + 2), le, ge);
    } else if a == [] {
      outputs := b;
      cnf := [];
    } else {
      outputs, cnf := MergeRecursive(vm, a, b, le, ge);
    }
  }

  /** The last branch of mergeNetwork: odd and even parts are merged apart. */
  method MergeRecursive(vm: VariableManager, a: seq<ID>, b: seq<ID>, le: bool, ge: bool)
    returns (outputs: seq<ID>, cnf: seq<Clause>)
    requires vm.Valid() && (le || ge)
    requires 0 < |a| <= |b| && |b| > 1
    modifies vm
    ensures vm.Valid()
    ensures var net := MergeSplit(old(vm.nextID), a, b);
      outputs == net.outputs && cnf == Emit(net.gates, le, ge) && vm.nextID == net.next
    decreases |a| + |b|, 0
  {
    ghost var next := vm.nextID;
    ghost var odd, even := MergeParts(next, a, b);
    var aOdd := TakeOdd(a);
    var aEven := TakeEven(a);
    var bOdd := TakeOdd(b);
    var bEven := TakeEven(b);
    MergeSizes(|a|, |b|);
    var zOdd, oddCnf := MergeNetwork(vm, aOdd, bOdd, le, ge);
    var zEven, evenCnf := MergeNetwork(vm, aEven, bEven, le, ge);
    assert zOdd == odd.outputs && zEven == even.outputs && vm.nextID == even.next;
    var compareCnf: seq<Clause>;
    outputs, compareCnf := CompareMerged(vm, zOdd, zEven, |a|, |b|, le, ge, odd, even);
    cnf := oddCnf + evenCnf + compareCnf;
  }

  method BuildSortingNetwork(vm: VariableManager, inputs: seq<ID>, le: bool, ge: bool)
    returns (outputs: seq<ID>, cnf: seq<Clause>)
    requires vm.Valid() && (le || ge) && |inputs| > 0
    modifies vm
    ensures vm.Valid()
    ensures var net := Sorting(old(vm.nextID), inputs);
      outputs == net.outputs && cnf == Emit(net.gates, le, ge) && vm.nextID == net.next
    decreases |inputs|
  {
    if |inputs| == 1 {
      outputs := inputs;
      cnf := [];
    } else if |inputs| == 2 {
      outputs, cnf := MergeNetwork(vm, [inputs[0]], [inputs[1]], le, ge);
    } else {
      ghost var next := vm.nextID;
      var l := |inputs| / 2;
      var outputsLeft, cnfLeft := BuildSortingNetwork(vm, inputs[..l], le, ge);
      var outputsRight, cnfRight := BuildSortingNetwork(vm, inputs[l..], le, ge);
      ghost var mergeNext := vm.nextID;
      var cnfMerge: seq<Clause>;
      outputs, cnfMerge := MergeNetwork(vm, outputsLeft, outputsRight, le, ge);
      cnf := cnfLeft + cnfRight + cnfMerge;
      ghost var left := Sorting(next, inputs[..l]);
      ghost var right := Sorting(left.next, inputs[l..]);
      EmitConcat(left.gates, right.gates, le, ge);
      EmitConcat(left.gates + right.gates, Merge(mergeNext, outputsLeft, outputsRight).gates, le, ge);
    }
  }

  method SimpMergeNetwork(vm: VariableManager, inputsA: seq<ID>, inputsB: seq<ID>, c: nat, le: bool, ge: bool)
    returns (outputs: seq<ID>, cnf: seq<Clause>)
    requires vm.Valid() && (le || ge)
    modifies vm
    ensures vm.Valid()
    ensures var net := SimpMerge(old(vm.nextID), inputsA, inputsB, c);
      outputs == net.outputs && cnf == Emit(net.gates, le, ge) && vm.nextID == net.next
    decreases |inputsA| + |inputsB|
  {
    ghost var next := vm.nextID;
    var a := if |inputsA| <= |inputsB| then inputsA else inputsB;
    var b := if |inputsA| <= |inputsB| then inputsB else inputsA;
    if |a| > c {
      a := a[..c];
    }
    if |b| > c {
      b := b[..c];
    }
    assert SimpMerge(next, inputsA, inputsB, c) == SimpMergeOrdered(next, a, b, c);
    if a == [] {
      outputs := b;
      cnf := [];
    } else if |a| == 1 && |b| == 1 && c == 1 {
      var y := vm.GetNewID();
      cnf := PartialComp(a[0], b[0], y, le, ge);
      outputs := [y];
      EmitOne(Or(a[0], b[0], next), le, ge);
    } else if |a| + |b| <= c {
      outputs, cnf := MergeNetwork(vm, a, b, le, ge);
    } else {
      outputs, cnf := SimpMergeRecursive(vm, a, b, c, le, ge);
    }
  }

  lemma SimpMergeUncut(next: ID, a: seq<ID>, b: seq<ID>, c: nat)
    requires |a| <= |b| <= c
    ensures SimpMerge(next, a, b, c) == SimpMergeOrdered(next, a, b, c)
  {
  }

  /** The last branch of simpMergeNetwork: more inputs than wanted outputs. */
  method SimpMergeRecursive(vm: VariableManager, a: seq<ID>, b: seq<ID>, c: nat, le: bool, ge: bool)
    returns (outputs: seq<ID>, cnf: seq<Clause>)
    requires vm.Valid() && (le || ge)
    requires 0 < |a| <= |b| <= c && c > 1 && |a| + |b| > c
    modifies vm
    ensures vm.Valid()
    ensures var net := SimpMergeSplit(old(vm.nextID), a, b, c);
      outputs == net.outputs && cnf == Emit(net.gates, le, ge) && vm.nextID == net.next
    decreases |a| + |b|, 0
  {
    ghost var next := vm.nextID;
    ghost var odd, even := SimpMergeParts(next, a, b, c);
    var isEven := c % 2 == 0;
    var aOdd := TakeOdd(a);
    var aEven := TakeEven(a);
    var bOdd := TakeOdd(b);
    var bEven := TakeEven(b);
    var oddSize := if isEven then c / 2 else (c - 1) / 2;
    var evenSize := if isEven then c / 2 + 1 else (c + 1) / 2;
    assert oddSize == c / 2 && evenSize == c / 2 + 1;
    SimpMergeSizes(|a|, |b|, c);
    SimpMergeUncut(next, aOdd, bOdd, oddSize);
    SimpMergeUncut(odd.next, aEven, bEven, evenSize);
    var zOdd, oddCnf := SimpMergeNetwork(vm, aOdd, bOdd, oddSize, le, ge);
    var zEven, evenCnf := SimpMergeNetwork(vm, aEven, bEven, evenSize, le, ge);
    assert zOdd == odd.outputs && zEven == even.outputs && vm.nextID == even.next;
    var stageCnf: seq<Clause>;
    outputs, stageCnf := CompareTruncated(vm, zOdd, zEven, c, le, ge, odd, even);
    cnf := oddCnf + evenCnf + stageCnf;
  }

  lemma EvenStageEmit(odd: Network, even: Network, m: nat, le: bool, ge: bool)
    requires |odd.outputs| == m + 1 && |even.outputs| == m + 2
    ensures var y := even.next + 4*m;
      var compared := CompareGates(Interleave(even.outputs, odd.outputs, m), even.next, m);
      Emit(WithOr(odd, even, m).gates, le, ge) ==
        Emit(odd.gates, le, ge) + Emit(even.gates, le, ge) +
        (Emit(compared, le, ge) + PartialCompClauses(even.outputs[m + 1], odd.outputs[m], y, le, ge))
  {
    var compared := CompareGates(Interleave(even.outputs, odd.outputs, m), even.next, m);
    FourPartEmit(odd.gates, even.gates, compared, even.outputs[m + 1], odd.outputs[m], even.next + 4*m, le, ge);
  }

  lemma FourPartEmit(a: seq<Gate>, b: seq<Gate>, c: seq<Gate>, x1: ID, x2: ID, y: ID, le: bool, ge: bool)
    ensures Emit(a + b + c + [Or(x1, x2, y)], le, ge) ==
      Emit(a, le, ge) + Emit(b, le, ge) + (Emit(c, le, ge) + PartialCompClauses(x1, x2, y, le, ge))
  {
    EmitConcat(a + b + c, [Or(x1, x2, y)], le, ge);
    ThreePartEmit(a, b, c, le, ge);
    EmitOne(Or(x1, x2, y), le, ge);
  }

  lemma HalfSizes(c: nat, m: int)
    requires c >= 2 && m == if c % 2 == 0 then c / 2 - 1 else (c - 1) / 2
    ensures m == (c - 1) / 2 && c / 2 == (if c % 2 == 0 then m + 1 else m)
  {
  }

  lemma OddStageEmit(odd: Network, even: Network, m: nat, le: bool, ge: bool)
    requires |odd.outputs| == m && |even.outputs| == m + 1
    ensures Emit(WithoutOr(odd, even, m).gates, le, ge) ==
      Emit(odd.gates, le, ge) + Emit(even.gates, le, ge) +
      Emit(CompareGates(Interleave(even.outputs, odd.outputs, m), even.next, m), le, ge)
  {
    ThreePartEmit(odd.gates, even.gates, CompareGates(Interleave(even.outputs, odd.outputs, m), even.next, m), le, ge);
  }

  /** Compares even-odd pairs; an even c ends in a single OR. */
  method CompareTruncated(vm: VariableManager, zOdd: seq<ID>, zEven: seq<ID>, c: nat, le: bool, ge: bool,
                          ghost odd: Network, ghost even: Network)
    returns (outputs: seq<ID>, cnf: seq<Clause>)
    requires vm.Valid() && (le || ge)
    requires c >= 2 && |zOdd| == c / 2 && |zEven| == c / 2 + 1
    requires zOdd == odd.outputs && zEven == even.outputs && vm.nextID == even.next
    modifies vm
    ensures vm.Valid()
    ensures var net := SimpMergeStage(odd, even, c);
      && outputs == net.outputs
      && Emit(odd.gates, le, ge) + Emit(even.gates, le, ge) + cnf == Emit(net.gates, le, ge)
      && vm.nextID == net.next
  {
    var isEven := c % 2 == 0;
    var m := if isEven then c / 2 - 1 else (c - 1) / 2;
    HalfSizes(c, m);
    assert SimpMergeStage(odd, even, c) == if isEven then WithOr(odd, even, m) else WithoutOr(odd, even, m);
    outputs, cnf := CompareWithin(vm, zOdd, zEven, m, isEven, le, ge, odd, even);
  }

  method CompareWithin(vm: VariableManager, zOdd: seq<ID>, zEven: seq<ID>, m: nat, isEven: bool, le: bool, ge: bool,
                       ghost odd: Network, ghost even: Network)
    returns (outputs: seq<ID>, cnf: seq<Clause>)
    requires vm.Valid() && (le || ge)
    requires |zOdd| == (if isEven then m + 1 else m) && |zEven| == |zOdd| + 1
    requires zOdd == odd.outputs && zEven == even.outputs && vm.nextID == even.next
    modifies vm
    ensures vm.Valid()
    ensures var net := if isEven then WithOr(odd, even, m) else WithoutOr(odd, even, m);
      && outputs == net.outputs
      && Emit(odd.gates, le, ge) + Emit(even.gates, le, ge) + cnf == Emit(net.gates, le, ge)
      && vm.nextID == net.next
  {
    outputs, cnf := CompareEvenOdd(vm, zOdd, zEven, m, le, ge);
    if isEven {
      EvenStageEmit(odd, even, m, le, ge);
      var yc := vm.GetNewID();
      var orCnf := PartialComp(zEven[|zEven|-1], zOdd[|zOdd|-1], yc, le, ge);
      cnf := cnf + orCnf;
      outputs := outputs + [yc];
    } else {
      OddStageEmit(odd, even, m, le, ge);
    }
  }

  method CompareEvenOdd(vm: VariableManager, zOdd: seq<ID>, zEven: seq<ID>, m: nat, le: bool, ge: bool)
    returns (outputs: seq<ID>, cnf: seq<Clause>)
    requires vm.Valid() && (le || ge) && m < |zEven| && m <= |zOdd|
    modifies vm
    ensures vm.Valid() && vm.nextID == old(vm.nextID) + 4*m
    ensures var z := Interleave(zEven, zOdd, m);
      && outputs == CompareOutputs(z, old(vm.nextID), m)
      && cnf == Emit(CompareGates(z, old(vm.nextID), m), le, ge)
  {
    ghost var z := Interleave(zEven, zOdd, m);
    ghost var next := vm.nextID;
    outputs := [zEven[0]];
    cnf := [];
    for i := 0 to m
      invariant vm.Valid() && vm.nextID == next + 4*i
      invariant outputs == CompareOutputs(z, next, i)
      invariant cnf == Emit(CompareGates(z, next, i), le, ge)
    {
      var y1 := vm.GetNewID();
      var y2 := vm.GetNewID();
      InterleaveAt(zEven, zOdd, m, i);
      CompareGrows(z, next, i, le, ge);
      var compCnf := Comp(zEven[i + 1], zOdd[i], y1, y2, le, ge);
      cnf := cnf + compCnf;
      outputs := outputs + [y1, y2];
    }
  }

  lemma InterleaveAt(even: seq<ID>, odd: seq<ID>, m: nat, i: nat)
    requires i < m < |even| && m <= |odd|
    ensures Interleave(even, odd, m)[2*i + 1] == even[i + 1]
    ensures Interleave(even, odd, m)[2*i + 2] == odd[i]
  {
    assert (2*i + 1) / 2 == i && (2*i + 2) / 2 == i + 1;
  }

  method BuildCardinalityNetwork(vm: VariableManager, inputs: seq<ID>, m: nat, le: bool, ge: bool)
    returns (outputs: seq<ID>, cnf: seq<Clause>)
    requires vm.Valid() && (le || ge) && |inputs| > 0 && m > 0
    modifies vm
    ensures vm.Valid()
    ensures var net := CardinalityNetwork(old(vm.nextID), inputs, m);
      outputs == net.outputs && cnf == Emit(net.gates, le, ge) && vm.nextID == net.next
    decreases |inputs|
  {
    if |inputs| <= m {
      outputs, cnf := BuildSortingNetwork(vm, inputs, le, ge);
    } else {
      ghost var next := vm.nextID;
      var l := |inputs| / 2;
      var outputsLeft, cnfLeft := BuildCardinalityNetwork(vm, inputs[..l], m, le, ge);
      var outputsRight, cnfRight := BuildCardinalityNetwork(vm, inputs[l..], m, le, ge);
      ghost var mergeNext := vm.nextID;
      var cnfMerge: seq<Clause>;
      outputs, cnfMerge := SimpMergeNetwork(vm, outputsLeft, outputsRight, m, le, ge);
      cnf := cnfLeft + cnfRight + cnfMerge;
      ghost var left := CardinalityNetwork(next, inputs[..l], m);
      ghost var right := CardinalityNetwork(left.next, inputs[l..], m);
      EmitConcat(left.gates, right.gates, le, ge);
      EmitConcat(left.gates + right.gates, SimpMerge(mergeNext, outputsLeft, outputsRight, m).gates, le, ge);
    }
  }
}
