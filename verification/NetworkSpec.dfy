/** The comparator networks of src/pme/util/sorting_network.cpp as values.

    A network is a list of gates over fresh variables.  Which clauses a gate
    contributes depends on the le and ge flags; the gates and the output
    variables do not. */
module NetworkSpec {
  import opened Ids

  datatype Gate =
    | Comparator(x1: ID, x2: ID, y1: ID, y2: ID)  // y1 = x1 | x2, y2 = x1 & x2
    | Or(x1: ID, x2: ID, y1: ID)                  // y1 = x1 | x2

  datatype Network = Network(outputs: seq<ID>, gates: seq<Gate>, next: ID)

  // ----- clauses of a gate -----

  function CompClauses(x1: ID, x2: ID, y1: ID, y2: ID, le: bool, ge: bool): seq<Clause> {
    (if le then [[Negate(x1), y1], [Negate(x2), y1], [Negate(x1), Negate(x2), y2]] else []) +
    (if ge then [[x1, Negate(y2)], [x2, Negate(y2)], [x1, x2, Negate(y1)]] else [])
  }

  function PartialCompClauses(x1: ID, x2: ID, y: ID, le: bool, ge: bool): seq<Clause> {
    (if le then [[Negate(x1), y], [Negate(x2), y]] else []) +
    (if ge then [[x1, x2, Negate(y)]] else [])
  }

  function GateClauses(g: Gate, le: bool, ge: bool): seq<Clause> {
    match g
    case Comparator(x1, x2, y1, y2) => CompClauses(x1, x2, y1, y2, le, ge)
    case Or(x1, x2, y) => PartialCompClauses(x1, x2, y, le, ge)
  }

  function Emit(gates: seq<Gate>, le: bool, ge: bool): seq<Clause> {
    if gates == [] then [] else GateClauses(gates[0], le, ge) + Emit(gates[1..], le, ge)
  }

  // ----- the networks -----

  /** The elements at positions 1, 3, 5, ... */
  function Odds<T>(s: seq<T>): (r: seq<T>)
    ensures |r| == |s| / 2
  {
    seq(|s| / 2, i requires 0 <= i < |s| / 2 => s[2*i + 1])
  }

  /** The elements at positions 0, 2, 4, ... */
  function Evens<T>(s: seq<T>): (r: seq<T>)
    ensures |r| == (|s| + 1) / 2
  {
    seq((|s| + 1) / 2, i requires 0 <= i < (|s| + 1) / 2 => s[2*i])
  }

  /** What zipperMerge produces: even and odd elements alternate, but when the
      even side has two more elements, two even elements meet at positions
      a+1 and a+2. */
  function Zipper(even: seq<ID>, odd: seq<ID>, a: nat): (z: seq<ID>)
    requires |odd| <= |even| <= |odd| + 2
    requires |even| == |odd| + 2 ==> a % 2 == 1 && a < |even| + |odd| - 1
    ensures |z| == |even| + |odd|
  {
    seq(|even| + |odd|, j requires 0 <= j < |even| + |odd| =>
      if |even| <= |odd| + 1 || j <= a + 1 then
        if j % 2 == 0 then even[j/2] else odd[j/2]
      else
        if j % 2 == 0 then odd[j/2 - 1] else even[j/2 + 1])
  }

  /** m comparators over positions 1-2, 3-4, ... of z. */
  function CompareGates(z: seq<ID>, next: ID, m: nat): seq<Gate>
    requires 2*m < |z|
  {
    seq(m, i requires 0 <= i < m => Comparator(z[2*i + 1], z[2*i + 2], next + 4*i, next + 4*i + 2))
  }

  function CompareOutputs(z: seq<ID>, next: ID, m: nat): seq<ID>
    requires 2*m < |z|
  {
    seq(2*m + 1, j requires 0 <= j < 2*m + 1 => if j == 0 then z[0] else next + 2*(j - 1))
  }

  /** Merges the outputs of the odd and the even network of one level. */
  function MergeStage(odd: Network, even: Network, a: nat): (net: Network)
    requires |odd.outputs| <= |even.outputs| <= |odd.outputs| + 2
    requires |even.outputs| > 0
    requires |even.outputs| == |odd.outputs| + 2 ==> a % 2 == 1 && a < |even.outputs| + |odd.outputs| - 1
    ensures |net.outputs| == |odd.outputs| + |even.outputs|
  {
    var z := Zipper(even.outputs, odd.outputs, a);
    Compared(odd, even, z, (|z| - 1) / 2)
  }

  /** m comparators over the merged outputs z; a last even position is passed on. */
  function Compared(odd: Network, even: Network, z: seq<ID>, m: nat): Network
    requires 2*m < |z|
  {
    Network(
      CompareOutputs(z, even.next, m) + (if |z| % 2 == 0 then [z[|z|-1]] else []),
      odd.gates + even.gates + CompareGates(z, even.next, m),
      even.next + 4*m)
  }

  lemma Halves(n: nat)
    ensures n / 2 + (n + 1) / 2 == n && (n + 1) / 2 == n / 2 + n % 2
  {
  }

  /** Sizes of the odd and even parts of a and b inputs. */
  lemma MergeSizes(a: nat, b: nat)
    requires 0 < a <= b && b > 1
    ensures a / 2 <= b / 2 && (a + 1) / 2 <= (b + 1) / 2
    ensures a / 2 + b / 2 <= (a + 1) / 2 + (b + 1) / 2 <= a / 2 + b / 2 + 2
    ensures (a + 1) / 2 + (b + 1) / 2 < a + b
    ensures (a + 1) / 2 + (b + 1) / 2 + a / 2 + b / 2 == a + b
    ensures (a + 1) / 2 + (b + 1) / 2 == a / 2 + b / 2 + 2 ==> a % 2 == 1 && a < a + b - 1
  {
  }

  lemma SimpMergeSizes(a: nat, b: nat, c: nat)
    requires 0 < a <= b <= c && c > 1 && a + b > c
    ensures a / 2 <= b / 2 <= c / 2 && (a + 1) / 2 <= (b + 1) / 2 <= c / 2 + 1
    ensures a / 2 + b / 2 >= c / 2 && (a + 1) / 2 + (b + 1) / 2 >= c / 2 + 1
    ensures (a + 1) / 2 + (b + 1) / 2 < a + b
  {
  }

  /** Odd-even merge; the first sequence is not the longer one. */
  function MergeOrdered(next: ID, a: seq<ID>, b: seq<ID>): (net: Network)
    requires |a| <= |b|
    ensures |net.outputs| == |a| + |b|
    decreases |a| + |b|, 1
  {
    if |a| == 1 && |b| == 1 then
      Network([next, next + 2], [Comparator(a[0], b[0], next, next + 2)], next + 4)
    else if a == [] then
      Network(b, [], next)
    else
      MergeSplit(next, a, b)
  }

  /** Merges odd and even elements apart and compares the two outputs. */
  function MergeSplit(next: ID, a: seq<ID>, b: seq<ID>): (net: Network)
    requires 0 < |a| <= |b| && |b| > 1
    ensures |net.outputs| == |a| + |b|
    decreases |a| + |b|, 0
  {
    MergeSizes(|a|, |b|);
    var odd := MergeOrdered(next, Odds(a), Odds(b));
    var even := MergeOrdered(odd.next, Evens(a), Evens(b));
    MergeStage(odd, even, |a|)
  }

  function Merge(next: ID, inputsA: seq<ID>, inputsB: seq<ID>): (net: Network)
    ensures |net.outputs| == |inputsA| + |inputsB|
  {
    if |inputsA| <= |inputsB| then MergeOrdered(next, inputsA, inputsB) else MergeOrdered(next, inputsB, inputsA)
  }

  function Sorting(next: ID, inputs: seq<ID>): (net: Network)
    requires |inputs| > 0
    ensures |net.outputs| == |inputs|
    decreases |inputs|
  {
    if |inputs| == 1 then
      Network(inputs, [], next)
    else if |inputs| == 2 then
      Merge(next, [inputs[0]], [inputs[1]])
    else
      var l := |inputs| / 2;
      var left := Sorting(next, inputs[..l]);
      var right := Sorting(left.next, inputs[l..]);
      var merged := Merge(right.next, left.outputs, right.outputs);
      Network(merged.outputs, left.gates + right.gates + merged.gates, merged.next)
  }

  function Min(a: nat, b: nat): nat {
    if a <= b then a else b
  }

  function Truncate(s: seq<ID>, c: nat): seq<ID> {
    if |s| > c then s[..c] else s
  }

  /** Even outputs at position 2i+1 and odd outputs at position 2i+2. */
  function Interleave(even: seq<ID>, odd: seq<ID>, m: nat): (z: seq<ID>)
    requires m < |even| && m <= |odd|
    ensures |z| == 2*m + 1
  {
    seq(2*m + 1, j requires 0 <= j < 2*m + 1 =>
      if j == 0 then even[0] else if j % 2 == 1 then even[j/2 + 1] else odd[j/2 - 1])
  }

  /** Merges truncated odd and even networks into c outputs. */
  function SimpMergeStage(odd: Network, even: Network, c: nat): (net: Network)
    requires c >= 2
    requires |odd.outputs| == c / 2 && |even.outputs| == c / 2 + 1
    ensures |net.outputs| == c
  {
    var m := (c - 1) / 2;
    if c % 2 == 0 then WithOr(odd, even, m) else WithoutOr(odd, even, m)
  }

  /** m comparators over alternating outputs, and a single OR of the next two. */
  function WithOr(odd: Network, even: Network, m: nat): (net: Network)
    requires |odd.outputs| == m + 1 && |even.outputs| == m + 2
    ensures |net.outputs| == 2*m + 2
  {
    var z := Interleave(even.outputs, odd.outputs, m);
    var y := even.next + 4*m;
    Network(
      CompareOutputs(z, even.next, m) + [y],
      odd.gates + even.gates + CompareGates(z, even.next, m) + [Or(even.outputs[m + 1], odd.outputs[m], y)],
      y + 2)
  }

  function WithoutOr(odd: Network, even: Network, m: nat): (net: Network)
    requires |odd.outputs| == m && |even.outputs| == m + 1
    ensures |net.outputs| == 2*m + 1
  {
    var z := Interleave(even.outputs, odd.outputs, m);
    Network(
      CompareOutputs(z, even.next, m),
      odd.gates + even.gates + CompareGates(z, even.next, m),
      even.next + 4*m)
  }

  function SimpMergeOrdered(next: ID, a: seq<ID>, b: seq<ID>, c: nat): (net: Network)
    requires |a| <= |b| <= c
    ensures |net.outputs| == Min(|a| + |b|, c)
    decreases |a| + |b|, 1
  {
    if a == [] then
      Network(b, [], next)
    else if |a| == 1 && |b| == 1 && c == 1 then
      Network([next], [Or(a[0], b[0], next)], next + 2)
    else if |a| + |b| <= c then
      MergeOrdered(next, a, b)
    else
      SimpMergeSplit(next, a, b, c)
  }

  function SimpMergeSplit(next: ID, a: seq<ID>, b: seq<ID>, c: nat): (net: Network)
    requires 0 < |a| <= |b| <= c && c > 1 && |a| + |b| > c
    ensures |net.outputs| == c
    decreases |a| + |b|, 0
  {
    SimpMergeSizes(|a|, |b|, c);
    var odd := SimpMergeOrdered(next, Odds(a), Odds(b), c / 2);
    var even := SimpMergeOrdered(odd.next, Evens(a), Evens(b), c / 2 + 1);
    SimpMergeStage(odd, even, c)
  }

  function SimpMerge(next: ID, inputsA: seq<ID>, inputsB: seq<ID>, c: nat): (net: Network)
    ensures |net.outputs| == Min(|inputsA| + |inputsB|, c)
  {
    if |inputsA| <= |inputsB| then
      SimpMergeOrdered(next, Truncate(inputsA, c), Truncate(inputsB, c), c)
    else
      SimpMergeOrdered(next, Truncate(inputsB, c), Truncate(inputsA, c), c)
  }

  function CardinalityNetwork(next: ID, inputs: seq<ID>, m: nat): (net: Network)
    requires |inputs| > 0 && m > 0
    ensures |net.outputs| == Min(|inputs|, m)
    decreases |inputs|
  {
    if |inputs| <= m then
      Sorting(next, inputs)
    else
      var l := |inputs| / 2;
      var left := CardinalityNetwork(next, inputs[..l], m);
      var right := CardinalityNetwork(left.next, inputs[l..], m);
      var merged := SimpMerge(right.next, left.outputs, right.outputs, m);
      Network(merged.outputs, left.gates + right.gates + merged.gates, merged.next)
  }
}
