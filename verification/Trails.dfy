/** The assignment of the CDCL core: literals in the order they were assigned,
    with their levels and reasons (src/sat/solvers/glucose/src/core/Solver.cc,
    src/sat/solvers/glucose/src/core/SolverTypes.h). */
module Trails {
  /** A variable with a sign. */
  datatype Lit = Lit(x: nat, sign: bool)
  {
    function Not(): Lit {
      Lit(x, !sign)
    }
  }

  type Clause = seq<Lit>
  type Valuation = iset<nat>

  /** Lits are the assigned literals, level and reason belong to variables (a
      variable without a reason was decided or is a fact), and lims says where
      each level starts. */
  datatype Trail = Trail(lits: seq<Lit>, level: map<nat, nat>, reason: map<nat, nat>, lims: seq<nat>)
  {
    predicate IsTrue(q: Lit) {
      q in lits
    }

    predicate IsFalse(q: Lit) {
      q.Not() in lits
    }

    predicate IsFree(q: Lit) {
      !IsTrue(q) && !IsFalse(q)
    }
  }

  /** A clause in a watch list, with another of its literals. */
  datatype Watcher = Watcher(cref: nat, blocker: Lit)

  // ----- entailment -----

  predicate Holds(v: Valuation, q: Lit) {
    (q.x in v) != q.sign
  }

  predicate Satisfies(v: Valuation, lits: set<Lit>) {
    exists q | q in lits :: Holds(v, q)
  }

  function LitSet(cls: Clause): set<Lit> {
    set q | q in cls
  }

  ghost predicate Models(v: Valuation, formula: seq<Clause>) {
    forall cls | cls in formula :: Satisfies(v, LitSet(cls))
  }

  ghost predicate Entails(formula: seq<Clause>, lits: set<Lit>) {
    forall v | Models(v, formula) :: Satisfies(v, lits)
  }

  /** Resolution on one literal. */
  lemma Resolve(formula: seq<Clause>, a: set<Lit>, b: set<Lit>, p: Lit)
    requires Entails(formula, a) && Entails(formula, b)
    ensures Entails(formula, (a - {p.Not()}) + (b - {p}))
  {
    var c := (a - {p.Not()}) + (b - {p});
    forall v | Models(v, formula)
      ensures Satisfies(v, c)
    {
      assert Satisfies(v, a) && Satisfies(v, b);
      var x :| x in a && Holds(v, x);
      var y :| y in b && Holds(v, y);
      assert x != p.Not() || y != p;
      if x != p.Not() {
        assert x in c;
      } else {
        assert y in c;
      }
    }
  }

  /** A literal whose negation is entailed may be dropped. */
  lemma DropFalse(formula: seq<Clause>, a: set<Lit>, q: Lit)
    requires Entails(formula, a) && Entails(formula, {q.Not()})
    ensures Entails(formula, a - {q})
  {
    Resolve(formula, {q.Not()}, a, q);
    assert ({q.Not()} - {q.Not()}) + (a - {q}) == a - {q};
  }

  /** When all other literals of an entailed clause are refuted, the last one is
      entailed. */
  lemma OnlyOneLeft(formula: seq<Clause>, lits: set<Lit>, p: Lit)
    requires Entails(formula, lits)
    requires forall q | q in lits && q != p :: Entails(formula, {q.Not()})
    ensures Entails(formula, {p})
  {
    forall v | Models(v, formula)
      ensures Satisfies(v, {p})
    {
      assert Satisfies(v, lits);
      var x :| x in lits && Holds(v, x);
      if x != p {
        assert Satisfies(v, {x.Not()});
      }
      assert p in {p};
    }
  }

  lemma EntailedHolds(formula: seq<Clause>, v: Valuation, q: Lit)
    requires Entails(formula, {q}) && Models(v, formula)
    ensures Holds(v, q)
  {
    assert Satisfies(v, {q});
  }

  // ----- what the trail means -----

  /** The literal is false, by an assignment before the bound. */
  ghost predicate FalseBy(lits: seq<Lit>, q: Lit, bound: nat) {
    exists k :: 0 <= k < bound && k < |lits| && lits[k] == q.Not()
  }

  ghost predicate AllFalse(lits: seq<Lit>, qs: set<Lit>, bound: nat) {
    forall q | q in qs :: FalseBy(lits, q, bound)
  }

  predicate NoRepeats(cls: Clause) {
    forall i, j | 0 <= i < j < |cls| :: cls[i] != cls[j]
  }

  /** The clause forces the literal at position i: its other literals are false
      by earlier assignments. A longer clause has the forced literal first. */
  ghost predicate Explains(lits: seq<Lit>, i: nat, cls: Clause)
    requires i < |lits|
  {
    && lits[i] in cls && |cls| > 1 && (|cls| > 2 ==> cls[0] == lits[i])
    && AllFalse(lits, LitSet(cls) - {lits[i]}, i)
  }

  /** No variable is assigned twice. */
  predicate DistinctVars(lits: seq<Lit>) {
    forall i, j | 0 <= i < j < |lits| :: lits[i].x != lits[j].x
  }

  /** The levels are those that the limits say. */
  ghost predicate Leveled(s: Trail) {
    && (forall k | 0 <= k < |s.lims| :: s.lims[k] <= |s.lits|)
    && (forall i | 0 <= i < |s.lits| :: s.lits[i].x in s.level && s.level[s.lits[i].x] <= |s.lims|)
    && (forall i, k | 0 <= i < |s.lits| && 0 <= k < |s.lims| :: s.lims[k] <= i <==> k < s.level[s.lits[i].x])
  }

  /** The assignment at position i follows from a clause, is the decision of its
      level, or is a fact. */
  ghost predicate Justified(formula: seq<Clause>, clauses: seq<Clause>, s: Trail, i: nat)
    requires Leveled(s) && i < |s.lits|
  {
    var x := s.lits[i].x;
    if x in s.reason then s.reason[x] < |clauses| && Explains(s.lits, i, clauses[s.reason[x]])
    else if s.level[x] == 0 then Entails(formula, {s.lits[i]})
    else i == s.lims[s.level[x] - 1]
  }

  ghost predicate AllJustified(formula: seq<Clause>, clauses: seq<Clause>, s: Trail)
    requires Leveled(s)
  {
    forall i | 0 <= i < |s.lits| :: Justified(formula, clauses, s, i)
  }

  /** Every clause follows from the formula and repeats no literal. */
  ghost predicate Sound(formula: seq<Clause>, clauses: seq<Clause>) {
    forall c | 0 <= c < |clauses| :: Entails(formula, LitSet(clauses[c])) && NoRepeats(clauses[c])
  }

  ghost predicate Consistent(formula: seq<Clause>, clauses: seq<Clause>, s: Trail) {
    Sound(formula, clauses) && DistinctVars(s.lits) && Leveled(s) && AllJustified(formula, clauses, s)
  }

  lemma LevelsOrdered(s: Trail, i: nat, j: nat)
    requires Leveled(s) && i <= j < |s.lits|
    ensures s.level[s.lits[i].x] <= s.level[s.lits[j].x]
  {
    var k := s.level[s.lits[j].x];
    if k < |s.lims| {
      assert j < s.lims[k];
    }
  }

  lemma FalseAssigned(s: Trail, q: Lit, bound: nat)
    requires Leveled(s) && FalseBy(s.lits, q, bound)
    ensures q.x in s.level && s.level[q.x] <= |s.lims| && s.IsFalse(q)
  {
    var k :| 0 <= k < bound && k < |s.lits| && s.lits[k] == q.Not();
    assert s.lits[k].x in s.level;
  }

  /** Two false literals of one variable are the same literal. */
  lemma FalseUnique(lits: seq<Lit>, q: Lit, r: Lit, bound: nat)
    requires DistinctVars(lits) && FalseBy(lits, q, bound) && FalseBy(lits, r, bound) && q.x == r.x
    ensures q == r
  {
    var i :| 0 <= i < bound && i < |lits| && lits[i] == q.Not();
    var j :| 0 <= j < bound && j < |lits| && lits[j] == r.Not();
    assert lits[i].x == lits[j].x;
    assert i == j;
  }

  // ----- exchanging two literals -----

  function Swapped(cls: Clause, i: nat, j: nat): (r: Clause)
    requires i < |cls| && j < |cls|
    ensures |r| == |cls|
  {
    cls[i := cls[j]][j := cls[i]]
  }

  lemma SwapWithin(cls: Clause, i: nat, j: nat)
    requires i < |cls| && j < |cls|
    ensures LitSet(cls) <= LitSet(Swapped(cls, i, j))
  {
    var r := Swapped(cls, i, j);
    forall k | 0 <= k < |cls|
      ensures cls[k] in r
    {
      assert r[if k == i then j else if k == j then i else k] == cls[k];
    }
  }

  lemma SwapSet(cls: Clause, i: nat, j: nat)
    requires i < |cls| && j < |cls|
    ensures LitSet(Swapped(cls, i, j)) == LitSet(cls)
  {
    var r := Swapped(cls, i, j);
    SwapWithin(cls, i, j);
    SwapWithin(r, i, j);
    assert Swapped(r, i, j) == cls;
  }

  lemma SwapNoRepeats(cls: Clause, i: nat, j: nat)
    requires i < |cls| && j < |cls| && NoRepeats(cls)
    ensures NoRepeats(Swapped(cls, i, j))
  {
    var r := Swapped(cls, i, j);
    forall a, b | 0 <= a < b < |r|
      ensures r[a] != r[b]
    {
      var m := if a == i then j else if a == j then i else a;
      var n := if b == i then j else if b == j then i else b;
      assert r[a] == cls[m] && r[b] == cls[n] && m != n;
    }
  }

  lemma NotBoth(lits: seq<Lit>, q: Lit)
    requires DistinctVars(lits) && q in lits
    ensures q.Not() !in lits
  {
    var i :| 0 <= i < |lits| && lits[i] == q;
    forall j | 0 <= j < |lits|
      ensures lits[j] != q.Not()
    {
      assert i == j || lits[i].x != lits[j].x;
    }
  }

  /** Everything at level 0 follows from the formula. */
  lemma {:induction false} LevelZeroEntailed(formula: seq<Clause>, clauses: seq<Clause>, s: Trail, i: nat)
    requires Consistent(formula, clauses, s) && i < |s.lits| && s.level[s.lits[i].x] == 0
    ensures Entails(formula, {s.lits[i]})
    decreases i
  {
    assert Justified(formula, clauses, s, i);
    var x := s.lits[i].x;
    if x in s.reason {
      var cls := LitSet(clauses[s.reason[x]]);
      forall q | q in cls && q != s.lits[i]
        ensures Entails(formula, {q.Not()})
      {
        assert q in cls - {s.lits[i]};
        var j :| 0 <= j < i && j < |s.lits| && s.lits[j] == q.Not();
        LevelsOrdered(s, j, i);
        LevelZeroEntailed(formula, clauses, s, j);
      }
      OnlyOneLeft(formula, cls, s.lits[i]);
    }
  }

  lemma ZeroRefuted(formula: seq<Clause>, clauses: seq<Clause>, s: Trail, q: Lit, bound: nat)
    requires Consistent(formula, clauses, s) && FalseBy(s.lits, q, bound)
    requires q.x in s.level && s.level[q.x] == 0
    ensures Entails(formula, {q.Not()})
  {
    var k :| 0 <= k < bound && k < |s.lits| && s.lits[k] == q.Not();
    LevelZeroEntailed(formula, clauses, s, k);
  }

  // ----- the order of a binary clause -----

  function Flipped(cls: Clause): (r: Clause)
    requires |cls| == 2
    ensures LitSet(r) == LitSet(cls) && |r| == 2
  {
    [cls[1], cls[0]]
  }

  /** Exchanging the literals of a binary clause changes nothing. */
  lemma FlipKeeps(formula: seq<Clause>, clauses: seq<Clause>, s: Trail, c: nat)
    requires Consistent(formula, clauses, s) && c < |clauses| && |clauses[c]| == 2
    ensures Consistent(formula, clauses[c := Flipped(clauses[c])], s)
  {
    var flipped := clauses[c := Flipped(clauses[c])];
    assert Sound(formula, flipped) by {
      forall d | 0 <= d < |flipped|
        ensures Entails(formula, LitSet(flipped[d])) && NoRepeats(flipped[d])
      {
        assert Entails(formula, LitSet(clauses[d])) && NoRepeats(clauses[d]);
      }
    }
    forall i | 0 <= i < |s.lits|
      ensures Justified(formula, flipped, s, i)
    {
      assert Justified(formula, clauses, s, i);
      FlipExplains(clauses, s, c, i);
    }
  }

  lemma FlipExplains(clauses: seq<Clause>, s: Trail, c: nat, i: nat)
    requires c < |clauses| && |clauses[c]| == 2 && i < |s.lits|
    ensures Explains(s.lits, i, clauses[c]) ==> Explains(s.lits, i, Flipped(clauses[c]))
  {
    if Explains(s.lits, i, clauses[c]) {
      assert s.lits[i] in LitSet(clauses[c]);
      assert s.lits[i] in LitSet(Flipped(clauses[c]));
    }
  }

  /** A binary reason has its forced literal first once a false first literal has
      been exchanged. */
  lemma ForcedFirst(lits: seq<Lit>, i: nat, cls: Clause)
    requires DistinctVars(lits) && i < |lits| && Explains(lits, i, cls)
    ensures |cls| == 2 && cls[0].Not() in lits ==> cls[1] == lits[i]
    ensures !(|cls| == 2 && cls[0].Not() in lits) ==> cls[0] == lits[i]
  {
    NotBoth(lits, lits[i]);
    if |cls| == 2 && cls[0] != lits[i] {
      assert cls[0] in LitSet(cls) - {lits[i]};
      assert FalseBy(lits, cls[0], i);
    }
  }

  lemma WithoutFirst(formula: seq<Clause>, clauses: seq<Clause>, s: Trail, c: nat)
    requires ConsistentOk(formula, clauses, s) && c < |clauses| && |clauses[c]| > 0
    ensures LitSet(clauses[c][1..]) == LitSet(clauses[c]) - {clauses[c][0]}
  {
    ConsistentIs(formula, clauses, s);
    var cls := clauses[c];
    assert NoRepeats(cls);
    assert cls == [cls[0]] + cls[1..];
    assert cls[0] !in cls[1..];
  }

  /** Literals that were false before a position are of other variables. */
  lemma OtherVariables(lits: seq<Lit>, qs: set<Lit>, k: nat)
    requires DistinctVars(lits) && k < |lits| && AllFalse(lits, qs, k)
    ensures forall q | q in qs :: q.x != lits[k].x && FalseBy(lits, q, |lits|)
  {
    forall q | q in qs
      ensures q.x != lits[k].x && FalseBy(lits, q, |lits|)
    {
      var m :| 0 <= m < k && m < |lits| && lits[m] == q.Not();
    }
  }

  // ----- the folded form of consistency: the argument z does not matter -----

  ghost predicate ConsistentF(formula: seq<Clause>, clauses: seq<Clause>, s: Trail, z: nat)
    decreases z
  {
    if z == 0 then Consistent(formula, clauses, s) else ConsistentF(formula, clauses, s, z - 1)
  }

  ghost predicate ConsistentOk(formula: seq<Clause>, clauses: seq<Clause>, s: Trail) {
    ConsistentF(formula, clauses, s, |s.lits|)
  }

  lemma {:induction false} ConsistentFIs(formula: seq<Clause>, clauses: seq<Clause>, s: Trail, z: nat)
    ensures ConsistentF(formula, clauses, s, z) <==> Consistent(formula, clauses, s)
    decreases z
  {
    if z > 0 {
      ConsistentFIs(formula, clauses, s, z - 1);
    }
  }

  lemma ConsistentIs(formula: seq<Clause>, clauses: seq<Clause>, s: Trail)
    ensures ConsistentOk(formula, clauses, s) <==> Consistent(formula, clauses, s)
  {
    ConsistentFIs(formula, clauses, s, |s.lits|);
  }
}
