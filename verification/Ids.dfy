/** Variable identifiers, literals, clauses and their meaning (src/pme/id.cpp).

    An ID is an even number for a variable and the next odd number for its
    negation.  ID_FALSE is the variable that is false in every valuation a
    solver considers. */
module Ids {
  type ID = nat
  type Clause = seq<ID>
  type Cube = seq<ID>

  const ID_NULL: ID := 0
  const ID_FALSE: ID := 2
  const ID_TRUE: ID := 3
  const ID_INCR: nat := 2
  const MIN_ID: ID := 4

  predicate IsNegated(id: ID) {
    id % 2 == 1
  }

  function Negate(id: ID): ID {
    if IsNegated(id) then id - 1 else id + 1
  }

  function Strip(id: ID): ID {
    if IsNegated(id) then id - 1 else id
  }

  function NegateVec(vec: seq<ID>): (r: seq<ID>)
    ensures |r| == |vec|
    ensures forall i :: 0 <= i < |vec| ==> r[i] == Negate(vec[i])
  {
    if vec == [] then [] else [Negate(vec[0])] + NegateVec(vec[1..])
  }

  /** A valuation is the finite set of variables that are true. */
  type Valuation = set<ID>

  predicate Holds(v: Valuation, lit: ID) {
    (Strip(lit) in v) != IsNegated(lit)
  }

  predicate SatClause(v: Valuation, cls: Clause) {
    exists lit | lit in cls :: Holds(v, lit)
  }

  predicate Models(v: Valuation, cnf: seq<Clause>) {
    forall cls | cls in cnf :: SatClause(v, cls)
  }

  predicate SatCube(v: Valuation, cube: Cube) {
    forall lit | lit in cube :: Holds(v, lit)
  }

  predicate SatAll(v: Valuation, lits: set<ID>) {
    forall lit | lit in lits :: Holds(v, lit)
  }

  /** The negation of a cube is the clause of its negated literals. */
  lemma {:induction false} NegatedCube(v: Valuation, cube: Cube)
    ensures SatClause(v, NegateVec(cube)) <==> !SatCube(v, cube)
  {
    if cube != [] {
      var rest := cube[1..];
      NegatedCube(v, rest);
      ClauseConcat(v, [Negate(cube[0])], NegateVec(rest));
      OneLiteral(v, Negate(cube[0]));
      NegateFlips(v, cube[0]);
      assert forall lit :: lit in cube <==> lit == cube[0] || lit in rest by {
        assert cube == [cube[0]] + rest;
      }
    }
  }

  lemma NegateFlips(v: Valuation, lit: ID)
    ensures Holds(v, Negate(lit)) == !Holds(v, lit)
  {
  }

  lemma OneLiteral(v: Valuation, lit: ID)
    ensures SatClause(v, [lit]) <==> Holds(v, lit)
  {
    assert lit in [lit];
  }

  lemma TwoLiterals(v: Valuation, a: ID, b: ID)
    ensures SatClause(v, [a, b]) <==> Holds(v, a) || Holds(v, b)
  {
    assert a in [a, b] && b in [a, b];
  }

  lemma ThreeLiterals(v: Valuation, a: ID, b: ID, c: ID)
    ensures SatClause(v, [a, b, c]) <==> Holds(v, a) || Holds(v, b) || Holds(v, c)
  {
    assert a in [a, b, c] && b in [a, b, c] && c in [a, b, c];
  }

  lemma ClauseConcat(v: Valuation, a: Clause, b: Clause)
    ensures SatClause(v, a + b) <==> SatClause(v, a) || SatClause(v, b)
  {
    assert forall lit :: lit in a + b <==> lit in a || lit in b;
  }

  /** How many positions of lits hold a true literal. */
  function Count(v: Valuation, lits: seq<ID>): nat {
    if lits == [] then 0 else (if Holds(v, lits[0]) then 1 else 0) + Count(v, lits[1..])
  }

  lemma {:induction false} CountBound(v: Valuation, lits: seq<ID>)
    ensures Count(v, lits) <= |lits|
  {
    if lits != [] {
      CountBound(v, lits[1..]);
    }
  }

  lemma {:induction false} CountConcat(v: Valuation, a: seq<ID>, b: seq<ID>)
    ensures Count(v, a + b) == Count(v, a) + Count(v, b)
  {
    if a == [] {
      assert a + b == b;
    } else {
      assert (a + b)[1..] == a[1..] + b;
      CountConcat(v, a[1..], b);
    }
  }

  /** The negated literals are counted exactly where the literals are not. */
  lemma {:induction false} CountNegated(v: Valuation, lits: seq<ID>)
    ensures Count(v, NegateVec(lits)) + Count(v, lits) == |lits|
  {
    if lits != [] {
      CountNegated(v, lits[1..]);
    }
  }

  /** Every variable of the literals lies below the bound. */
  predicate Below(lits: seq<ID>, bound: ID) {
    forall lit | lit in lits :: Strip(lit) < bound
  }

  predicate CnfBelow(cnf: seq<Clause>, bound: ID) {
    forall cls | cls in cnf :: Below(cls, bound)
  }

  /** The valuations differ at most on variables in [lo, hi). */
  ghost predicate AgreeOutside(v: Valuation, w: Valuation, lo: ID, hi: ID) {
    forall x: ID :: !(lo <= x < hi) ==> (x in v <==> x in w)
  }

  lemma AgreeHolds(v: Valuation, w: Valuation, lo: ID, hi: ID, lit: ID)
    requires AgreeOutside(v, w, lo, hi) && Strip(lit) < lo
    ensures Holds(v, lit) == Holds(w, lit)
  {
  }

  lemma {:induction false} AgreeCount(v: Valuation, w: Valuation, lo: ID, hi: ID, lits: seq<ID>)
    requires AgreeOutside(v, w, lo, hi) && Below(lits, lo)
    ensures Count(v, lits) == Count(w, lits)
  {
    if lits != [] {
      AgreeHolds(v, w, lo, hi, lits[0]);
      AgreeCount(v, w, lo, hi, lits[1..]);
    }
  }

  lemma AgreeModels(v: Valuation, w: Valuation, lo: ID, hi: ID, cnf: seq<Clause>)
    requires AgreeOutside(v, w, lo, hi) && CnfBelow(cnf, lo)
    ensures Models(v, cnf) == Models(w, cnf)
  {
    forall cls | cls in cnf
      ensures SatClause(v, cls) == SatClause(w, cls)
    {
      forall lit | lit in cls
        ensures Holds(v, lit) == Holds(w, lit)
      {
        AgreeHolds(v, w, lo, hi, lit);
      }
    }
  }
}
