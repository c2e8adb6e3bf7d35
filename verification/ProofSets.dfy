/** Inductive subsets of the clauses of a proof. */
module ProofSets {
  import opened Ids
  import opened TransitionRelations

  type ClauseID = nat

  /** The clauses of a proof and the position of the property among them: the
      clause that the bad literal is false. */
  datatype Proof = Proof(tr: TransitionRelation, clauses: seq<Clause>, property: ClauseID)
  {
    function All(): set<ClauseID> {
      IDsBelow(|clauses|)
    }

    predicate Valid() {
      property < |clauses| && clauses[property] == [Negate(tr.bad)]
    }
  }

  function IDsBelow(n: nat): (s: set<ClauseID>)
    ensures forall id: ClauseID :: id in s <==> id < n
  {
    if n == 0 then {} else IDsBelow(n - 1) + {n - 1}
  }

  /** The clauses of the set hold; identifiers past the end stand for nothing. */
  predicate SatSet(p: Proof, v: Valuation, s: set<ClauseID>) {
    forall id | id in s && id < |p.clauses| :: SatClause(v, p.clauses[id])
  }

  /** Consecution: every step from a state of s where c holds keeps c. */
  ghost predicate Supports(p: Proof, s: set<ClauseID>, c: ClauseID)
    requires c < |p.clauses|
  {
    forall v, w | p.tr.Step(v, w) && SatSet(p, v, s) && SatClause(v, p.clauses[c]) :: SatClause(w, p.clauses[c])
  }

  ghost predicate Inductive(p: Proof, s: set<ClauseID>) {
    s <= p.All() && forall c | c in s && c < |p.clauses| :: Supports(p, s, c)
  }

  /** A safe inductive subset: inductive, and with all the necessary clauses. */
  ghost predicate SafeInductive(p: Proof, s: set<ClauseID>, nec: set<ClauseID>) {
    nec <= s && Inductive(p, s)
  }

  ghost predicate HasSafe(p: Proof, s: set<ClauseID>, nec: set<ClauseID>) {
    exists t :: t <= s && SafeInductive(p, t, nec)
  }

  lemma SupportsMore(p: Proof, s: set<ClauseID>, t: set<ClauseID>, c: ClauseID)
    requires c < |p.clauses| && s <= t && Supports(p, s, c)
    ensures Supports(p, t, c)
  {
    forall v, w | p.tr.Step(v, w) && SatSet(p, v, t) && SatClause(v, p.clauses[c])
      ensures SatClause(w, p.clauses[c])
    {
      assert SatSet(p, v, s);
    }
  }

  lemma HasSafeMore(p: Proof, s: set<ClauseID>, t: set<ClauseID>, nec: set<ClauseID>)
    requires HasSafe(p, s, nec) && s <= t
    ensures HasSafe(p, t, nec)
  {
  }

  /** s is inductive and contains every inductive subset of vec. */
  ghost predicate GreatestInductive(p: Proof, s: set<ClauseID>, vec: set<ClauseID>) {
    s <= vec && Inductive(p, s) && forall t | t <= vec && Inductive(p, t) :: t <= s
  }

  lemma GreatestUnique(p: Proof, s: set<ClauseID>, t: set<ClauseID>, vec: set<ClauseID>)
    requires GreatestInductive(p, s, vec) && GreatestInductive(p, t, vec)
    ensures s == t
  {
  }

  /** Every set of clauses has a greatest inductive subset. */
  lemma {:induction false} GreatestExists(p: Proof, vec: set<ClauseID>)
    requires vec <= p.All()
    ensures exists s :: GreatestInductive(p, s, vec)
    decreases vec
  {
    if Inductive(p, vec) {
      assert GreatestInductive(p, vec, vec);
    } else {
      var c :| c in vec && c < |p.clauses| && !Supports(p, vec, c);
      GreatestExists(p, vec - {c});
      var s :| GreatestInductive(p, s, vec - {c});
      forall t | t <= vec && Inductive(p, t)
        ensures t <= s
      {
        NotInInductive(p, vec, t, c);
      }
      assert GreatestInductive(p, s, vec);
    }
  }

  /** A clause that a set does not support is in no inductive subset of it. */
  lemma NotInInductive(p: Proof, vec: set<ClauseID>, t: set<ClauseID>, c: ClauseID)
    requires c < |p.clauses| && !Supports(p, vec, c) && t <= vec && Inductive(p, t)
    ensures c !in t
  {
    if c in t {
      SupportsMore(p, t, vec, c);
    }
  }

  /** Nor is any other clause that the same counterexample falsifies. */
  lemma WitnessExcludes(p: Proof, vec: set<ClauseID>, t: set<ClauseID>, v: Valuation, w: Valuation, c: ClauseID)
    requires p.tr.Step(v, w) && SatSet(p, v, vec) && t <= vec && Inductive(p, t)
    requires c < |p.clauses| && !SatClause(w, p.clauses[c])
    ensures c !in t
  {
    if c in t {
      InductiveStep(p, t, v, w, c);
    }
  }

  lemma InductiveStep(p: Proof, t: set<ClauseID>, v: Valuation, w: Valuation, c: ClauseID)
    requires p.tr.Step(v, w) && SatSet(p, v, t) && Inductive(p, t) && c in t && c < |p.clauses|
    ensures SatClause(w, p.clauses[c])
  {
    assert SatClause(v, p.clauses[c]) && Supports(p, t, c);
  }

  /** With a greatest inductive subset known, safety is membership. */
  lemma GreatestDecides(p: Proof, s: set<ClauseID>, vec: set<ClauseID>, nec: set<ClauseID>)
    requires GreatestInductive(p, s, vec)
    ensures HasSafe(p, vec, nec) <==> nec <= s
  {
    if nec <= s {
      assert SafeInductive(p, s, nec);
    }
  }

  // ----- minimal safe inductive subsets -----

  ghost predicate MinimalSafe(p: Proof, s: set<ClauseID>, nec: set<ClauseID>) {
    SafeInductive(p, s, nec) && forall t | t < s :: !SafeInductive(p, t, nec)
  }

  /** Every safe inductive set contains a minimal one. */
  lemma {:induction false} MinimalInside(p: Proof, s: set<ClauseID>, nec: set<ClauseID>)
    requires SafeInductive(p, s, nec)
    ensures exists t :: t <= s && MinimalSafe(p, t, nec)
    decreases s
  {
    if t :| t < s && SafeInductive(p, t, nec) {
      MinimalInside(p, t, nec);
      var u :| u <= t && MinimalSafe(p, u, nec);
      assert u <= s;
    } else {
      assert MinimalSafe(p, s, nec);
    }
  }

  /** No minimal safe set contains another. */
  lemma MinimalApart(p: Proof, x: set<ClauseID>, y: set<ClauseID>, nec: set<ClauseID>)
    requires MinimalSafe(p, x, nec) && MinimalSafe(p, y, nec) && x <= y
    ensures x == y
  {
    assert !(x < y);
  }

  /** A safe set is minimal when no clause outside nec can be spared. */
  lemma MinimalByDeletion(p: Proof, s: set<ClauseID>, nec: set<ClauseID>)
    requires SafeInductive(p, s, nec)
    requires forall c | c in s && c !in nec :: !HasSafe(p, s - {c}, nec)
    ensures MinimalSafe(p, s, nec)
  {
    forall t | t < s
      ensures !SafeInductive(p, t, nec)
    {
      if SafeInductive(p, t, nec) {
        SmallerSpares(p, s, t, nec);
      }
    }
  }

  lemma SmallerSpares(p: Proof, s: set<ClauseID>, t: set<ClauseID>, nec: set<ClauseID>)
    requires t < s && SafeInductive(p, t, nec)
    ensures exists c :: c in s && c !in nec && HasSafe(p, s - {c}, nec)
  {
    var c :| c in s && c !in t;
    assert t <= s - {c};
    assert HasSafe(p, s - {c}, nec);
  }

  // ----- shrinking -----

  /** findSIS: the greatest inductive subset. */
  ghost function Greatest(p: Proof, s: set<ClauseID>): (g: set<ClauseID>)
    requires s <= p.All()
    ensures GreatestInductive(p, g, s)
  {
    GreatestExists(p, s);
    var g :| GreatestInductive(p, g, s);
    g
  }

  lemma GreatestIs(p: Proof, s: set<ClauseID>, g: set<ClauseID>)
    requires s <= p.All() && GreatestInductive(p, g, s)
    ensures g == Greatest(p, s)
  {
    GreatestUnique(p, g, Greatest(p, s), s);
  }

  /** What is left of s when clauses are dropped in order, from clause id on, as long as
      something safe remains. */
  ghost function Shrunk(p: Proof, s: set<ClauseID>, id: ClauseID): set<ClauseID>
    requires s <= p.All()
    decreases |p.clauses| - id
  {
    if id >= |p.clauses| then s
    else if id in s && id != p.property && HasSafe(p, s - {id}, {p.property}) then Shrunk(p, Greatest(p, s - {id}), id + 1)
    else Shrunk(p, s, id + 1)
  }

  lemma {:induction false} ShrunkSkips(p: Proof, s: set<ClauseID>, id: ClauseID, next: ClauseID)
    requires s <= p.All() && id <= next && forall c: ClauseID | id <= c < next && c < |p.clauses| :: c !in s
    ensures Shrunk(p, s, id) == Shrunk(p, s, next)
    decreases next - id
  {
    if id < next && id < |p.clauses| {
      ShrunkSkips(p, s, id + 1, next);
    }
  }

  /** A clause that cannot be dropped is passed over. */
  lemma {:induction false} ShrunkKeeps(p: Proof, s: set<ClauseID>, id: ClauseID, next: ClauseID)
    requires s <= p.All() && id <= next
    requires forall c: ClauseID | id <= c < next && c in s :: c == p.property || !HasSafe(p, s - {c}, {p.property})
    ensures Shrunk(p, s, id) == Shrunk(p, s, next)
    decreases next - id
  {
    if id < next && id < |p.clauses| {
      ShrunkKeeps(p, s, id + 1, next);
    }
  }
}
