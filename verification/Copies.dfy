/** A proof may contain its property more than once
    (src/pme/minimization/minimization.cpp:73-98 looks for the first copy only):
    what the further copies change about inductive subsets. */
module PropertyCopies {
  import opened Ids
  import opened ProofSets

  /** The positions of the property. */
  function Copies(p: Proof): set<ClauseID> {
    set id | id in p.All() && id < |p.clauses| && p.clauses[id] == [Negate(p.tr.bad)]
  }

  predicate OccursOnce(p: Proof) {
    Copies(p) == {p.property}
  }

  lemma PropertyIsCopy(p: Proof)
    requires p.Valid()
    ensures p.property in Copies(p) && {p.property} <= Copies(p) <= p.All()
  {
  }

  /** The set with the first copy only. */
  function Core(p: Proof, s: set<ClauseID>): set<ClauseID> {
    (s - Copies(p)) + {p.property}
  }

  /** Both sets have the property, and they differ in copies of it at most. */
  predicate SameButCopies(p: Proof, s: set<ClauseID>, t: set<ClauseID>) {
    p.property in s && p.property in t && s - Copies(p) == t - Copies(p)
  }

  lemma SameSatisfied(p: Proof, s: set<ClauseID>, t: set<ClauseID>, v: Valuation)
    requires p.Valid() && SameButCopies(p, s, t) && SatSet(p, v, s)
    ensures SatSet(p, v, t)
  {
    forall id | id in t && id < |p.clauses|
      ensures SatClause(v, p.clauses[id])
    {
      if id in Copies(p) {
        assert SatClause(v, p.clauses[p.property]);
      } else {
        assert id in t - Copies(p);
      }
    }
  }

  lemma SameSupports(p: Proof, s: set<ClauseID>, t: set<ClauseID>, c: ClauseID)
    requires p.Valid() && SameButCopies(p, s, t) && c < |p.clauses| && Supports(p, s, c)
    ensures Supports(p, t, c)
  {
    forall v, w | p.tr.Step(v, w) && SatSet(p, v, t) && SatClause(v, p.clauses[c])
      ensures SatClause(w, p.clauses[c])
    {
      SameSatisfied(p, t, s, v);
    }
  }

  /** Copies make no difference to consecution. */
  lemma SameInductive(p: Proof, s: set<ClauseID>, t: set<ClauseID>)
    requires p.Valid() && SameButCopies(p, s, t) && t <= p.All() && Inductive(p, s)
    ensures Inductive(p, t)
  {
    forall c | c in t && c < |p.clauses|
      ensures Supports(p, t, c)
    {
      if c in Copies(p) {
        assert Supports(p, s, p.property) && p.clauses[c] == p.clauses[p.property];
        SameSupports(p, s, t, p.property);
      } else {
        assert c in t - Copies(p);
        SameSupports(p, s, t, c);
      }
    }
  }

  /** A minimal safe set has only the first copy. */
  lemma MinimalHasOne(p: Proof, x: set<ClauseID>)
    requires p.Valid() && MinimalSafe(p, x, {p.property})
    ensures x * Copies(p) == {p.property} && Core(p, x) == x
  {
    PropertyIsCopy(p);
    var y := Core(p, x);
    SameInductive(p, x, y);
    assert y <= x && SafeInductive(p, y, {p.property});
    assert !(y < x);
  }

  lemma CoreSafe(p: Proof, s: set<ClauseID>)
    requires p.Valid() && SafeInductive(p, s, {p.property})
    ensures SafeInductive(p, Core(p, s), {p.property}) && Core(p, s) <= s
    ensures SafeInductive(p, s + Copies(p), Copies(p))
  {
    PropertyIsCopy(p);
    SameInductive(p, s, Core(p, s));
    SameInductive(p, s, s + Copies(p));
  }

  /** With all copies necessary, the minimal sets are the same ones with the
      copies added. */
  lemma MinimalWithCopies(p: Proof, x: set<ClauseID>)
    requires p.Valid() && MinimalSafe(p, x, {p.property})
    ensures MinimalSafe(p, x + Copies(p), Copies(p))
  {
    var all := Copies(p);
    PropertyIsCopy(p);
    MinimalHasOne(p, x);
    CoreSafe(p, x);
    forall t | t < x + all
      ensures !SafeInductive(p, t, all)
    {
      if SafeInductive(p, t, all) {
        CoreSafe(p, t);
      }
    }
  }

  lemma MinimalCore(p: Proof, z: set<ClauseID>)
    requires p.Valid() && MinimalSafe(p, z, Copies(p))
    ensures MinimalSafe(p, Core(p, z), {p.property}) && Core(p, z) + Copies(p) == z
  {
    PropertyIsCopy(p);
    CoreSafe(p, z);
    forall t | t < Core(p, z)
      ensures !SafeInductive(p, t, {p.property})
    {
      if SafeInductive(p, t, {p.property}) {
        CoreSafe(p, t);
      }
    }
  }

  /** A set with all copies has a safe subset with all of them, if any. */
  lemma SafeWithCopies(p: Proof, s: set<ClauseID>)
    requires p.Valid() && Copies(p) <= s
    ensures HasSafe(p, s, Copies(p)) <==> HasSafe(p, s, {p.property})
  {
    PropertyIsCopy(p);
    if t :| t <= s && SafeInductive(p, t, {p.property}) {
      CoreSafe(p, t);
      assert t + Copies(p) <= s;
    }
    if t :| t <= s && SafeInductive(p, t, Copies(p)) {
      assert SafeInductive(p, t, {p.property});
    }
  }

  lemma NoSafeWithCopies(p: Proof, s: set<ClauseID>)
    requires p.Valid() && !HasSafe(p, s, {p.property})
    ensures !HasSafe(p, s, Copies(p))
  {
    PropertyIsCopy(p);
    forall t | t <= s
      ensures !SafeInductive(p, t, Copies(p))
    {
      assert !SafeInductive(p, t, {p.property});
    }
  }

  /** With the property in it once, adding the copies adds nothing. */
  lemma OnceAddsNothing(p: Proof, x: set<ClauseID>)
    requires p.Valid() && OccursOnce(p) && MinimalSafe(p, x, {p.property})
    ensures x + Copies(p) == x
  {
  }

  /** With further copies, no set that has them all is minimal. */
  lemma CopiesNotMinimal(p: Proof, z: set<ClauseID>)
    requires p.Valid() && Copies(p) <= z
    ensures MinimalSafe(p, z, {p.property}) ==> OccursOnce(p)
  {
    PropertyIsCopy(p);
    if MinimalSafe(p, z, {p.property}) {
      MinimalHasOne(p, z);
    }
  }
}
