/** From the proof that IC3 records to a smaller one
    (src/pme/minimization/minimization.cpp). */
module Minimizations {
  import opened Ids
  import opened TransitionRelations
  import opened TraceInvariants
  import opened ProofSets

  /** getProof: the clauses with the given positions. */
  function Selected(clauses: seq<Clause>, s: set<ClauseID>): (r: seq<Clause>)
    ensures forall cls :: cls in r <==> exists id | id in s && id < |clauses| :: clauses[id] == cls
  {
    if clauses == [] then []
    else
      var n := |clauses| - 1;
      assert forall id | id in s && id < n :: clauses[..n][id] == clauses[id];
      Selected(clauses[..n], s) + (if n in s then [clauses[n]] else [])
  }

  lemma SelectedMeans(p: Proof, v: Valuation, s: set<ClauseID>)
    ensures Models(v, Selected(p.clauses, s)) <==> SatSet(p, v, s)
  {
    forall id | id in s && id < |p.clauses|
      ensures p.clauses[id] in Selected(p.clauses, s)
    {
    }
  }

  /** addPropertyIfMissing: the property joins the proof unless it is there. */
  method AddPropertyIfMissing(tr: TransitionRelation, clauses: seq<Clause>) returns (p: Proof)
    ensures p.Valid() && p.tr == tr
    ensures p.clauses == if [Negate(tr.bad)] in clauses then clauses else clauses + [[Negate(tr.bad)]]
    ensures forall id | 0 <= id < p.property :: p.clauses[id] != [Negate(tr.bad)]
  {
    var property := [Negate(tr.bad)];
    for id := 0 to |clauses|
      invariant property !in clauses[..id]
    {
      if clauses[id] == property {
        return Proof(tr, clauses, id);
      }
      assert clauses[..id + 1] == clauses[..id] + [clauses[id]];
    }
    assert clauses[..|clauses|] == clauses;
    return Proof(tr, clauses + [property], |clauses|);
  }

  /** The clauses of an inductive proof, with the property, are inductive. */
  lemma ProofInductive(init: set<Cube>, clauses: seq<Clause>, p: Proof)
    requires InductiveProof(p.tr, init, p.tr.bad, clauses)
    requires p.clauses == if [Negate(p.tr.bad)] in clauses then clauses else clauses + [[Negate(p.tr.bad)]]
    ensures Inductive(p, p.All()) && InductiveProof(p.tr, init, p.tr.bad, p.clauses)
  {
    var bad := p.tr.bad;
    forall v | p.tr.Frame(v)
      ensures Models(v, p.clauses) <==> Models(v, clauses)
    {
      PropertyFollows(p.tr, init, bad, clauses, p.clauses, v);
    }
    AllModels(p);
    forall c | c in p.All()
      ensures Supports(p, p.All(), c)
    {
      assert p.clauses[c] in p.clauses;
    }
  }

  lemma PropertyFollows(tr: TransitionRelation, init: set<Cube>, bad: ID, clauses: seq<Clause>, more: seq<Clause>, v: Valuation)
    requires InductiveProof(tr, init, bad, clauses) && tr.Frame(v)
    requires more == if [Negate(bad)] in clauses then clauses else clauses + [[Negate(bad)]]
    ensures Models(v, more) <==> Models(v, clauses)
  {
    assert forall cls :: cls in more <==> cls in clauses || cls == [Negate(bad)];
    if Models(v, clauses) {
      OneLiteral(v, Negate(bad));
      NegateFlips(v, bad);
    }
  }

  lemma AllModels(p: Proof)
    ensures forall v :: Models(v, p.clauses) <==> SatSet(p, v, p.All())
  {
    forall v
      ensures Models(v, p.clauses) <==> SatSet(p, v, p.All())
    {
      if SatSet(p, v, p.All()) {
        forall cls | cls in p.clauses
          ensures SatClause(v, cls)
        {
          var id :| 0 <= id < |p.clauses| && p.clauses[id] == cls;
          assert id in p.All();
        }
      }
    }
  }

  /** Every safe inductive subset of a proof is itself a proof. */
  lemma SubsetProves(init: set<Cube>, p: Proof, s: set<ClauseID>)
    requires InductiveProof(p.tr, init, p.tr.bad, p.clauses) && p.Valid()
    requires SafeInductive(p, s, {p.property})
    ensures InductiveProof(p.tr, init, p.tr.bad, Selected(p.clauses, s))
  {
    var proof := Selected(p.clauses, s);
    AllModels(p);
    forall v
      ensures Models(v, proof) <==> SatSet(p, v, s)
    {
      SelectedMeans(p, v, s);
    }
    forall v, w | p.tr.Step(v, w) && Models(v, proof)
      ensures Models(w, proof)
    {
      StepKeepsSet(p, s, v, w);
    }
    forall v | p.tr.Frame(v) && Models(v, proof)
      ensures !Holds(v, p.tr.bad)
    {
      PropertyHolds(p, s, v);
    }
  }

  lemma StepKeepsSet(p: Proof, s: set<ClauseID>, v: Valuation, w: Valuation)
    requires p.tr.Step(v, w) && SatSet(p, v, s) && Inductive(p, s)
    ensures SatSet(p, w, s)
  {
    forall c | c in s && c < |p.clauses|
      ensures SatClause(w, p.clauses[c])
    {
      InductiveStep(p, s, v, w, c);
    }
  }

  lemma PropertyHolds(p: Proof, s: set<ClauseID>, v: Valuation)
    requires p.Valid() && p.property in s && SatSet(p, v, s)
    ensures !Holds(v, p.tr.bad)
  {
    assert SatClause(v, p.clauses[p.property]);
    OneLiteral(v, Negate(p.tr.bad));
    NegateFlips(v, p.tr.bad);
  }
}
