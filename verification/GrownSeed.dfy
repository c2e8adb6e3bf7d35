/** MARCO with both kinds of refinement and no search direction refines with the
    clauses that the grown seed does not support
    (src/pme/minimization/marco.cpp:186-207). The grown seed need not be
    unexplored, so all collapse sets of such a clause may be listed already: a
    run that gets there, and the options under which none does. */
module GrownSeeds {
  import opened ProofSets
  import opened SeedMaps
  import opened CollapseSets
  import opened FiveClauses
  import opened CollapseListings
  import opened MarcoRuns
  import opened MarcoMinimizers

  // ----- a run -----

  const BOTH := Options(false, false, true, true)

  lemma ShrinkDrops(s: set<ClauseID>, id: ClauseID, t: set<ClauseID>)
    requires s <= PROOF.All() && id in s && id != 0 && t == s - {id}
    requires Safe(t) && forall c | c in t :: Needs(t, c)
    ensures Shrunk(PROOF, s, id) == Shrunk(PROOF, t, id + 1)
  {
    SafeMeans(t);
    InductiveMeans(t);
    GreatestIs(PROOF, t, t);
  }

  lemma ShrinkKeeps(s: set<ClauseID>, id: ClauseID)
    requires s <= PROOF.All() && (id == 0 || id !in s || !Safe(s - {id}))
    ensures Shrunk(PROOF, s, id) == Shrunk(PROOF, s, id + 1)
  {
    SafeMeans(s - {id});
  }

  lemma GrowAdds(s: set<ClauseID>, id: ClauseID, t: set<ClauseID>)
    requires id < 5 && t == s + {id} && t <= PROOF.All() && !Safe(t)
    ensures Grown(PROOF, s, id) == Grown(PROOF, t, id + 1)
  {
    SafeMeans(t);
  }

  lemma GrowSkips(s: set<ClauseID>, id: ClauseID)
    requires id < 5 && s + {id} <= PROOF.All() && Safe(s + {id})
    ensures Grown(PROOF, s, id) == Grown(PROOF, s, id + 1)
  {
    SafeMeans(s + {id});
  }

  const EVERY: set<ClauseID> := {0, 1, 2, 3, 4}

  lemma EveryId()
    ensures PROOF.All() == EVERY
  {
    AllIds();
  }

  /** Shrinking all clauses leaves p, e and f; shrinking p, c and d leaves p and
      d. */
  lemma ShrunkSeeds()
    ensures PROOF.All() == EVERY
    ensures Shrunk(PROOF, EVERY, 0) == {0, 3, 4} && Shrunk(PROOF, {0, 1, 2}, 0) == {0, 2}
  {
    EveryId();
    ShrinkKeeps(EVERY, 0);
    ShrinkDrops(EVERY, 1, {0, 2, 3, 4});
    ShrinkDrops({0, 2, 3, 4}, 2, {0, 3, 4});
    ShrinkKeeps({0, 3, 4}, 3);
    ShrinkKeeps({0, 3, 4}, 4);
    ShrinkKeeps({0, 1, 2}, 0);
    ShrinkDrops({0, 1, 2}, 1, {0, 2});
    ShrinkKeeps({0, 2}, 2);
    ShrinkKeeps({0, 2}, 3);
    ShrinkKeeps({0, 2}, 4);
  }

  /** p and c grow by e; p and f grow by c. */
  lemma GrownSeeds()
    ensures Grown(PROOF, {0, 1}, 0) == {0, 1, 3} && Grown(PROOF, {0, 4}, 0) == {0, 1, 4}
  {
    EveryId();
    GrowAdds({0, 1}, 0, {0, 1});
    GrowAdds({0, 1}, 1, {0, 1});
    GrowSkips({0, 1}, 2);
    GrowAdds({0, 1}, 3, {0, 1, 3});
    GrowSkips({0, 1, 3}, 4);
    GrowAdds({0, 4}, 0, {0, 4});
    GrowAdds({0, 4}, 1, {0, 1, 4});
    GrowSkips({0, 1, 4}, 2);
    GrowSkips({0, 1, 4}, 3);
    GrowAdds({0, 1, 4}, 4, {0, 1, 4});
  }

  const NEWS := [Listed(0, {2, 4}), Listed(1, {2})]

  const FIRST := Start(PROOF)
  const SECOND := WithMinimal(FIRST, {0, 3, 4})
  const THIRD := WithMinimal(SECOND, {0, 2})
  const LAST := WithClauses(PROOF, BOTH, THIRD, {0, 1, 3}, NEWS)

  /** The property is the first clause only. */
  lemma UnitsOfProof()
    ensures Units(PROOF, 5) == [SeedClause({0}, {})]
  {
    assert Units(PROOF, 0) == [] && Units(PROOF, 1) == [SeedClause({0}, {})];
    assert Units(PROOF, 2) == Units(PROOF, 1) && Units(PROOF, 3) == Units(PROOF, 2);
    assert Units(PROOF, 4) == Units(PROOF, 3) && Units(PROOF, 5) == Units(PROOF, 4);
  }

  lemma Maps()
    ensures FIRST.clauses == [SeedClause({0}, {})]
    ensures SECOND.clauses == [SeedClause({0}, {}), UpClause({0, 3, 4})]
    ensures THIRD.clauses == [SeedClause({0}, {}), UpClause({0, 3, 4}), UpClause({0, 2})]
    ensures LAST.clauses == [SeedClause({0}, {}), UpClause({0, 3, 4}), UpClause({0, 2}), DownClause(PROOF.All(), {0, 1, 3}),
                             CollapseClause(0, {2, 4}), CollapseClause(1, {2})]
  {
    UnitsOfProof();
    CollapseClausesMore([], NEWS[0]);
    CollapseClausesMore([NEWS[0]], NEWS[1]);
    assert [NEWS[0]] + [NEWS[1]] == NEWS && [] + [NEWS[0]] == [NEWS[0]];
    assert CollapseClauses(NEWS) == [CollapseClause(0, {2, 4}), CollapseClause(1, {2})];
  }

  /** The seed may be picked although it leaves these clauses out. */
  lemma PickedFirst()
    ensures Picked(PROOF, BOTH, FIRST, EVERY)
  {
    Maps();
    EveryId();
    assert 0 in EVERY;
  }

  lemma PickedSecond()
    ensures Picked(PROOF, BOTH, SECOND, {0, 1, 2})
  {
    Maps();
    EveryId();
    var u := UpClause({0, 3, 4});
    assert u in SECOND.clauses && Mentions(u, 3) && Mentions(u, 4);
    assert 3 !in {0, 1, 2};
  }

  lemma PickedThird()
    ensures Picked(PROOF, BOTH, THIRD, {0, 1})
  {
    Maps();
    EveryId();
    var u, t := UpClause({0, 3, 4}), UpClause({0, 2});
    assert u in THIRD.clauses && Mentions(u, 3) && Mentions(u, 4);
    assert t in THIRD.clauses && Mentions(t, 2);
    assert 3 !in {0, 1} && 2 !in {0, 1};
  }

  lemma PickedLast()
    ensures Picked(PROOF, BOTH, LAST, {0, 4})
  {
    Maps();
    EveryId();
    var u, t, d, k := UpClause({0, 3, 4}), UpClause({0, 2}), DownClause(PROOF.All(), {0, 1, 3}), CollapseClause(1, {2});
    assert u in LAST.clauses && Mentions(u, 3) && t in LAST.clauses && Mentions(t, 2);
    assert k in LAST.clauses && Mentions(k, 1);
    assert SatSeed({0, 4}, u) by { assert 3 !in {0, 4}; }
    assert SatSeed({0, 4}, t) by { assert 2 !in {0, 4}; }
    assert SatSeed({0, 4}, d) by { assert 4 in d.pos; }
    assert SatSeed({0, 4}, CollapseClause(0, {2, 4})) by { assert 4 in {0, 4}; }
    assert SatSeed({0, 4}, k) by { assert 1 !in {0, 4}; }
  }

  lemma StepsAreConfirming()
    ensures Goes(PROOF, BOTH, FIRST, SECOND) && Goes(PROOF, BOTH, SECOND, THIRD)
  {
    ShrunkSeeds();
    PickedFirst();
    PickedSecond();
    SafeMeans(EVERY);
    SafeMeans({0, 1, 2});
    InductiveMeans(EVERY);
    InductiveMeans({0, 1, 2});
    GreatestIs(PROOF, EVERY, EVERY);
    GreatestIs(PROOF, {0, 1, 2}, {0, 1, 2});
    GoesByConfirming(PROOF, BOTH, FIRST, EVERY, SECOND);
    GoesByConfirming(PROOF, BOTH, SECOND, {0, 1, 2}, THIRD);
  }

  lemma UnsupportedThird()
    ensures UnsupportedIn(PROOF, {0, 1, 3}) == {0, 1}
  {
    SupportsMeans({0, 1, 3}, 0);
    SupportsMeans({0, 1, 3}, 1);
    SupportsMeans({0, 1, 3}, 3);
  }

  lemma ListedThird()
    ensures Listing(PROOF, [], {0, 1}, NEWS)
  {
    MinimalOfP();
    MinimalOfC({2});
    forall k | MinimalCollapse(PROOF, 1, k)
      ensures k == {2}
    {
      MinimalOfC(k);
    }
    assert NextListed(PROOF, [], NEWS[0]) && NextListed(PROOF, [], NEWS[1]);
    assert NEWS[0] in NEWS && NEWS[1] in NEWS;
  }

  lemma StepIsRefuting()
    ensures Goes(PROOF, BOTH, THIRD, LAST)
  {
    PickedThird();
    EveryId();
    SafeMeans({0, 1});
    GrownSeeds();
    UnsupportedThird();
    ListedThird();
    assert THIRD.found == [];
    GoesByRefuting(PROOF, BOTH, THIRD, {0, 1}, NEWS, LAST);
  }

  lemma LastFails()
    ensures Fails(PROOF, BOTH, LAST, {0, 4})
  {
    EveryId();
    SafeMeans({0, 4});
    GrownSeeds();
    SupportsMeans({0, 1, 4}, 1);
    assert 1 in Refuted(PROOF, BOTH, LAST, {0, 4});
    assert Listed(1, {2}) == NEWS[1] && NEWS[1] in LAST.found;
    forall k | MinimalCollapse(PROOF, 1, k)
      ensures IsListed(LAST.found, 1, k)
    {
      MinimalOfC(k);
    }
    assert NothingToList(PROOF, LAST.found, 1);
  }

  /** From the first state of the minimizer: two minimal proofs are recorded, the
      seed {p, c} is grown to {p, c, e} and refined with, and then the seed
      {p, f} grows to {p, c, f}, where all collapse sets of c are listed. */
  lemma GrownSeedHasNothingToList()
    ensures Inductive(PROOF, PROOF.All()) && PROOF.Valid() && CIRCUIT.WellFormed()
    ensures Run(PROOF, BOTH, [FIRST, SECOND, THIRD, LAST]) && FIRST == Start(PROOF)
    ensures Picked(PROOF, BOTH, LAST, {0, 4}) && Fails(PROOF, BOTH, LAST, {0, 4})
  {
    WellFormedCircuit();
    EveryId();
    InductiveMeans(EVERY);
    StepsAreConfirming();
    StepIsRefuting();
    PickedLast();
    LastFails();
    TheRun();
  }

  lemma TheRun()
    requires Goes(PROOF, BOTH, FIRST, SECOND) && Goes(PROOF, BOTH, SECOND, THIRD) && Goes(PROOF, BOTH, THIRD, LAST)
    ensures Run(PROOF, BOTH, [FIRST, SECOND, THIRD, LAST])
  {
    var run := [FIRST, SECOND, THIRD, LAST];
    forall k | 1 <= k < |run|
      ensures Goes(PROOF, BOTH, run[k - 1], run[k])
    {
      assert k == 1 || k == 2 || k == 3;
    }
  }

  /** No assertion of the enumeration can fail, on any inductive proof and in any
      run, exactly when not both refinements are used without a direction. */
  lemma SafeOptions(o: Options)
    ensures NeverFails(o) <==> !(o.mcs && o.collapse && !o.up && !o.down)
  {
    if o.mcs && o.collapse && !o.up && !o.down {
      assert o == BOTH;
      GrownSeedHasNothingToList();
      BothFails();
    } else {
      NoOtherOptionsFail(o);
    }
  }

  lemma BothFails()
    requires PROOF.Valid() && Inductive(PROOF, PROOF.All()) && Run(PROOF, BOTH, [FIRST, SECOND, THIRD, LAST])
    requires Picked(PROOF, BOTH, LAST, {0, 4}) && Fails(PROOF, BOTH, LAST, {0, 4})
    ensures !NeverFails(BOTH)
  {
    var run := [FIRST, SECOND, THIRD, LAST];
    assert run[0] == Start(PROOF) && run[|run| - 1] == LAST;
    assert Stuck(PROOF, BOTH, LAST);
  }
}
