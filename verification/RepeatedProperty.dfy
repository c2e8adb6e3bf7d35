/** MARCO selects every copy of the property in every seed
    (src/pme/minimization/marco.cpp:126-131) but needs only the first, and records
    minimum seeds as they are: runs that record a set that is not minimal, and the
    options under which none does. */
module RepeatedProperties {
  import opened Collections
  import opened Ids
  import opened VariableManagers
  import opened TransitionRelations
  import opened ProofSets
  import opened PropertyCopies
  import opened SeedMaps
  import opened SeedSolvers
  import opened CollapseSets
  import opened CollapseFinders
  import opened SmallCircuits
  import opened CollapseListings
  import opened MarcoRuns
  import opened MarcoMinimizers
  import Alternatives

  // ----- minimum seeds only -----

  const BAD: ID := 4

  /** A latch that stays off, and that it is off, twice. */
  const STAYS := TransitionRelation({}, [Latch(BAD, BAD, ID_FALSE)], [], BAD)
  const TWICE := Proof(STAYS, [[Negate(BAD)], [Negate(BAD)]], 0)

  lemma TwiceInductive(s: set<ClauseID>)
    requires s <= {0, 1}
    ensures Inductive(TWICE, s)
  {
    forall c | c in s && c < 2
      ensures Supports(TWICE, s, c)
    {
      forall v, w | STAYS.Step(v, w) && SatClause(v, TWICE.clauses[c])
        ensures SatClause(w, TWICE.clauses[c])
      {
        StaysOff(v, w);
        assert TWICE.clauses[c] == [Negate(BAD)];
        OneLiteral(v, Negate(BAD));
        OneLiteral(w, Negate(BAD));
      }
    }
    assert forall c: ClauseID :: c in TWICE.All() <==> c < 2;
  }

  lemma StaysOff(v: Valuation, w: Valuation)
    requires STAYS.Step(v, w)
    ensures BAD in v <==> BAD in w
  {
    assert STAYS.latches[0].id == BAD;
    assert LatchOk(STAYS, 6, 0);
    OrderedWellFormed(STAYS, 6);
    LatchMeans(STAYS, v, w, 0);
  }

  lemma TwiceFacts()
    ensures TWICE.Valid() && TWICE.All() == {0, 1} && Copies(TWICE) == {0, 1}
    ensures Start(TWICE).clauses == [SeedClause({0}, {}), SeedClause({1}, {})]
  {
    assert TWICE.clauses[0] == [Negate(BAD)] && TWICE.clauses[1] == [Negate(BAD)];
    assert forall c: ClauseID :: c in TWICE.All() <==> c < 2;
    assert Units(TWICE, 0) == [] && Units(TWICE, 1) == [SeedClause({0}, {})];
    assert Units(TWICE, 2) == [SeedClause({0}, {}), SeedClause({1}, {})];
  }

  lemma TwiceMap(t: set<ClauseID>)
    requires t <= {0, 1}
    ensures Unexplored(t, Start(TWICE).clauses) <==> t == {0, 1}
  {
    TwiceFacts();
    var l := Start(TWICE).clauses;
    if Unexplored(t, l) {
      assert SatSeed(t, l[0]) && SatSeed(t, l[1]);
    }
  }

  lemma TwicePicked(o: Options)
    requires o.up && !o.down
    ensures Picked(TWICE, o, Start(TWICE), {0, 1})
  {
    TwiceFacts();
    TwiceMap({0, 1});
    forall t: set<ClauseID> | t <= TWICE.All() && Unexplored(t, Start(TWICE).clauses)
      ensures |{0, 1}| <= |t|
    {
      TwiceMap(t);
    }
  }

  lemma TwiceStep(o: Options)
    requires o.up && !o.down
    ensures Goes(TWICE, o, Start(TWICE), WithMinimal(Start(TWICE), {0, 1}))
    ensures Exhausted(TWICE, WithMinimal(Start(TWICE), {0, 1}))
  {
    TwiceFacts();
    TwicePicked(o);
    TwiceInductive({0, 1});
    GoesByConfirming(TWICE, o, Start(TWICE), {0, 1}, WithMinimal(Start(TWICE), {0, 1}));
    forall t: set<ClauseID> | t <= {0, 1} && Unexplored(t, Start(TWICE).clauses)
      ensures t == {0, 1}
    {
      TwiceMap(t);
    }
    UnexploredAfter(Start(TWICE));
  }

  /** The first and only seed has both copies and is recorded. */
  lemma BothCopiesRecorded(o: Options)
    requires o.up && !o.down
    ensures TWICE.Valid() && Inductive(TWICE, TWICE.All())
    ensures Run(TWICE, o, [Start(TWICE), WithMinimal(Start(TWICE), {0, 1})])
    ensures Exhausted(TWICE, WithMinimal(Start(TWICE), {0, 1}))
    ensures MinimalSafe(TWICE, {0}, {0}) && !MinimalSafe(TWICE, {0, 1}, {0})
  {
    TwiceFacts();
    TwiceInductive({0});
    TwiceInductive({0, 1});
    TwiceStep(o);
    assert SafeInductive(TWICE, {0}, {0}) && {0} < {0, 1};
  }

  lemma UnexploredAfter(l: Loop)
    requires TWICE.All() == {0, 1} && forall t: set<ClauseID> | t <= {0, 1} && Unexplored(t, l.clauses) :: t == {0, 1}
    ensures Exhausted(TWICE, WithMinimal(l, {0, 1}))
  {
    forall t: set<ClauseID> | t <= TWICE.All()
      ensures !Unexplored(t, l.clauses + [UpClause({0, 1})])
    {
      UnexploredMore(t, l.clauses, UpClause({0, 1}));
      UpBlocks({0, 1}, t);
    }
  }

  // ----- minimum and maximum seeds in turn -----

  const PROOF := Alternatives.PROOF
  const EVERY := Alternatives.EVERY
  const ONES := Alternatives.ONES
  const NEWS := [Listed(0, ONES), Listed(1, ONES)]

  function First(): Loop {
    Start(PROOF)
  }

  function Second(): Loop {
    WithMinimal(First(), {0, 4})
  }

  function Third(o: Options): Loop {
    WithClauses(PROOF, o, Second(), {0, 1}, if o.collapse then NEWS else [])
  }

  function Fourth(o: Options): Loop {
    WithMinimal(Third(o), {0, 3})
  }

  function Fifth(o: Options): Loop {
    WithMinimal(Fourth(o), {0, 1, 2})
  }

  predicate ZigZag(o: Options) {
    o.up && o.down && (o.mcs || o.collapse)
  }

  lemma FirstMap(t: set<ClauseID>)
    ensures Unexplored(t, First().clauses) <==> {0, 1} <= t
  {
    Alternatives.AllIds();
    assert PROOF.clauses[0] == [4] && PROOF.clauses[1] == [4] && PROOF.clauses[2] == [6];
    assert PROOF.clauses[3] == [8] && PROOF.clauses[4] == [10];
    assert Units(PROOF, 0) == [] && Units(PROOF, 1) == [SeedClause({0}, {})];
    assert Units(PROOF, 2) == [SeedClause({0}, {}), SeedClause({1}, {})] && Units(PROOF, 3) == Units(PROOF, 2);
    assert Units(PROOF, 4) == Units(PROOF, 3) && Units(PROOF, 5) == Units(PROOF, 4);
    var clauses := First().clauses;
    if Unexplored(t, clauses) {
      assert SatSeed(t, clauses[0]) && SatSeed(t, clauses[1]);
    }
    if {0, 1} <= t {
      assert 0 in t && 1 in t;
    }
  }

  lemma SecondMap(t: set<ClauseID>)
    ensures Unexplored(t, Second().clauses) <==> {0, 1} <= t && 4 !in t
  {
    FirstMap(t);
    UnexploredMore(t, First().clauses, UpClause({0, 4}));
    UpBlocks({0, 4}, t);
  }

  /** Whatever refines, the third seed needs one of a, b and c. */
  lemma ThirdMap(o: Options, t: set<ClauseID>)
    requires ZigZag(o) && t <= EVERY
    ensures Unexplored(t, Third(o).clauses) <==> {0, 1} <= t && 4 !in t && (2 in t || 3 in t)
  {
    SecondMap(t);
    Alternatives.AllIds();
    var down := DownClause(PROOF.All(), {0, 1});
    var blocked := Second().clauses + (if o.mcs then [down] else []);
    DownBlocks(PROOF.All(), {0, 1}, t);
    UnexploredMore(t, Second().clauses, down);
    assert !o.mcs ==> blocked == Second().clauses;
    if o.collapse {
      CollapseMap(t, blocked);
    } else {
      assert CollapseClauses([]) == [] && Third(o).clauses == blocked;
    }
  }

  lemma CollapseMap(t: set<ClauseID>, clauses: seq<SeedClause>)
    ensures Unexplored(t, clauses + CollapseClauses(NEWS))
       <==> Unexplored(t, clauses) && (0 in t || 1 in t ==> Alternatives.HasOne(t))
  {
    var k0, k1 := CollapseClause(0, ONES), CollapseClause(1, ONES);
    CollapseClausesMore([], NEWS[0]);
    CollapseClausesMore([NEWS[0]], NEWS[1]);
    assert [NEWS[0]] + [NEWS[1]] == NEWS && [] + [NEWS[0]] == [NEWS[0]];
    assert clauses + CollapseClauses(NEWS) == (clauses + [k0]) + [k1];
    UnexploredMore(t, clauses, k0);
    UnexploredMore(t, clauses + [k0], k1);
    assert SatSeed(t, k0) <==> Alternatives.HasOne(t) || 0 !in t;
    assert SatSeed(t, k1) <==> Alternatives.HasOne(t) || 1 !in t;
  }

  lemma FourthMap(o: Options, t: set<ClauseID>)
    requires ZigZag(o) && t <= EVERY
    ensures Unexplored(t, Fourth(o).clauses) <==> {0, 1, 2} <= t && 3 !in t && 4 !in t
  {
    ThirdMap(o, t);
    UnexploredMore(t, Third(o).clauses, UpClause({0, 3}));
    UpBlocks({0, 3}, t);
  }

  // ----- its steps -----

  lemma ShrinkDrops(s: set<ClauseID>, id: ClauseID, t: set<ClauseID>)
    requires s <= EVERY && id in s && id != 0 && t == s - {id} && Alternatives.Safe(t)
    ensures Shrunk(PROOF, s, id) == Shrunk(PROOF, t, id + 1)
  {
    Alternatives.AllIds();
    Alternatives.SafeMeans(t);
    Alternatives.InductiveMeans(t);
    GreatestIs(PROOF, t, t);
  }

  lemma ShrinkKeeps(s: set<ClauseID>, id: ClauseID)
    requires s <= EVERY && (id == 0 || id !in s || !Alternatives.Safe(s - {id}))
    ensures Shrunk(PROOF, s, id) == Shrunk(PROOF, s, id + 1)
  {
    Alternatives.AllIds();
    Alternatives.SafeMeans(s - {id});
  }

  lemma ShrunkSeeds()
    ensures Shrunk(PROOF, EVERY, 0) == {0, 4} && Shrunk(PROOF, {0, 1, 2, 3}, 0) == {0, 3}
  {
    Alternatives.AllIds();
    ShrinkKeeps(EVERY, 0);
    ShrinkDrops(EVERY, 1, {0, 2, 3, 4});
    ShrinkDrops({0, 2, 3, 4}, 2, {0, 3, 4});
    ShrinkDrops({0, 3, 4}, 3, {0, 4});
    ShrinkKeeps({0, 4}, 4);
    ShrinkKeeps({0, 1, 2, 3}, 0);
    ShrinkDrops({0, 1, 2, 3}, 1, {0, 2, 3});
    ShrinkDrops({0, 2, 3}, 2, {0, 3});
    ShrinkKeeps({0, 3}, 3);
    ShrinkKeeps({0, 3}, 4);
  }

  /** A maximum seed that is safe is shrunk and recorded. */
  lemma MaximumConfirmed(o: Options, l: Loop, seed: set<ClauseID>, mis: set<ClauseID>)
    requires !TakesMinimum(o, l.count) && seed <= EVERY && Picked(PROOF, o, l, seed)
    requires Alternatives.Safe(seed) && Shrunk(PROOF, seed, 0) == mis
    ensures Goes(PROOF, o, l, WithMinimal(l, mis))
  {
    Alternatives.AllIds();
    Alternatives.SafeMeans(seed);
    Alternatives.InductiveMeans(seed);
    GreatestIs(PROOF, seed, seed);
    GoesByConfirming(PROOF, o, l, seed, WithMinimal(l, mis));
  }

  lemma PickedFirst(o: Options)
    requires ZigZag(o)
    ensures Picked(PROOF, o, First(), EVERY)
  {
    Alternatives.AllIds();
    FirstMap(EVERY);
    forall t: set<ClauseID> | t <= PROOF.All()
      ensures |t| <= |EVERY|
    {
      SubsetSize(t, EVERY);
    }
  }

  lemma FirstStep(o: Options)
    requires ZigZag(o)
    ensures Goes(PROOF, o, First(), Second())
  {
    PickedFirst(o);
    ShrunkSeeds();
    MaximumConfirmed(o, First(), EVERY, {0, 4});
  }

  lemma GrowSkips(id: ClauseID)
    requires 2 <= id < 5
    ensures Grown(PROOF, {0, 1}, id) == Grown(PROOF, {0, 1}, id + 1)
  {
    Alternatives.SafeMeans({0, 1} + {id});
  }

  lemma NothingGrows()
    ensures Grown(PROOF, {0, 1}, 0) == {0, 1}
  {
    Alternatives.SafeMeans({0, 1});
    assert {0, 1} + {0} == {0, 1} && {0, 1} + {1} == {0, 1};
    GrowSkips(2);
    GrowSkips(3);
    GrowSkips(4);
  }

  lemma NextIsOnes(c: ClauseID)
    requires c < 2
    ensures NextListed(PROOF, [], Listed(c, ONES))
  {
    forall k
      ensures c < |PROOF.clauses| && (MinimalCollapse(PROOF, c, k) <==> k == ONES)
    {
      Alternatives.MinimalMeans(c, k);
    }
  }

  lemma ListingTwo(p: Proof, found: seq<Listed>, a: Listed, b: Listed)
    requires NextListed(p, found, a) && NextListed(p, found, b) && a.id != b.id
    ensures Listing(p, found, {a.id, b.id}, [a, b])
  {
    assert a in [a, b] && b in [a, b];
  }

  lemma ListedSecond()
    ensures Listing(PROOF, [], {0, 1}, NEWS)
  {
    NextIsOnes(0);
    NextIsOnes(1);
    ListingTwo(PROOF, [], Listed(0, ONES), Listed(1, ONES));
  }

  lemma UnsupportedSecond()
    ensures UnsupportedIn(PROOF, {0, 1}) == {0, 1}
  {
    Alternatives.SupportsMeans({0, 1}, 0);
    Alternatives.SupportsMeans({0, 1}, 1);
  }

  lemma PickedSecond(o: Options)
    requires ZigZag(o)
    ensures Picked(PROOF, o, Second(), {0, 1})
  {
    Alternatives.AllIds();
    SecondMap({0, 1});
    forall t: set<ClauseID> | t <= PROOF.All() && Unexplored(t, Second().clauses)
      ensures |{0, 1}| <= |t|
    {
      SecondMap(t);
      SubsetSize({0, 1}, t);
    }
  }

  lemma SecondStep(o: Options)
    requires ZigZag(o)
    ensures Goes(PROOF, o, Second(), Third(o))
  {
    PickedSecond(o);
    Alternatives.InductiveMeans({0, 1});
    NothingGrows();
    ListedSecond();
    UnsupportedSecond();
    assert Second().found == [];
    GoesByRefuting(PROOF, o, Second(), {0, 1}, if o.collapse then NEWS else [], Third(o));
  }

  lemma PickedThird(o: Options)
    requires ZigZag(o)
    ensures Picked(PROOF, o, Third(o), {0, 1, 2, 3})
  {
    Alternatives.AllIds();
    ThirdMap(o, {0, 1, 2, 3});
    forall t: set<ClauseID> | t <= PROOF.All() && Unexplored(t, Third(o).clauses)
      ensures |t| <= |{0, 1, 2, 3}|
    {
      ThirdMap(o, t);
      SubsetSize(t, {0, 1, 2, 3});
    }
  }

  lemma ThirdStep(o: Options)
    requires ZigZag(o)
    ensures Goes(PROOF, o, Third(o), Fourth(o))
  {
    PickedThird(o);
    ShrunkSeeds();
    MaximumConfirmed(o, Third(o), {0, 1, 2, 3}, {0, 3});
  }

  lemma PickedFourth(o: Options)
    requires ZigZag(o)
    ensures Picked(PROOF, o, Fourth(o), {0, 1, 2})
  {
    Alternatives.AllIds();
    FourthMap(o, {0, 1, 2});
    forall t: set<ClauseID> | t <= PROOF.All() && Unexplored(t, Fourth(o).clauses)
      ensures |{0, 1, 2}| <= |t|
    {
      FourthMap(o, t);
      SubsetSize({0, 1, 2}, t);
    }
  }

  lemma FourthStep(o: Options)
    requires ZigZag(o)
    ensures Goes(PROOF, o, Fourth(o), Fifth(o))
  {
    PickedFourth(o);
    Alternatives.InductiveMeans({0, 1, 2});
    GoesByConfirming(PROOF, o, Fourth(o), {0, 1, 2}, Fifth(o));
  }

  /** Taking maximum and minimum seeds in turn: two minimal proofs are found from
      maximum seeds, and then the minimum seed {p, p, a} is recorded. */
  lemma CopyRecordedInTurn(o: Options)
    requires ZigZag(o)
    ensures PROOF.Valid() && Inductive(PROOF, PROOF.All())
    ensures Run(PROOF, o, [Start(PROOF), Second(), Third(o), Fourth(o), Fifth(o)])
    ensures {0, 1, 2} in Fifth(o).proofs && !MinimalSafe(PROOF, {0, 1, 2}, {0})
  {
    Alternatives.AllIds();
    Alternatives.InductiveMeans(EVERY);
    Alternatives.InductiveMeans({0, 2});
    FirstStep(o);
    SecondStep(o);
    ThirdStep(o);
    FourthStep(o);
    assert SafeInductive(PROOF, {0, 2}, {0}) && {0, 2} < {0, 1, 2};
    var run := [Start(PROOF), Second(), Third(o), Fourth(o), Fifth(o)];
    forall k | 1 <= k < |run|
      ensures Goes(PROOF, o, run[k - 1], run[k])
    {
      assert k == 1 || k == 2 || k == 3 || k == 4;
    }
  }

  // ----- the options -----

  /** Only minimal sets are recorded, on any inductive proof and in any run, exactly
      when no minimum seeds are taken. */
  lemma MinimalOptions(o: Options)
    requires o.mcs || o.collapse
    ensures OnlyMinimal(o) <==> !o.up
  {
    if !o.up {
      WithoutMinimum(o);
    } else if o.down {
      CopyRecordedInTurn(o);
      var run := [Start(PROOF), Second(), Third(o), Fourth(o), Fifth(o)];
      assert run[|run| - 1] == Fifth(o) && run[0] == Start(PROOF);
      assert !AllMinimal(PROOF, run[|run| - 1].proofs);
    } else {
      BothCopiesRecorded(o);
      var run := [Start(TWICE), WithMinimal(Start(TWICE), {0, 1})];
      assert run[|run| - 1] == WithMinimal(Start(TWICE), {0, 1}) && run[0] == Start(TWICE);
      assert {0, 1} in run[|run| - 1].proofs;
      assert !AllMinimal(TWICE, run[|run| - 1].proofs);
    }
  }

  /** A new minimizer, with options under which no assertion fails: everything is
      recorded, and exactly the minimal proofs if the property occurs once, or else if
      no minimum seed is recorded; with minimum seeds only, just if it occurs once. */
  method Enumerate(vm: VariableManager, p: Proof, o: Options) returns (m: MarcoMinimizer, ghost run: seq<Loop>)
    requires p.Valid() && Inductive(p, p.All()) && (o.mcs || o.collapse) && !(o.mcs && o.collapse && !o.up && !o.down)
    requires vm.Valid() && PlainProof(p) && Selectable(p) && forall x | x in p.tr.Vars() :: x < vm.nextID
    modifies vm
    ensures fresh(m) && m.Valid() && m.p == p && Distinct(m.proofs)
    ensures RecordsLifted(p, m.proofs) && SmallestFor(p, o, m.minimumProof)
    ensures Run(p, o, run) && run[0] == Start(p)
    ensures RecordsMinimal(p, m.proofs) <==> OccursOnce(p) || !MinimumRecorded(o, run, |run|)
    ensures !o.up || OccursOnce(p) ==> RecordsMinimal(p, m.proofs) && SmallestOfAll(p, m.minimumProof)
    ensures o.up && !o.down ==> (RecordsMinimal(p, m.proofs) <==> OccursOnce(p))
  {
    m := new MarcoMinimizer(vm, p, o);
    var ok;
    ok, run := m.DoMinimize();
    assert ok;
  }
}
