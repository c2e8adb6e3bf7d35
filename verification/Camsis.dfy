/** CAMSIS: all minimal safe inductive subsets of a proof, smallest first, from
    the collapse sets of its clauses (src/pme/minimization/camsis.cpp). */
module CamsisMinimizers {
  import opened ProofSets
  import opened SeedMaps
  import opened SeedSolvers
  import opened VariableManagers
  import opened CollapseSets
  import opened CollapseFinders
  import opened CollapseListings
  import opened ConsecutionCheckers

  function Recorded(proofs: seq<set<ClauseID>>): set<set<ClauseID>> {
    set x | x in proofs
  }

  lemma RecordedNext(proofs: seq<set<ClauseID>>, x: set<ClauseID>)
    ensures Recorded(proofs + [x]) == Recorded(proofs) + {x}
  {
    assert forall y :: y in proofs + [x] <==> y in proofs || y == x;
  }

  /** Recorded once each, in order of size. */
  ghost predicate InOrder(proofs: seq<set<ClauseID>>) {
    forall i, j | 0 <= i < j < |proofs| :: |proofs[i]| <= |proofs[j]| && proofs[i] != proofs[j]
  }

  /** Nothing unexplored is smaller than what is recorded. */
  ghost predicate Frontier(all: set<ClauseID>, clauses: seq<SeedClause>, proofs: seq<set<ClauseID>>) {
    forall x, s: set<ClauseID> | x in proofs && s <= all && Unexplored(s, clauses) :: |x| <= |s|
  }

  /** Each listed collapse set has been turned into a clause. */
  ghost predicate Refined(found: seq<Listed>, clauses: seq<SeedClause>) {
    forall l | l in found :: CollapseClause(l.id, l.collapse) in clauses
  }

  /** An unsupported clause of an unexplored set has a collapse set that is not
      listed yet. */
  lemma SomethingToList(p: Proof, found: seq<Listed>, clauses: seq<SeedClause>, s: set<ClauseID>, c: ClauseID)
    requires Refined(found, clauses) && Unexplored(s, clauses)
    requires c < |p.clauses| && c in s && !Supports(p, s, c)
    ensures exists k :: MinimalCollapse(p, c, k) && !IsListed(found, c, k)
  {
    var k := UnsupportedMisses(p, s, c);
    if IsListed(found, c, k) {
      ListedHit(found, clauses, s, c, k);
    }
  }

  lemma ListedHit(found: seq<Listed>, clauses: seq<SeedClause>, s: set<ClauseID>, c: ClauseID, k: set<ClauseID>)
    requires Refined(found, clauses) && Unexplored(s, clauses) && c in s && IsListed(found, c, k)
    ensures !(s !! k)
  {
    assert CollapseClause(c, k) in clauses && SatSeed(s, CollapseClause(c, k));
  }

  /** Every minimal collapse set of the first n clauses is listed. */
  ghost predicate ListedBelow(p: Proof, found: seq<Listed>, n: nat)
    requires n <= |p.clauses|
  {
    forall c: ClauseID, k | c < n && MinimalCollapse(p, c, k) :: IsListed(found, c, k)
  }

  lemma ListedBelowNext(p: Proof, found: seq<Listed>, more: seq<Listed>, n: nat)
    requires n < |p.clauses| && ListedBelow(p, found, n) && found <= more
    requires forall k | MinimalCollapse(p, n, k) :: IsListed(more, n, k)
    ensures ListedBelow(p, more, n + 1)
  {
  }

  /** With every collapse set listed, all unexplored sets are inductive. */
  lemma FullyRefined(p: Proof, found: seq<Listed>, clauses: seq<SeedClause>, s: set<ClauseID>)
    requires Refined(found, clauses) && Unexplored(s, clauses) && s <= p.All()
    requires ListedBelow(p, found, |p.clauses|)
    ensures Inductive(p, s)
  {
    forall c | c in s && c < |p.clauses|
      ensures Supports(p, s, c)
    {
      if !Supports(p, s, c) {
        SomethingToList(p, found, clauses, s, c);
      }
    }
  }

  ghost predicate CamsisOk(p: Proof, clauses: seq<SeedClause>, proofs: seq<set<ClauseID>>, found: seq<Listed>) {
    && MapOk(p, {p.property}, clauses, Recorded(proofs)) && ListOk(p, found) && Refined(found, clauses)
    && InOrder(proofs) && Frontier(p.All(), clauses, proofs)
  }

  /** Together with the minimum, and kept folded: the argument n does not
      matter. */
  ghost predicate CamsisFolded(p: Proof, clauses: seq<SeedClause>, proofs: seq<set<ClauseID>>, found: seq<Listed>,
                         minimum: set<ClauseID>, n: nat)
    decreases n
  {
    if n == 0 then CamsisOk(p, clauses, proofs, found) && Inductive(p, p.All()) && MinimumOk(p, proofs, minimum)
    else CamsisFolded(p, clauses, proofs, found, minimum, n - 1)
  }

  lemma {:induction false} CamsisUnfold(p: Proof, clauses: seq<SeedClause>, proofs: seq<set<ClauseID>>, found: seq<Listed>,
                                  minimum: set<ClauseID>, n: nat)
    ensures CamsisFolded(p, clauses, proofs, found, minimum, n)
       <==> CamsisOk(p, clauses, proofs, found) && Inductive(p, p.All()) && MinimumOk(p, proofs, minimum)
    decreases n
  {
    if n > 0 {
      CamsisUnfold(p, clauses, proofs, found, minimum, n - 1);
    }
  }

  /** The minimum proof is the first one recorded, and none is smaller. */
  ghost predicate MinimumOk(p: Proof, proofs: seq<set<ClauseID>>, minimum: set<ClauseID>) {
    if proofs == [] then minimum == {}
    else minimum == proofs[0] && forall y | MinimalSafe(p, y, {p.property}) :: |minimum| <= |y|
  }

  lemma CamsisRefine(p: Proof, clauses: seq<SeedClause>, proofs: seq<set<ClauseID>>, found: seq<Listed>, c: ClauseID,
                     k: set<ClauseID>)
    requires CamsisOk(p, clauses, proofs, found) && ListOk(p, found + [Listed(c, k)])
    requires c < |p.clauses| && MinimalCollapse(p, c, k)
    ensures CamsisOk(p, clauses + [CollapseClause(c, k)], proofs, found + [Listed(c, k)])
  {
    var cls := CollapseClause(c, k);
    forall x | SafeInductive(p, x, {p.property})
      ensures SatSeed(x, cls)
    {
      CollapseClauseHolds(p, c, k, x, {p.property});
    }
    RefineOk(p, {p.property}, clauses, Recorded(proofs), cls);
    FrontierMore(p.All(), clauses, proofs, cls);
  }

  lemma CamsisInductive(p: Proof, clauses: seq<SeedClause>, proofs: seq<set<ClauseID>>, found: seq<Listed>,
                        minimum: set<ClauseID>)
    requires CamsisFolded(p, clauses, proofs, found, minimum, |p.clauses|)
    ensures Inductive(p, p.All())
  {
    CamsisUnfold(p, clauses, proofs, found, minimum, |p.clauses|);
  }

  /** Refining with one more collapse set. */
  lemma RefineKeeps(p: Proof, clauses: seq<SeedClause>, proofs: seq<set<ClauseID>>, found: seq<Listed>,
                    minimum: set<ClauseID>, c: ClauseID, k: set<ClauseID>)
    requires CamsisFolded(p, clauses, proofs, found, minimum, |p.clauses|)
    requires c < |p.clauses| && FindsNext(p, found, c, true, k)
    ensures CamsisFolded(p, clauses + [CollapseClause(c, k)], proofs, found + [Listed(c, k)], minimum, |p.clauses|)
    ensures |Unlisted(p, found + [Listed(c, k)])| < |Unlisted(p, found)|
    ensures |Seeds(p.All(), clauses + [CollapseClause(c, k)])| <= |Seeds(p.All(), clauses)|
  {
    CamsisUnfold(p, clauses, proofs, found, minimum, |p.clauses|);
    ListNext(p, found, c, k);
    CamsisRefine(p, clauses, proofs, found, c, k);
    UnlistedShrinks(p, found, c, k);
    SeedsNotMore(p.All(), clauses, CollapseClause(c, k));
    CamsisUnfold(p, clauses + [CollapseClause(c, k)], proofs, found + [Listed(c, k)], minimum, |p.clauses|);
  }

  lemma FrontierMore(all: set<ClauseID>, clauses: seq<SeedClause>, proofs: seq<set<ClauseID>>, cls: SeedClause)
    requires Frontier(all, clauses, proofs)
    ensures Frontier(all, clauses + [cls], proofs)
  {
    forall x, s: set<ClauseID> | x in proofs && s <= all && Unexplored(s, clauses + [cls])
      ensures |x| <= |s|
    {
      UnexploredMore(s, clauses, cls);
    }
  }

  lemma CamsisRecord(p: Proof, clauses: seq<SeedClause>, proofs: seq<set<ClauseID>>, found: seq<Listed>, x: set<ClauseID>)
    requires CamsisOk(p, clauses, proofs, found) && IsMinimum(p.All(), clauses, x) && Inductive(p, x)
    ensures MinimalSafe(p, x, {p.property}) && x !in proofs
    ensures CamsisOk(p, clauses + [UpClause(x)], proofs + [x], found)
    ensures |Seeds(p.All(), clauses + [UpClause(x)])| < |Seeds(p.All(), clauses)|
    ensures proofs == [] ==> forall y | MinimalSafe(p, y, {p.property}) :: |x| <= |y|
  {
    NecessarySelected(p, {p.property}, clauses, Recorded(proofs), x);
    MinimumIsMinimal(p, {p.property}, clauses, Recorded(proofs), x, x);
    assert x + {p.property} == x;
    RecordOk(p, {p.property}, clauses, Recorded(proofs), x);
    RecordedNext(proofs, x);
    UpBlocks(x, x);
    SeedsShrink(p.All(), clauses, UpClause(x), x);
    RecordFrontier(p.All(), clauses, proofs, x);
    forall y | MinimalSafe(p, y, {p.property}) && proofs == []
      ensures |x| <= |y|
    {
      assert Unexplored(y, clauses);
    }
  }

  lemma RecordFrontier(all: set<ClauseID>, clauses: seq<SeedClause>, proofs: seq<set<ClauseID>>, x: set<ClauseID>)
    requires Frontier(all, clauses, proofs) && IsMinimum(all, clauses, x) && InOrder(proofs) && x !in proofs
    ensures Frontier(all, clauses + [UpClause(x)], proofs + [x]) && InOrder(proofs + [x])
  {
    forall y, s: set<ClauseID> | y in proofs + [x] && s <= all && Unexplored(s, clauses + [UpClause(x)])
      ensures |y| <= |s|
    {
      UnexploredMore(s, clauses, UpClause(x));
      assert y in proofs || y == x;
    }
    forall i | 0 <= i < |proofs|
      ensures |proofs[i]| <= |x| && proofs[i] != x
    {
      assert proofs[i] in proofs;
    }
  }

  /** Recording one more proof. */
  lemma RecordKeeps(p: Proof, clauses: seq<SeedClause>, proofs: seq<set<ClauseID>>, found: seq<Listed>,
                    minimum: set<ClauseID>, x: set<ClauseID>)
    requires CamsisFolded(p, clauses, proofs, found, minimum, |p.clauses|)
    requires IsMinimum(p.All(), clauses, x) && Inductive(p, x)
    ensures CamsisFolded(p, clauses + [UpClause(x)], proofs + [x], found, if proofs == [] then x else minimum, |p.clauses|)
    ensures |Seeds(p.All(), clauses + [UpClause(x)])| < |Seeds(p.All(), clauses)|
  {
    CamsisUnfold(p, clauses, proofs, found, minimum, |p.clauses|);
    CamsisRecord(p, clauses, proofs, found, x);
    CamsisUnfold(p, clauses + [UpClause(x)], proofs + [x], found, if proofs == [] then x else minimum, |p.clauses|);
  }

  /** Refining with one more collapse set for each of the clauses. */
  lemma {:induction false} ListingKeeps(p: Proof, clauses: seq<SeedClause>, proofs: seq<set<ClauseID>>, found: seq<Listed>,
                                        minimum: set<ClauseID>, c: ClauseID, l: Listed)
    requires CamsisFolded(p, clauses, proofs, found, minimum, |p.clauses|) && l.id == c && c < |p.clauses|
    requires FindsNext(p, found, c, true, l.collapse)
    ensures CamsisFolded(p, clauses + [CollapseClause(l.id, l.collapse)], proofs, found + [l], minimum, |p.clauses|)
    ensures NextListed(p, found, l)
  {
    RefineKeeps(p, clauses, proofs, found, minimum, c, l.collapse);
    NextIsListed(p, found, c, true, l.collapse);
  }

  // ----- runs -----

  /** What the minimiser has between two candidates. */
  datatype Camsis = Camsis(clauses: seq<SeedClause>, proofs: seq<set<ClauseID>>, found: seq<Listed>, minimum: set<ClauseID>)

  /** The candidate is a smallest unexplored set. An inductive one is recorded and
      blocked; for any other each clause that it does not support gets a collapse set. */
  ghost predicate Extracts(p: Proof, a: Camsis, x: set<ClauseID>, news: seq<Listed>, b: Camsis) {
    && IsMinimum(p.All(), a.clauses, x)
    && if Inductive(p, x) then
         b == Camsis(a.clauses + [UpClause(x)], a.proofs + [x], a.found, if a.proofs == [] then x else a.minimum)
       else
         && Listing(p, a.found, UnsupportedIn(p, x), news)
         && b == Camsis(a.clauses + CollapseClauses(news), a.proofs, a.found + news, a.minimum)
  }

  ghost predicate NextCamsis(p: Proof, a: Camsis, b: Camsis) {
    exists x, news :: Extracts(p, a, x, news, b)
  }

  ghost predicate CamsisRun(p: Proof, run: seq<Camsis>, a: Camsis, b: Camsis) {
    && run != [] && run[0] == a && run[|run| - 1] == b
    && forall k | 0 < k < |run| :: NextCamsis(p, run[k - 1], run[k])
  }

  /** The same, kept folded: the argument n does not matter. */
  ghost predicate FoldedRun(p: Proof, run: seq<Camsis>, a: Camsis, b: Camsis, n: nat)
    decreases n
  {
    if n == 0 then CamsisRun(p, run, a, b) else FoldedRun(p, run, a, b, n - 1)
  }

  ghost predicate RunsTo(p: Proof, run: seq<Camsis>, a: Camsis, b: Camsis) {
    FoldedRun(p, run, a, b, |p.clauses|)
  }

  lemma {:induction false} RunUnfold(p: Proof, run: seq<Camsis>, a: Camsis, b: Camsis, n: nat)
    ensures FoldedRun(p, run, a, b, n) <==> CamsisRun(p, run, a, b)
    decreases n
  {
    if n > 0 {
      RunUnfold(p, run, a, b, n - 1);
    }
  }

  lemma RunStart(p: Proof, a: Camsis)
    ensures RunsTo(p, [a], a, a)
  {
    RunUnfold(p, [a], a, a, |p.clauses|);
  }

  lemma RunMore(p: Proof, run: seq<Camsis>, a: Camsis, b: Camsis, x: set<ClauseID>, news: seq<Listed>, c: Camsis)
    requires RunsTo(p, run, a, b) && Extracts(p, b, x, news, c)
    ensures RunsTo(p, run + [c], a, c)
  {
    RunUnfold(p, run, a, b, |p.clauses|);
    var more := run + [c];
    forall k | 0 < k < |more|
      ensures NextCamsis(p, more[k - 1], more[k])
    {
      if k < |run| {
        assert more[k] == run[k] && more[k - 1] == run[k - 1];
      }
    }
    RunUnfold(p, more, a, c, |p.clauses|);
  }

  class CamsisMinimizer {
    const p: Proof
    const cons: ConsecutionChecker
    const finder: CollapseSetFinder
    const abstractionRefinement: bool
    var clauses: seq<SeedClause>
    var proofs: seq<set<ClauseID>>
    /** Empty while no minimum proof is known. */
    var minimumProof: set<ClauseID>

    ghost predicate Valid()
      reads this, finder, finder.pbo, finder.pbo.vm, finder.pbo.solver, finder.pbo.cardinality
    {
      && cons.p == p && finder.p == p && finder.Valid() && Selectable(p)
      && CamsisFolded(p, clauses, proofs, finder.found, minimumProof, |p.clauses|)
    }

    lemma ValidIs()
      requires cons.p == p && finder.p == p && finder.Valid() && Selectable(p)
      ensures Valid() <==> CamsisOk(p, clauses, proofs, finder.found) && Inductive(p, p.All())
                           && MinimumOk(p, proofs, minimumProof)
    {
      CamsisUnfold(p, clauses, proofs, finder.found, minimumProof, |p.clauses|);
    }

    constructor (vm: VariableManager, p: Proof, abstractionRefinement: bool)
      requires p.Valid() && Inductive(p, p.All())
      requires vm.Valid() && PlainProof(p) && Selectable(p) && forall x | x in p.tr.Vars() :: x < vm.nextID
      modifies vm
      ensures Valid() && fresh(cons) && fresh(finder) && this.p == p && proofs == [] && finder.pbo.vm == vm
      ensures fresh(finder.pbo) && fresh(finder.pbo.solver) && fresh(finder.pbo.cardinality)
      ensures this.abstractionRefinement == abstractionRefinement
      ensures State() == Camsis([SeedClause({p.property}, {})], [], [], {})
    {
      this.p, this.abstractionRefinement := p, abstractionRefinement;
      cons := new ConsecutionChecker(p);
      finder := new CollapseSetFinder(vm, p);
      clauses, proofs, minimumProof := [SeedClause({p.property}, {})], [], {};
      new;
      MapStart(p, {p.property}, clauses);
      assert Recorded(proofs) == {};
      ValidIs();
    }

    ghost function State(): Camsis
      reads this, finder
    {
      Camsis(clauses, proofs, finder.found, minimumProof)
    }

    /** blockMSIS and recordMSIS */
    method Record(msis: set<ClauseID>)
      requires Valid() && IsMinimum(p.All(), clauses, msis) && Inductive(p, msis)
      modifies this
      ensures Valid() && Extracts(p, old(State()), msis, [], State())
      ensures |Seeds(p.All(), clauses)| < old(|Seeds(p.All(), clauses)|)
    {
      RecordKeeps(p, clauses, proofs, finder.found, minimumProof, msis);
      clauses := clauses + [UpClause(msis)];
      if |proofs| == 0 {
        minimumProof := msis;
      }
      proofs := proofs + [msis];
    }

    /** attemptRefinement: did c have a collapse set that was not listed? */
    method AttemptRefinement(c: ClauseID) returns (refined: bool, ghost listed: Listed)
      requires Valid() && c < |p.clauses|
      modifies this`clauses, finder, finder.pbo, finder.pbo.vm, finder.pbo.solver, finder.pbo.cardinality
      ensures Valid()
      ensures refined <==> !NothingToList(p, old(finder.found), c)
      ensures !refined ==> finder.found == old(finder.found) && clauses == old(clauses)
      ensures refined ==> listed.id == c && NextListed(p, old(finder.found), listed)
      ensures refined ==> finder.found == old(finder.found) + [listed]
      ensures refined ==> clauses == old(clauses) + [CollapseClause(listed.id, listed.collapse)]
    {
      CamsisInductive(p, clauses, proofs, finder.found, minimumProof);
      ghost var before := finder.found;
      var collapse;
      refined, collapse := finder.FindAndBlock(c);
      listed := Listed(c, collapse);
      NextIsListed(p, before, c, refined, collapse);
      if refined {
        ListingKeeps(p, clauses, proofs, before, minimumProof, c, listed);
        clauses := clauses + [CollapseClause(c, collapse)];
      }
    }

    method DoMinimize() returns (ghost start: Camsis, ghost run: seq<Camsis>)
      requires Valid()
      modifies this, cons, finder, finder.pbo, finder.pbo.vm, finder.pbo.solver, finder.pbo.cardinality
      ensures Valid()
      ensures forall x :: x in proofs <==> MinimalSafe(p, x, {p.property})
      ensures InOrder(proofs) && MinimumOk(p, proofs, minimumProof)
      ensures RunsTo(p, run, start, State())
      ensures abstractionRefinement ==> start == old(State())
      ensures !abstractionRefinement ==> AllListed(p, old(State()), start)
    {
      if abstractionRefinement {
        start := State();
        run := AbstractionRefinementMinimize();
      } else {
        start, run := NaiveMinimize();
      }
      ValidIs();
    }

    method AbstractionRefinementMinimize() returns (ghost run: seq<Camsis>)
      requires Valid()
      modifies this, cons, finder, finder.pbo, finder.pbo.vm, finder.pbo.solver, finder.pbo.cardinality
      ensures Valid() && RunsTo(p, run, old(State()), State())
      ensures forall x :: x in proofs <==> MinimalSafe(p, x, {p.property})
    {
      run := [State()];
      RunStart(p, State());
      while true
        invariant Valid() && RunsTo(p, run, old(State()), State())
        decreases |Unlisted(p, finder.found)| + |Seeds(p.All(), clauses)|
      {
        ghost var before := State();
        var sat, candidate := FindMinimum(|p.clauses|, clauses);
        if !sat {
          EverythingRecorded();
          return;
        }
        ghost var news := TryCandidate(candidate);
        RunMore(p, run, old(State()), before, candidate, news, State());
        run := run + [State()];
      }
    }

    /** A candidate is recorded, or refined away. */
    method TryCandidate(candidate: set<ClauseID>) returns (ghost news: seq<Listed>)
      requires Valid() && IsMinimum(p.All(), clauses, candidate)
      modifies this, cons, finder, finder.pbo, finder.pbo.vm, finder.pbo.solver, finder.pbo.cardinality
      ensures Valid() && Extracts(p, old(State()), candidate, news, State())
      ensures |Unlisted(p, finder.found)| + |Seeds(p.All(), clauses)|
              < old(|Unlisted(p, finder.found)| + |Seeds(p.All(), clauses)|)
    {
      finder.CircuitKnown();
      var sis, unsupported := IsSis(cons, candidate);
      NoneUnsupported(p, candidate);
      if sis {
        Record(candidate);
        news := [];
      } else {
        assert unsupported == UnsupportedIn(p, candidate);
        news := Refine(candidate, unsupported);
      }
    }

    /** Refines with every unsupported clause; each attempt succeeds. */
    method Refine(ghost candidate: set<ClauseID>, unsupported: set<ClauseID>) returns (ghost news: seq<Listed>)
      requires Valid() && candidate <= p.All() && Unexplored(candidate, clauses)
      requires unsupported == UnsupportedIn(p, candidate) && unsupported != {}
      modifies this`clauses, finder, finder.pbo, finder.pbo.vm, finder.pbo.solver, finder.pbo.cardinality
      ensures Valid() && Listing(p, old(finder.found), unsupported, news)
      ensures finder.found == old(finder.found) + news && clauses == old(clauses) + CollapseClauses(news)
      ensures |Unlisted(p, finder.found)| < old(|Unlisted(p, finder.found)|)
      ensures |Seeds(p.All(), clauses)| <= old(|Seeds(p.All(), clauses)|)
    {
      ghost var found, before := finder.found, clauses;
      EachHasMore(candidate);
      news := [];
      var rest := unsupported;
      NoneListed(p, found, unsupported);
      while rest != {}
        invariant Valid() && rest <= unsupported && ListedFrom(p, found, unsupported, rest, news)
        invariant finder.found == found + news && clauses == before + CollapseClauses(news)
        decreases rest
      {
        var c :| c in rest;
        StillToList(p, found, unsupported, rest, news, c);
        ghost var listed;
        var refined;
        refined, listed := AttemptRefinement(c);
        assert refined;
        OneMore(p, found, before, unsupported, rest, news, listed);
        news := news + [listed];
        rest := rest - {c};
      }
      RefinedFewer(p, found, before, unsupported, {}, news);
      ListedAll(p, found, unsupported, news);
    }

    lemma EachHasMore(candidate: set<ClauseID>)
      requires Valid() && candidate <= p.All() && Unexplored(candidate, clauses)
      ensures forall c | c in UnsupportedIn(p, candidate) :: !NothingToList(p, finder.found, c)
    {
      ValidIs();
      forall c | c in UnsupportedIn(p, candidate)
        ensures !NothingToList(p, finder.found, c)
      {
        SomethingToList(p, finder.found, clauses, candidate, c);
      }
    }

    lemma EverythingRecorded()
      requires Valid() && forall t: set<ClauseID> | t <= p.All() :: !Unexplored(t, clauses)
      ensures forall x :: x in proofs <==> MinimalSafe(p, x, {p.property})
    {
      ValidIs();
      AllRecorded(p, {p.property}, clauses, Recorded(proofs));
    }

    method NaiveMinimize() returns (ghost start: Camsis, ghost run: seq<Camsis>)
      requires Valid()
      modifies this, cons, finder, finder.pbo, finder.pbo.vm, finder.pbo.solver, finder.pbo.cardinality
      ensures Valid() && AllListed(p, old(State()), start) && RunsTo(p, run, start, State())
      ensures forall x :: x in proofs <==> MinimalSafe(p, x, {p.property})
    {
      for c := 0 to |p.clauses|
        invariant Valid() && ListedBelow(p, finder.found, c)
        invariant proofs == old(proofs) && minimumProof == old(minimumProof) && old(finder.found) <= finder.found
        invariant clauses == old(clauses) + CollapseClauses(finder.found[|old(finder.found)|..])
      {
        ghost var found := finder.found;
        ListAll(c, old(finder.found), old(clauses));
        ListedBelowNext(p, found, finder.found, c);
      }
      start := State();
      run := ExtractAll();
    }

    /** With every collapse set listed, all candidates are recorded. */
    method ExtractAll() returns (ghost run: seq<Camsis>)
      requires Valid() && ListedBelow(p, finder.found, |p.clauses|)
      modifies this
      ensures Valid() && RunsTo(p, run, old(State()), State())
      ensures forall x :: x in proofs <==> MinimalSafe(p, x, {p.property})
    {
      run := [State()];
      RunStart(p, State());
      while true
        invariant Valid() && RunsTo(p, run, old(State()), State())
        decreases |Seeds(p.All(), clauses)|
      {
        ghost var before := State();
        var sat, msis := FindMinimum(|p.clauses|, clauses);
        if !sat {
          EverythingRecorded();
          return;
        }
        ValidIs();
        FullyRefined(p, finder.found, clauses, msis);
        Record(msis);
        RunMore(p, run, old(State()), before, msis, [], State());
        run := run + [State()];
      }
    }

    /** Lists every minimal collapse set of one clause. */
    method ListAll(c: ClauseID, ghost found: seq<Listed>, ghost before: seq<SeedClause>)
      requires Valid() && c < |p.clauses| && found <= finder.found
      requires clauses == before + CollapseClauses(finder.found[|found|..])
      modifies this`clauses, finder, finder.pbo, finder.pbo.vm, finder.pbo.solver, finder.pbo.cardinality
      ensures Valid()
      ensures forall k | MinimalCollapse(p, c, k) :: IsListed(finder.found, c, k)
      ensures old(finder.found) <= finder.found
      ensures clauses == before + CollapseClauses(finder.found[|found|..])
    {
      while true
        invariant Valid() && old(finder.found) <= finder.found
        invariant clauses == before + CollapseClauses(finder.found[|found|..])
        decreases |Unlisted(p, finder.found)|
      {
        ghost var now := finder.found;
        ghost var listed;
        var refined;
        refined, listed := AttemptRefinement(c);
        if !refined {
          return;
        }
        UnlistedShrinks(p, now, c, listed.collapse);
        CollapseClausesMore(now[|found|..], listed);
        assert finder.found[|found|..] == now[|found|..] + [listed];
      }
    }
  }

  /** Every minimal collapse set of every clause is listed, and nothing else happened. */
  ghost predicate AllListed(p: Proof, a: Camsis, b: Camsis) {
    && ListedBelow(p, b.found, |p.clauses|) && a.found <= b.found && b.proofs == a.proofs && b.minimum == a.minimum
    && b.clauses == a.clauses + CollapseClauses(b.found[|a.found|..])
  }

  /** Sets listed for other clauses do not matter. */
  lemma StillToList(p: Proof, found: seq<Listed>, unsupported: set<ClauseID>, rest: set<ClauseID>, news: seq<Listed>,
                    c: ClauseID)
    requires c < |p.clauses| && c in rest && ListedFrom(p, found, unsupported, rest, news)
    requires !NothingToList(p, found, c)
    ensures !NothingToList(p, found + news, c)
  {
    if NothingToList(p, found + news, c) {
      NothingListed(p, found, unsupported, rest, news, c);
    }
  }

  /** isSIS: which clauses of the candidate does it not support? */
  method IsSis(cons: ConsecutionChecker, candidate: set<ClauseID>) returns (sis: bool, unsupported: set<ClauseID>)
    requires candidate <= cons.p.All() && cons.p.tr.WellFormed()
    modifies cons
    ensures unsupported <= candidate && sis == (unsupported == {})
    ensures forall c | c in candidate && c < |cons.p.clauses| :: c in unsupported <==> !Supports(cons.p, candidate, c)
    ensures sis <==> Inductive(cons.p, candidate)
  {
    unsupported := {};
    var rest := candidate;
    while rest != {}
      invariant rest <= candidate && unsupported <= candidate - rest
      invariant forall c | c in candidate - rest && c < |cons.p.clauses| ::
        c in unsupported <==> !Supports(cons.p, candidate, c)
      decreases rest
    {
      var c :| c in rest;
      var supported, v := cons.Solve(candidate, c);
      if !supported {
        unsupported := unsupported + {c};
      }
      rest := rest - {c};
    }
    sis := unsupported == {};
    assert forall c | c in unsupported :: c in candidate && c < |cons.p.clauses|;
  }
}
