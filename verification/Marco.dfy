/** MARCO: all minimal safe inductive subsets of a proof, from a map of
    unexplored clause sets (src/pme/minimization/marco.cpp). */
module MarcoMinimizers {
  import opened Collections
  import opened Cubes
  import opened Ids
  import opened ProofSets
  import opened PropertyCopies
  import opened SeedMaps
  import opened SeedSolvers
  import opened VariableManagers
  import opened CollapseSets
  import opened CollapseFinders
  import opened ConsecutionCheckers
  import opened FindSafeMises
  import opened CollapseListings
  import opened CamsisMinimizers
  import opened MarcoRuns

  /** What the enumeration has learnt. Empty sets stand for unknown proofs. */
  datatype Progress = Progress(clauses: seq<SeedClause>, proofs: seq<set<ClauseID>>, smallest: set<ClauseID>,
                               minimum: set<ClauseID>, lowerBound: nat, found: seq<Listed>)

  ghost predicate Distinct(proofs: seq<set<ClauseID>>) {
    forall i, j | 0 <= i < j < |proofs| :: proofs[i] != proofs[j]
  }

  /** The smallest proof recorded so far. */
  ghost predicate SmallestOk(proofs: seq<set<ClauseID>>, smallest: set<ClauseID>) {
    if proofs == [] then smallest == {} else smallest in proofs && forall x | x in proofs :: |smallest| <= |x|
  }

  ghost predicate SmallestOfAll(p: Proof, x: set<ClauseID>) {
    MinimalSafe(p, x, {p.property}) && forall y | MinimalSafe(p, y, {p.property}) :: |x| <= |y|
  }

  /** No larger than any minimal safe inductive subset; with minimum seeds, than any
      of them with all copies of the property. */
  ghost predicate SmallestFor(p: Proof, o: Options, x: set<ClauseID>) {
    && (KindOk(p, true, x) || KindOk(p, false, x)) && (!o.up ==> KindOk(p, false, x))
    && forall y | MinimalSafe(p, y, {p.property}) :: |x| <= if o.up then |y + Copies(p)| else |y|
  }

  lemma SmallestExactly(p: Proof, o: Options, x: set<ClauseID>)
    requires p.Valid() && SmallestFor(p, o, x) && (OccursOnce(p) || !o.up)
    ensures SmallestOfAll(p, x)
  {
    forall y | MinimalSafe(p, y, {p.property})
      ensures |x| <= |y|
    {
      if OccursOnce(p) {
        OnceAddsNothing(p, y);
      }
    }
  }

  ghost predicate LowerBoundOk(all: set<ClauseID>, clauses: seq<SeedClause>, lowerBound: nat) {
    forall s: set<ClauseID> | s <= all && Unexplored(s, clauses) :: lowerBound <= |s|
  }

  ghost function LoopOf(s: Progress): Loop {
    Loop(s.clauses, s.proofs, s.found, 0)
  }

  ghost predicate Sensible(p: Proof, o: Options, s: Progress) {
    && LoopOk(p, LoopOf(s)) && AllKinds(p, s.proofs) && (!o.up ==> AllMinimal(p, s.proofs) && s.lowerBound == 0)
    && SmallestOk(s.proofs, s.smallest) && LowerBoundOk(p.All(), s.clauses, s.lowerBound)
    && (s.minimum != {} ==> SmallestFor(p, o, s.minimum))
    && ListOk(p, s.found) && Inductive(p, p.All())
  }

  /** The same, kept folded: the argument n does not matter. */
  ghost predicate FoldedProgress(p: Proof, o: Options, s: Progress, n: nat)
    decreases n
  {
    if n == 0 then Sensible(p, o, s) else FoldedProgress(p, o, s, n - 1)
  }

  ghost predicate ProgressOk(p: Proof, o: Options, s: Progress) {
    FoldedProgress(p, o, s, |p.clauses|)
  }

  lemma {:induction false} UnfoldProgress(p: Proof, o: Options, s: Progress, n: nat)
    ensures FoldedProgress(p, o, s, n) <==> Sensible(p, o, s)
    decreases n
  {
    if n > 0 {
      UnfoldProgress(p, o, s, n - 1);
    }
  }

  lemma ProgressOkIs(p: Proof, o: Options, s: Progress)
    ensures ProgressOk(p, o, s) <==> Sensible(p, o, s)
  {
    UnfoldProgress(p, o, s, |p.clauses|);
  }

  lemma LowerBoundMore(all: set<ClauseID>, clauses: seq<SeedClause>, lowerBound: nat, cls: SeedClause)
    requires LowerBoundOk(all, clauses, lowerBound)
    ensures LowerBoundOk(all, clauses + [cls], lowerBound)
  {
    forall s: set<ClauseID> | s <= all && Unexplored(s, clauses + [cls])
      ensures lowerBound <= |s|
    {
      UnexploredMore(s, clauses, cls);
    }
  }

  /** A minimum unexplored set gives the lower bound. */
  lemma NewLowerBound(p: Proof, o: Options, s: Progress, seed: set<ClauseID>)
    requires ProgressOk(p, o, s) && IsMinimum(p.All(), s.clauses, seed) && o.up
    ensures s.lowerBound <= |seed| && ProgressOk(p, o, s.(lowerBound := |seed|))
  {
    ProgressOkIs(p, o, s);
    ProgressOkIs(p, o, s.(lowerBound := |seed|));
  }

  lemma NoLarger(x: set<ClauseID>, y: set<ClauseID>)
    ensures |x| <= |x + y|
  {
    SubsetSize(x, x + y);
  }

  /** A recorded proof that is no larger than the lower bound is a minimum. */
  lemma BoundMeetsSmallest(p: Proof, o: Options, s: Progress)
    requires ProgressOk(p, o, s) && s.smallest != {} && |s.smallest| <= s.lowerBound
    ensures ProgressOk(p, o, s.(minimum := s.smallest))
  {
    ProgressOkIs(p, o, s);
    forall y | MinimalSafe(p, y, {p.property})
      ensures |s.smallest| <= |y + Copies(p)|
    {
      MinimalWithCopies(p, y);
      if y + Copies(p) in Lifted(p, s.proofs) {
        var r :| r in s.proofs && r + Copies(p) == y + Copies(p);
        NoLarger(r, Copies(p));
      } else {
        assert Unexplored(y + Copies(p), s.clauses) && y + Copies(p) <= p.All();
      }
    }
    ProgressOkIs(p, o, s.(minimum := s.smallest));
  }

  /** blockUp and the bookkeeping of updateProofs. */
  function WithProof(s: Progress, x: set<ClauseID>): Progress {
    s.(clauses := s.clauses + [UpClause(x)], proofs := s.proofs + [x],
       smallest := if s.smallest == {} || |x| < |s.smallest| then x else s.smallest)
  }

  lemma ProofFound(p: Proof, o: Options, s: Progress, minimum: bool, x: set<ClauseID>, seed: set<ClauseID>)
    requires ProgressOk(p, o, s) && KindOk(p, minimum, x) && (minimum ==> o.up)
    requires x <= seed <= p.All() && Unexplored(seed, s.clauses)
    ensures x !in s.proofs && x != {} && ProgressOk(p, o, WithProof(s, x))
    ensures |Seeds(p.All(), s.clauses + [UpClause(x)])| < |Seeds(p.All(), s.clauses)|
  {
    ProgressOkIs(p, o, s);
    KindLifted(p, minimum, x);
    ProofMapped(p, s.clauses, s.proofs, minimum, x, seed);
    KindsNext(p, o, s.proofs, minimum, x);
    LowerBoundMore(p.All(), s.clauses, s.lowerBound, UpClause(x));
    SmallestNext(p, s, x);
    RefinedMore(s.found, s.clauses, UpClause(x));
    ProgressOkIs(p, o, WithProof(s, x));
  }

  lemma RefinedMore(found: seq<Listed>, clauses: seq<SeedClause>, cls: SeedClause)
    requires Refined(found, clauses)
    ensures Refined(found, clauses + [cls])
  {
  }

  lemma KindsNext(p: Proof, o: Options, proofs: seq<set<ClauseID>>, minimum: bool, x: set<ClauseID>)
    requires AllKinds(p, proofs) && (!o.up ==> AllMinimal(p, proofs)) && KindOk(p, minimum, x) && (minimum ==> o.up)
    ensures AllKinds(p, proofs + [x]) && (!o.up ==> AllMinimal(p, proofs + [x]))
  {
    assert forall y | y in proofs + [x] :: y in proofs || y == x;
  }

  lemma HasProperty(p: Proof, proofs: seq<set<ClauseID>>, x: set<ClauseID>)
    requires p.Valid() && AllKinds(p, proofs) && x in proofs
    ensures p.property in x
  {
    KindLifted(p, KindOk(p, true, x), x);
  }

  lemma SmallestNext(p: Proof, s: Progress, x: set<ClauseID>)
    requires p.Valid() && SmallestOk(s.proofs, s.smallest) && AllKinds(p, s.proofs) && p.property in x
    ensures SmallestOk(WithProof(s, x).proofs, WithProof(s, x).smallest)
  {
    if s.proofs != [] {
      HasProperty(p, s.proofs, s.smallest);
    }
    assert forall y | y in s.proofs + [x] :: y in s.proofs || y == x;
  }

  /** Blocking downwards a set that has no safe subset. */
  lemma SeedBlocked(p: Proof, o: Options, s: Progress, mss: set<ClauseID>, seed: set<ClauseID>)
    requires ProgressOk(p, o, s) && !HasSafe(p, mss, {p.property})
    requires seed <= mss && seed <= p.All() && Unexplored(seed, s.clauses)
    ensures ProgressOk(p, o, s.(clauses := s.clauses + [DownClause(p.All(), mss)]))
    ensures |Seeds(p.All(), s.clauses + [DownClause(p.All(), mss)])| < |Seeds(p.All(), s.clauses)|
  {
    ProgressOkIs(p, o, s);
    var cls := DownClause(p.All(), mss);
    BlockedMapped(p, s.clauses, Lifted(p, s.proofs), mss);
    DownBlocks(p.All(), mss, seed);
    SeedsShrink(p.All(), s.clauses, cls, seed);
    LowerBoundMore(p.All(), s.clauses, s.lowerBound, cls);
    ProgressOkIs(p, o, s.(clauses := s.clauses + [cls]));
  }

  /** A listed collapse set becomes a clause. */
  lemma Collapsed(p: Proof, o: Options, s: Progress, c: ClauseID, k: set<ClauseID>)
    requires ProgressOk(p, o, s) && c < |p.clauses| && MinimalCollapse(p, c, k)
    requires ListOk(p, s.found + [Listed(c, k)])
    ensures ProgressOk(p, o, s.(clauses := s.clauses + [CollapseClause(c, k)], found := s.found + [Listed(c, k)]))
  {
    ProgressOkIs(p, o, s);
    var cls := CollapseClause(c, k);
    CollapseMapped(p, s.clauses, Lifted(p, s.proofs), c, k);
    LowerBoundMore(p.All(), s.clauses, s.lowerBound, cls);
    ProgressOkIs(p, o, s.(clauses := s.clauses + [cls], found := s.found + [Listed(c, k)]));
  }

  lemma ProgressInductive(p: Proof, o: Options, s: Progress)
    requires ProgressOk(p, o, s)
    ensures Inductive(p, p.All())
  {
    ProgressOkIs(p, o, s);
  }

  lemma CollapsedOk(p: Proof, o: Options, s: Progress, c: ClauseID, k: set<ClauseID>)
    requires ProgressOk(p, o, s) && NextListed(p, s.found, Listed(c, k))
    ensures ProgressOk(p, o, s.(clauses := s.clauses + [CollapseClause(c, k)], found := s.found + [Listed(c, k)]))
  {
    ProgressOkIs(p, o, s);
    ListNext(p, s.found, c, k);
    Collapsed(p, o, s, c, k);
  }

  /** When nothing is unexplored, everything is recorded. */
  lemma Finished(p: Proof, o: Options, s: Progress)
    requires ProgressOk(p, o, s) && Exhausted(p, LoopOf(s))
    ensures p.Valid() && s.proofs != [] && RecordsLifted(p, s.proofs)
    ensures s.minimum != {} ==> SmallestFor(p, o, s.minimum)
  {
    ProgressOkIs(p, o, s);
    SomethingRecorded(p, LoopOf(s));
    KindsLifted(p, LoopOf(s));
  }

  /** Each once; and exactly the minimal safe inductive subsets, unless minimum seeds
      have further copies of the property. */
  lemma FinishedExactly(p: Proof, o: Options, s: Progress)
    requires ProgressOk(p, o, s) && Exhausted(p, LoopOf(s))
    ensures Distinct(s.proofs) && (!o.up || OccursOnce(p) ==> RecordsMinimal(p, s.proofs))
  {
    ProgressOkIs(p, o, s);
    if !o.up || OccursOnce(p) {
      ExactWithout(p, LoopOf(s));
    }
  }

  /** And the smallest proof is a minimum. */
  lemma FinishedSmallest(p: Proof, o: Options, s: Progress)
    requires ProgressOk(p, o, s) && s.proofs != [] && RecordsLifted(p, s.proofs)
    requires !o.up ==> RecordsMinimal(p, s.proofs)
    ensures s.smallest != {} && SmallestFor(p, o, s.smallest)
  {
    ProgressOkIs(p, o, s);
    HasProperty(p, s.proofs, s.smallest);
    SmallestFits(p, o, s);
  }

  lemma StartProgress(p: Proof, o: Options)
    requires p.Valid() && Inductive(p, p.All()) && ListOk(p, [])
    ensures ProgressOk(p, o, Progress(Start(p).clauses, [], {}, {}, 0, []))
  {
    StartOk(p);
    ProgressOkIs(p, o, Progress(Start(p).clauses, [], {}, {}, 0, []));
  }

  lemma SmallestFits(p: Proof, o: Options, s: Progress)
    requires Sensible(p, o, s) && s.proofs != [] && RecordsLifted(p, s.proofs)
    requires !o.up ==> RecordsMinimal(p, s.proofs)
    ensures SmallestFor(p, o, s.smallest)
  {
    forall y | MinimalSafe(p, y, {p.property})
      ensures |s.smallest| <= |y + Copies(p)|
    {
      NoLarger(y, Copies(p));
    }
  }

  class MarcoMinimizer {
    const p: Proof
    const cons: ConsecutionChecker
    const finder: CollapseSetFinder
    const o: Options
    var clauses: seq<SeedClause>
    var proofs: seq<set<ClauseID>>
    var smallestProof: set<ClauseID>
    var minimumProof: set<ClauseID>
    var seedCount: nat
    var lowerBound: nat

    ghost function State(): Progress
      reads this, finder
    {
      Progress(clauses, proofs, smallestProof, minimumProof, lowerBound, finder.found)
    }

    ghost predicate Valid()
      reads this, finder, finder.pbo, finder.pbo.vm, finder.pbo.solver, finder.pbo.cardinality
    {
      cons.p == p && finder.p == p && finder.Valid() && Selectable(p) && ProgressOk(p, o, State())
    }

    /** The part of the state that decides what the loop does. */
    ghost function LoopState(): Loop
      reads this, finder
    {
      Loop(clauses, proofs, finder.found, seedCount)
    }

    constructor (vm: VariableManager, p: Proof, o: Options)
      requires p.Valid() && Inductive(p, p.All())
      requires vm.Valid() && PlainProof(p) && Selectable(p) && forall x | x in p.tr.Vars() :: x < vm.nextID
      modifies vm
      ensures Valid() && fresh(cons) && fresh(finder) && this.p == p && this.o == o && LoopState() == Start(p)
      ensures finder.pbo.vm == vm && fresh(finder.pbo) && fresh(finder.pbo.solver) && fresh(finder.pbo.cardinality)
    {
      this.p, this.o := p, o;
      cons := new ConsecutionChecker(p);
      finder := new CollapseSetFinder(vm, p);
      clauses, proofs, smallestProof, minimumProof := [], [], {}, {};
      seedCount, lowerBound := 0, 0;
      new;
      InitSolvers();
      StartProgress(p, o);
    }

    /** initSolvers: every copy of the property is always selected. */
    method InitSolvers()
      requires clauses == []
      modifies this`clauses
      ensures clauses == Start(p).clauses
    {
      for id := 0 to |p.clauses|
        invariant clauses == Units(p, id)
      {
        if p.clauses[id] == [Negate(p.tr.bad)] {
          clauses := clauses + [SeedClause({id}, {})];
        }
      }
    }

    method GetUnexploredMin() returns (sat: bool, seed: set<ClauseID>)
      requires Valid() && o.up
      modifies this`seedCount, this`lowerBound, this`minimumProof
      ensures Valid() && seedCount == old(seedCount) + if sat then 1 else 0
      ensures sat ==> IsMinimum(p.All(), clauses, seed)
      ensures !sat ==> forall t: set<ClauseID> | t <= p.All() :: !Unexplored(t, clauses)
    {
      sat, seed := FindMinimum(|p.clauses|, clauses);
      if sat {
        seedCount := seedCount + 1;
        NewLowerBound(p, o, State(), seed);
        assert |seed| >= lowerBound;
        lowerBound := |seed|;
        if minimumProof == {} && smallestProof != {} && |smallestProof| <= lowerBound {
          BoundMeetsSmallest(p, o, State());
          minimumProof := smallestProof;
        }
      }
    }

    method GetUnexplored() returns (sat: bool, seed: set<ClauseID>)
      requires Valid()
      modifies this`seedCount, this`lowerBound, this`minimumProof
      ensures Valid() && seedCount == old(seedCount) + if sat then 1 else 0
      ensures sat ==> Picked(p, o, old(LoopState()), seed)
      ensures !sat ==> forall t: set<ClauseID> | t <= p.All() :: !Unexplored(t, clauses)
    {
      if TakesMinimum(o, seedCount) {
        sat, seed := GetUnexploredMin();
      } else if TakesMaximum(o, seedCount) {
        sat, seed := FindMaximum(|p.clauses|, clauses);
        seedCount := if sat then seedCount + 1 else seedCount;
      } else {
        sat, seed := FindAny(|p.clauses|, clauses);
        seedCount := if sat then seedCount + 1 else seedCount;
      }
    }

    /** findSIS */
    method FindSis(seed: set<ClauseID>) returns (found: bool, mis: set<ClauseID>)
      requires cons.p == p && p.tr.WellFormed() && seed <= p.All()
      modifies cons
      ensures found <==> HasSafe(p, seed, {p.property})
      ensures found ==> mis == Greatest(p, seed) && SafeInductive(p, mis, {p.property})
    {
      var sorted := SortLits(seed);
      assert SetOf(sorted) == seed;
      var vec;
      found, vec := FindSafeMis(cons, sorted, {p.property});
      mis := SetOf(vec);
      if found {
        GreatestIs(p, seed, mis);
      }
    }

    /** grow: adds clauses while no safe inductive subset appears. */
    method Grow(seed: set<ClauseID>) returns (mss: set<ClauseID>)
      requires cons.p == p && p.tr.WellFormed() && seed <= p.All() && !HasSafe(p, seed, {p.property})
      modifies cons
      ensures seed <= mss <= p.All() && !HasSafe(p, mss, {p.property})
      ensures forall id | id in p.All() && id !in mss :: HasSafe(p, mss + {id}, {p.property})
      ensures mss == Grown(p, seed, 0)
    {
      mss := seed;
      for id := 0 to |p.clauses|
        invariant Grown(p, mss, id) == Grown(p, seed, 0)
        invariant seed <= mss <= p.All() && !HasSafe(p, mss, {p.property})
      {
        if id in seed {
          assert mss + {id} == mss;
        } else {
          var found, mis := FindSis(mss + {id});
          if !found {
            mss := mss + {id};
          }
        }
      }
      GrownMaximal(p, seed, 0);
    }

    /** shrink: drops clauses while a safe inductive subset remains. */
    method Shrink(seed: set<ClauseID>) returns (mis: set<ClauseID>)
      requires cons.p == p && p.tr.WellFormed() && SafeInductive(p, seed, {p.property})
      modifies cons
      ensures mis <= seed && MinimalSafe(p, mis, {p.property}) && mis == Shrunk(p, seed, 0)
    {
      var copy := SortLits(seed);
      assert SetOf(copy) == seed;
      var i: nat := 0;
      ghost var from: ClauseID := 0;
      while i < |copy|
        invariant Shrinking(p, seed, copy, i, from)
        decreases |copy| - i
      {
        var id := copy[i];
        if id == p.property {
          ShrinkKeeps(p, seed, copy, i, from);
          i, from := i + 1, id + 1;
          continue;
        }
        IdsInside(p, copy, id);
        var found, test := FindSis(SetOf(copy) - {id});
        if found {
          var less := SortLits(test);
          assert SetOf(less) == test;
          var next := UpperBound(less, id);
          ShrinkDrops(p, seed, copy, i, from, less, next);
          copy, i, from := less, next, id + 1;
        } else {
          ShrinkKeeps(p, seed, copy, i, from);
          i, from := i + 1, id + 1;
        }
      }
      mis := SetOf(copy);
      ShrunkEnds(p, copy, from);
      ShrunkMinimal(p, seed, 0);
    }

    /** collapseRefine: one new collapse set per unsupported clause. It fails
        if some clause has none left. */
    method CollapseRefine(unsupported: set<ClauseID>) returns (ok: bool, ghost news: seq<Listed>)
      requires Valid() && unsupported <= p.All()
      modifies this`clauses, finder, finder.pbo, finder.pbo.vm, finder.pbo.solver, finder.pbo.cardinality
      ensures Valid()
      ensures unsupported != {} && ok ==> |Unlisted(p, finder.found)| < old(|Unlisted(p, finder.found)|)
      ensures |Unlisted(p, finder.found)| <= old(|Unlisted(p, finder.found)|)
      ensures |Seeds(p.All(), clauses)| <= old(|Seeds(p.All(), clauses)|)
      ensures ok <==> forall c | c in unsupported && c < |p.clauses| :: !NothingToList(p, old(finder.found), c)
      ensures ok ==> Listing(p, old(finder.found), unsupported, news)
      ensures finder.found == old(finder.found) + news && clauses == old(clauses) + CollapseClauses(news)
    {
      ghost var found := finder.found;
      ok, news := true, [];
      var rest := unsupported;
      NoneListed(p, found, unsupported);
      while rest != {} && ok
        invariant Valid() && rest <= unsupported && ListedFrom(p, found, unsupported, rest, news)
        invariant finder.found == found + news && clauses == old(clauses) + CollapseClauses(news)
        invariant !ok ==> exists c | c in unsupported && c < |p.clauses| :: NothingToList(p, found, c)
        decreases rest, ok
      {
        var c :| c in rest;
        ok, news := CollapseNext(found, old(clauses), unsupported, rest, news, c);
        rest := if ok then rest - {c} else rest;
      }
      RefinedFewer(p, found, old(clauses), unsupported, rest, news);
      if ok {
        ListedAll(p, found, unsupported, news);
      }
    }

    method CollapseNext(ghost found: seq<Listed>, ghost before: seq<SeedClause>, ghost unsupported: set<ClauseID>,
                        ghost rest: set<ClauseID>, ghost news: seq<Listed>, c: ClauseID)
      returns (ok: bool, ghost more: seq<Listed>)
      requires Valid() && c in rest && rest <= unsupported <= p.All() && ListedFrom(p, found, unsupported, rest, news)
      requires finder.found == found + news && clauses == before + CollapseClauses(news)
      modifies this`clauses, finder, finder.pbo, finder.pbo.vm, finder.pbo.solver, finder.pbo.cardinality
      ensures Valid() && finder.found == found + more && clauses == before + CollapseClauses(more)
      ensures ListedFrom(p, found, unsupported, if ok then rest - {c} else rest, more)
      ensures !ok ==> c < |p.clauses| && NothingToList(p, found, c)
    {
      ghost var listed;
      ok, listed := CollapseOne(c);
      more := news;
      if ok {
        OneMore(p, found, before, unsupported, rest, news, listed);
        more := news + [listed];
      } else {
        NothingListed(p, found, unsupported, rest, news, c);
      }
    }

    method CollapseOne(c: ClauseID) returns (ok: bool, ghost listed: Listed)
      requires Valid() && c < |p.clauses|
      modifies this`clauses, finder, finder.pbo, finder.pbo.vm, finder.pbo.solver, finder.pbo.cardinality
      ensures Valid()
      ensures ok <==> !NothingToList(p, old(finder.found), c)
      ensures !ok ==> finder.found == old(finder.found) && clauses == old(clauses)
      ensures ok ==> listed.id == c && NextListed(p, old(finder.found), listed)
      ensures ok ==> finder.found == old(finder.found) + [listed]
      ensures ok ==> clauses == old(clauses) + [CollapseClause(listed.id, listed.collapse)]
    {
      ghost var s := State();
      ProgressInductive(p, o, s);
      var k;
      ok, k := finder.FindAndBlock(c);
      listed := Listed(c, k);
      NextIsListed(p, s.found, c, ok, k);
      if ok {
        CollapsedOk(p, o, s, c, k);
        clauses := clauses + [CollapseClause(c, k)];
      }
    }

    /** blockUp and updateProofs */
    method Record(mis: set<ClauseID>, ghost minimum: bool, ghost seed: set<ClauseID>)
      requires Valid() && KindOk(p, minimum, mis) && (minimum ==> o.up)
      requires mis <= seed <= p.All() && Unexplored(seed, clauses)
      modifies this
      ensures Valid() && mis !in old(proofs) && LoopState() == WithMinimal(old(LoopState()), mis).(count := seedCount)
      ensures seedCount == old(seedCount)
      ensures |Seeds(p.All(), clauses)| < old(|Seeds(p.All(), clauses)|)
    {
      ProofFound(p, o, State(), minimum, mis, seed);
      clauses := clauses + [UpClause(mis)];
      if smallestProof == {} || |mis| < |smallestProof| {
        smallestProof := mis;
      }
      proofs := proofs + [mis];
      assert Valid();
      if minimumProof == {} && |smallestProof| <= lowerBound {
        SmallestKnown(p, o, State());
        BoundMeetsSmallest(p, o, State());
        minimumProof := smallestProof;
      }
    }

    /** blockDown */
    method BlockDown(mss: set<ClauseID>, ghost seed: set<ClauseID>)
      requires Valid() && !HasSafe(p, mss, {p.property})
      requires seed <= mss && seed <= p.All() && Unexplored(seed, clauses)
      modifies this`clauses
      ensures Valid() && clauses == old(clauses) + [DownClause(p.All(), mss)]
      ensures |Seeds(p.All(), clauses)| < old(|Seeds(p.All(), clauses)|)
    {
      SeedBlocked(p, o, State(), mss, seed);
      clauses := clauses + [DownClause(p.All(), mss)];
    }

    /** The seed solver has just counted a seed for the state l. */
    ghost predicate AtSeed(l: Loop)
      reads this, finder
    {
      LoopState() == l.(count := l.count + 1)
    }

    /** A seed with no safe inductive subset: grown unless it is a maximum, and
        blocked downwards. */
    method BlockSeed(ghost l: Loop, seed: set<ClauseID>, maximum: bool) returns (mss: set<ClauseID>)
      requires Valid() && AtSeed(l) && maximum == TakesMaximum(o, l.count)
      requires seed <= p.All() && Unexplored(seed, clauses) && !HasSafe(p, seed, {p.property})
      modifies this`clauses, cons
      ensures Valid() && mss == Mss(p, o, l, seed) && seed <= mss <= p.All() && !HasSafe(p, mss, {p.property})
      ensures clauses == WithClauses(p, o, l, mss, []).clauses
      ensures |Seeds(p.All(), clauses)| <= old(|Seeds(p.All(), clauses)|)
      ensures o.mcs ==> |Seeds(p.All(), clauses)| < old(|Seeds(p.All(), clauses)|)
    {
      mss := seed;
      if o.mcs {
        if !maximum {
          finder.CircuitKnown();
          mss := Grow(seed);
        }
        BlockDown(mss, seed);
      }
    }

    /** The clauses that are not supported are known if the seed is a minimum,
        and are those of the set blocked if not. */
    method RefuteSeed(ghost l: Loop, seed: set<ClauseID>, minimum: bool, maximum: bool, known: set<ClauseID>)
      returns (ok: bool)
      requires Valid() && AtSeed(l) && minimum == TakesMinimum(o, l.count) && maximum == TakesMaximum(o, l.count)
      requires (o.mcs || o.collapse) && Picked(p, o, l, seed) && !FoundSis(p, o, l, seed)
      requires !HasSafe(p, seed, {p.property}) && p.property in seed
      requires minimum && o.collapse ==> known == UnsupportedIn(p, seed)
      modifies this`clauses, cons, finder, finder.pbo, finder.pbo.vm, finder.pbo.solver, finder.pbo.cardinality
      ensures Valid()
      ensures if ok then Goes(p, o, l, LoopState()) else Fails(p, o, l, seed)
      ensures ok ==> |Unlisted(p, finder.found)| + |Seeds(p.All(), clauses)|
                     < old(|Unlisted(p, finder.found)| + |Seeds(p.All(), clauses)|)
    {
      var mss := BlockSeed(l, seed, maximum);
      if o.collapse {
        var unsupported := known;
        if !minimum {
          var sis;
          finder.CircuitKnown();
          sis, unsupported := IsSis(cons, mss);
        }
        RefutedNonEmpty(p, o, l, seed, unsupported);
        ok := RefineSeed(l, seed, mss, unsupported);
      } else {
        ok := true;
        assert l.found + [] == l.found;
        GoesByRefuting(p, o, l, seed, [], LoopState());
      }
    }

    method RefineSeed(ghost l: Loop, ghost seed: set<ClauseID>, ghost mss: set<ClauseID>, unsupported: set<ClauseID>)
      returns (ok: bool)
      requires Valid() && clauses == WithClauses(p, o, l, mss, []).clauses
      requires proofs == l.proofs && finder.found == l.found && seedCount == l.count + 1
      requires Refuting(p, o, l, seed, mss, unsupported) && unsupported != {} && unsupported <= p.All()
      modifies this`clauses, finder, finder.pbo, finder.pbo.vm, finder.pbo.solver, finder.pbo.cardinality
      ensures Valid()
      ensures if ok then Goes(p, o, l, LoopState()) else Fails(p, o, l, seed)
      ensures ok ==> |Unlisted(p, finder.found)| < old(|Unlisted(p, finder.found)|)
      ensures |Seeds(p.All(), clauses)| <= old(|Seeds(p.All(), clauses)|)
    {
      ghost var news;
      ok, news := CollapseRefine(unsupported);
      if ok {
        GoesByRefining(p, o, l, seed, mss, unsupported, news, LoopState());
      } else {
        StuckOn(p, o, l, seed, mss, unsupported);
      }
    }

    /** A seed with a safe inductive subset: a new minimal one is recorded. */
    method ConfirmSeed(ghost l: Loop, seed: set<ClauseID>, minimum: bool, sis: set<ClauseID>)
      requires Valid() && AtSeed(l) && minimum == TakesMinimum(o, l.count)
      requires Picked(p, o, l, seed) && FoundSis(p, o, l, seed)
      requires if minimum then sis == seed && MinimalSafe(p, seed, Copies(p))
               else sis == Greatest(p, seed) && SafeInductive(p, sis, {p.property})
      modifies this, cons
      ensures Valid() && Goes(p, o, l, LoopState()) && finder.found == old(finder.found)
      ensures |Seeds(p.All(), clauses)| < old(|Seeds(p.All(), clauses)|)
    {
      var mis := sis;
      if !minimum {
        finder.CircuitKnown();
        mis := Shrink(sis);
      }
      Record(mis, minimum, seed);
      GoesByConfirming(p, o, l, seed, LoopState());
    }

    /** One seed: either a new minimal proof, or something to block. */
    method Explore(ghost l: Loop, seed: set<ClauseID>, minimum: bool, maximum: bool) returns (ok: bool)
      requires Valid() && AtSeed(l) && minimum == TakesMinimum(o, l.count) && maximum == TakesMaximum(o, l.count)
      requires (o.mcs || o.collapse) && Picked(p, o, l, seed)
      modifies this, cons, finder, finder.pbo, finder.pbo.vm, finder.pbo.solver, finder.pbo.cardinality
      ensures Valid()
      ensures if ok then Goes(p, o, l, LoopState()) else Fails(p, o, l, seed)
      ensures ok ==> |Unlisted(p, finder.found)| + |Seeds(p.All(), clauses)|
                     < old(|Unlisted(p, finder.found)| + |Seeds(p.All(), clauses)|)
    {
      SeedFacts(p, o, State(), seed, minimum);
      var found, mis, unsupported := false, seed, {};
      finder.CircuitKnown();
      if !minimum {
        found, mis := FindSis(seed);
      } else if o.collapse {
        found, unsupported := IsSis(cons, seed);
        assert unsupported == UnsupportedIn(p, seed);
      } else {
        var sorted := SortLits(seed);
        assert SetOf(sorted) == seed;
        found := cons.IsSafeInductive(sorted, {p.property});
      }
      if found {
        ConfirmSeed(l, seed, minimum, mis);
        ok := true;
      } else {
        ok := RefuteSeed(l, seed, minimum, maximum, unsupported);
      }
    }

    /** One round of doMinimize. */
    method NextSeed() returns (more: bool, ok: bool)
      requires Valid() && (o.mcs || o.collapse)
      modifies this, cons, finder, finder.pbo, finder.pbo.vm, finder.pbo.solver, finder.pbo.cardinality
      ensures Valid()
      ensures !more ==> ok && LoopState() == old(LoopState()) && Exhausted(p, LoopState())
      ensures more && ok ==> Goes(p, o, old(LoopState()), LoopState())
      ensures more && ok ==> |Unlisted(p, finder.found)| + |Seeds(p.All(), clauses)|
                             < old(|Unlisted(p, finder.found)| + |Seeds(p.All(), clauses)|)
      ensures !ok ==> Stuck(p, o, old(LoopState())) && o.mcs && o.collapse && !o.up && !o.down
    {
      ghost var l := LoopState();
      ProgressLoopOk(p, o, State(), l);
      var minimum, maximum := TakesMinimum(o, seedCount), TakesMaximum(o, seedCount);
      assert !(minimum && maximum);
      var seed;
      more, seed := GetUnexplored();
      ok := true;
      if more {
        ok := Explore(l, seed, minimum, maximum);
        if !ok {
          FailsOnlyBoth(p, o, l, seed);
        }
      }
    }

    /** The loop of doMinimize, with the states between seeds, until nothing is
        unexplored or an assertion fails. */
    method AllSeeds() returns (ok: bool, ghost run: seq<Loop>)
      requires Valid() && (o.mcs || o.collapse)
      modifies this, cons, finder, finder.pbo, finder.pbo.vm, finder.pbo.solver, finder.pbo.cardinality
      ensures Valid() && Run(p, o, run) && run[0] == old(LoopState())
      ensures if ok then run[|run| - 1] == LoopState() && Exhausted(p, LoopState()) else Stuck(p, o, run[|run| - 1])
      ensures !ok ==> o.mcs && o.collapse && !o.up && !o.down
    {
      run := [LoopState()];
      while true
        invariant Valid() && Run(p, o, run) && run[0] == old(LoopState()) && run[|run| - 1] == LoopState()
        decreases |Unlisted(p, finder.found)| + |Seeds(p.All(), clauses)|
      {
        var more;
        more, ok := NextSeed();
        if !more || !ok {
          return;
        }
        RunNext(p, o, run, LoopState());
        run := run + [LoopState()];
      }
    }

    /** When nothing is unexplored, the smallest proof is a minimum one. */
    method ReportMinimum()
      requires Valid() && Exhausted(p, LoopState())
      modifies this`minimumProof
      ensures Valid() && p.Valid() && Inductive(p, p.All())
      ensures RecordsLifted(p, proofs) && Distinct(proofs) && SmallestFor(p, o, minimumProof)
      ensures !o.up || OccursOnce(p) ==> RecordsMinimal(p, proofs)
    {
      ProgressInductive(p, o, State());
      Finished(p, o, State());
      FinishedExactly(p, o, State());
      if minimumProof == {} {
        FinishedSmallest(p, o, State());
        SmallestIsMinimum(p, o, State());
        minimumProof := smallestProof;
      }
    }

    /** doMinimize: unless an assertion fails, all minimal safe inductive subsets are
        recorded, each of them once, itself or with all copies of the property. From
        the first state on they are recorded themselves exactly when the property
        occurs once or no set is recorded for a minimum seed. */
    method DoMinimize() returns (ok: bool, ghost run: seq<Loop>)
      requires Valid() && (o.mcs || o.collapse)
      modifies this, cons, finder, finder.pbo, finder.pbo.vm, finder.pbo.solver, finder.pbo.cardinality
      ensures Valid() && Run(p, o, run) && run[0] == old(LoopState())
      ensures if ok then run[|run| - 1] == LoopState() else Stuck(p, o, run[|run| - 1])
      ensures !ok ==> o.mcs && o.collapse && !o.up && !o.down
      ensures ok ==> RecordsLifted(p, proofs) && Distinct(proofs) && SmallestFor(p, o, minimumProof)
      ensures ok && (!o.up || OccursOnce(p)) ==> RecordsMinimal(p, proofs) && SmallestOfAll(p, minimumProof)
      ensures ok && old(LoopState()) == Start(p) ==>
        (RecordsMinimal(p, proofs) <==> OccursOnce(p) || !MinimumRecorded(o, run, |run|))
      ensures ok && old(LoopState()) == Start(p) && o.up && !o.down ==> (RecordsMinimal(p, proofs) <==> OccursOnce(p))
    {
      ok, run := AllSeeds();
      if ok {
        ReportMinimum();
        RunEnds(p, o, run, LoopState(), minimumProof);
      }
    }
  }

  lemma WithListing(p: Proof, o: Options, l: Loop, mss: set<ClauseID>, news: seq<Listed>)
    ensures WithClauses(p, o, l, mss, news).clauses == WithClauses(p, o, l, mss, []).clauses + CollapseClauses(news)
  {
    var with := l.clauses + if o.mcs then [DownClause(p.All(), mss)] else [];
    assert with + CollapseClauses([]) == with;
  }

  /** isSIS and findSIS find nothing, so some clause is unsupported. */
  lemma RefutedNonEmpty(p: Proof, o: Options, l: Loop, seed: set<ClauseID>, unsupported: set<ClauseID>)
    requires seed <= p.All() && Mss(p, o, l, seed) <= p.All() && seed <= Mss(p, o, l, seed)
    requires p.property in seed && !HasSafe(p, seed, {p.property}) && !HasSafe(p, Mss(p, o, l, seed), {p.property})
    requires var of := if TakesMinimum(o, l.count) then seed else Mss(p, o, l, seed);
      unsupported <= of && forall c | c in of && c < |p.clauses| :: c in unsupported <==> !Supports(p, of, c)
    ensures unsupported == Refuted(p, o, l, seed) && unsupported != {} && unsupported <= p.All()
  {
    var of := if TakesMinimum(o, l.count) then seed else Mss(p, o, l, seed);
    assert unsupported == UnsupportedIn(p, of);
    NoneUnsupported(p, of);
    assert Inductive(p, of) ==> SafeInductive(p, of, {p.property});
  }

  lemma GoesByRefuting(p: Proof, o: Options, l: Loop, seed: set<ClauseID>, news: seq<Listed>, m: Loop)
    requires Refutes(p, o, l, seed, news, m)
    ensures Goes(p, o, l, m)
  {
    GoesIs(p, o, l, m);
  }

  /** The seed is refuted by blocking mss and refining with these clauses. */
  ghost predicate Refuting(p: Proof, o: Options, l: Loop, seed: set<ClauseID>, mss: set<ClauseID>,
                           unsupported: set<ClauseID>) {
    && o.collapse && Picked(p, o, l, seed) && !FoundSis(p, o, l, seed)
    && mss == Mss(p, o, l, seed) && unsupported == Refuted(p, o, l, seed)
  }

  lemma GoesByRefining(p: Proof, o: Options, l: Loop, seed: set<ClauseID>, mss: set<ClauseID>, unsupported: set<ClauseID>,
                       news: seq<Listed>, m: Loop)
    requires Refuting(p, o, l, seed, mss, unsupported) && Listing(p, l.found, unsupported, news)
    requires m.clauses == WithClauses(p, o, l, mss, []).clauses + CollapseClauses(news)
    requires m.found == l.found + news && m.proofs == l.proofs && m.count == l.count + 1
    ensures Goes(p, o, l, m)
  {
    WithListing(p, o, l, mss, news);
    assert m == WithClauses(p, o, l, mss, news);
    GoesByRefuting(p, o, l, seed, news, m);
  }

  lemma StuckOn(p: Proof, o: Options, l: Loop, seed: set<ClauseID>, mss: set<ClauseID>, unsupported: set<ClauseID>)
    requires Refuting(p, o, l, seed, mss, unsupported)
    requires !(forall c | c in unsupported && c < |p.clauses| :: !NothingToList(p, l.found, c))
    ensures Fails(p, o, l, seed)
  {
  }

  lemma ProgressLoopOk(p: Proof, o: Options, s: Progress, l: Loop)
    requires ProgressOk(p, o, s) && l.clauses == s.clauses && l.found == s.found && l.proofs == s.proofs
    ensures LoopOk(p, l)
  {
    ProgressOkIs(p, o, s);
  }

  /** What the end of a run says about the record. */
  lemma RunEnds(p: Proof, o: Options, run: seq<Loop>, l: Loop, minimum: set<ClauseID>)
    requires p.Valid() && Inductive(p, p.All()) && Run(p, o, run) && l == run[|run| - 1] && Exhausted(p, l)
    requires SmallestFor(p, o, minimum)
    ensures !o.up || OccursOnce(p) ==> SmallestOfAll(p, minimum)
    ensures run[0] == Start(p) ==> (RecordsMinimal(p, l.proofs) <==> OccursOnce(p) || !MinimumRecorded(o, run, |run|))
    ensures run[0] == Start(p) && o.up && !o.down ==> (RecordsMinimal(p, l.proofs) <==> OccursOnce(p))
  {
    if !o.up || OccursOnce(p) {
      SmallestExactly(p, o, minimum);
    }
    if run[0] == Start(p) {
      RecordedExactly(p, o, run);
    }
  }

  lemma FailsOnlyBoth(p: Proof, o: Options, l: Loop, seed: set<ClauseID>)
    requires LoopOk(p, l) && Picked(p, o, l, seed) && Fails(p, o, l, seed)
    ensures Stuck(p, o, l) && o.mcs && o.collapse && !o.up && !o.down
  {
    if !(o.mcs && o.collapse && !o.up && !o.down) {
      SeedDoesNotFail(p, o, l, seed);
      assert false;
    }
  }

  lemma GoesByConfirming(p: Proof, o: Options, l: Loop, seed: set<ClauseID>, m: Loop)
    requires Confirms(p, o, l, seed, m)
    ensures Goes(p, o, l, m)
  {
    GoesIs(p, o, l, m);
  }

  lemma SeedFacts(p: Proof, o: Options, s: Progress, seed: set<ClauseID>, minimum: bool)
    requires ProgressOk(p, o, s) && seed <= p.All() && Unexplored(seed, s.clauses)
    requires minimum ==> IsMinimum(p.All(), s.clauses, seed)
    ensures p.property in seed
    ensures minimum && Inductive(p, seed) ==> MinimalSafe(p, seed, Copies(p))
    ensures minimum && !Inductive(p, seed) ==> !HasSafe(p, seed, {p.property})
  {
    ProgressOkIs(p, o, s);
    SeedKinds(p, LoopOf(s), seed, minimum);
  }

  lemma SmallestIsMinimum(p: Proof, o: Options, s: Progress)
    requires ProgressOk(p, o, s) && SmallestFor(p, o, s.smallest)
    ensures ProgressOk(p, o, s.(minimum := s.smallest))
  {
    ProgressOkIs(p, o, s);
    ProgressOkIs(p, o, s.(minimum := s.smallest));
  }

  lemma SmallestKnown(p: Proof, o: Options, s: Progress)
    requires ProgressOk(p, o, s) && s.proofs != []
    ensures s.smallest != {}
  {
    ProgressOkIs(p, o, s);
    HasProperty(p, s.proofs, s.smallest);
  }

  /** The first i elements are those below id. */
  predicate Split(t: seq<ClauseID>, i: nat, id: ClauseID) {
    i <= |t| && (forall j | 0 <= j < i :: t[j] < id) && forall j | i <= j < |t| :: t[j] >= id
  }

  lemma ShrunkAt(p: Proof, t: seq<ClauseID>, i: nat, id: ClauseID)
    requires Ascending(t) && SetOf(t) <= p.All() && Split(t, i, id) && i < |t|
    ensures t[i] in SetOf(t) && t[i] < |p.clauses|
    ensures Shrunk(p, SetOf(t), id) == Shrunk(p, SetOf(t), t[i])
    ensures Split(t, i + 1, t[i] + 1)
  {
    assert t[i] in SetOf(t) && t[i] in p.All();
    forall c: ClauseID | id <= c < t[i]
      ensures c !in SetOf(t)
    {
      assert forall j | 0 <= j < |t| :: t[j] < id || t[i] <= t[j];
    }
    ShrunkSkips(p, SetOf(t), id, t[i]);
  }

  lemma ShrunkEnds(p: Proof, t: seq<ClauseID>, id: ClauseID)
    requires SetOf(t) <= p.All() && Split(t, |t|, id)
    ensures Shrunk(p, SetOf(t), id) == SetOf(t)
  {
    ShrunkSkips(p, SetOf(t), id, if id < |p.clauses| then |p.clauses| else id);
  }

  /** The loop of shrink: copy is what is left of the seed, and clauses below from,
      its first i ones, need not be tried any more. */
  ghost predicate Shrinking(p: Proof, seed: set<ClauseID>, copy: seq<ClauseID>, i: nat, from: ClauseID) {
    && Ascending(copy) && SetOf(copy) <= seed <= p.All() && SafeInductive(p, SetOf(copy), {p.property})
    && Split(copy, i, from) && Shrunk(p, SetOf(copy), from) == Shrunk(p, seed, 0)
  }

  lemma IdsInside(p: Proof, copy: seq<ClauseID>, id: ClauseID)
    requires SetOf(copy) <= p.All()
    ensures SetOf(copy) - {id} <= p.All()
  {
  }

  lemma ShrinkKeeps(p: Proof, seed: set<ClauseID>, copy: seq<ClauseID>, i: nat, from: ClauseID)
    requires Shrinking(p, seed, copy, i, from) && i < |copy|
    requires copy[i] == p.property || !HasSafe(p, SetOf(copy) - {copy[i]}, {p.property})
    ensures Shrinking(p, seed, copy, i + 1, copy[i] + 1)
  {
    ShrunkAt(p, copy, i, from);
  }

  lemma ShrinkDrops(p: Proof, seed: set<ClauseID>, copy: seq<ClauseID>, i: nat, from: ClauseID, less: seq<ClauseID>,
                    next: nat)
    requires Shrinking(p, seed, copy, i, from) && i < |copy| && copy[i] != p.property
    requires HasSafe(p, SetOf(copy) - {copy[i]}, {p.property})
    requires Ascending(less) && SetOf(less) == Greatest(p, SetOf(copy) - {copy[i]})
    requires SafeInductive(p, SetOf(less), {p.property})
    requires next <= |less| && (next < |less| ==> less[next] > copy[i]) && forall j | 0 <= j < next :: less[j] <= copy[i]
    ensures Shrinking(p, seed, less, next, copy[i] + 1) && |less| - next < |copy| - i
  {
    ShrunkAt(p, copy, i, from);
    assert SetOf(less) <= SetOf(copy) - {copy[i]};
    assert copy[i] !in less by {
      assert copy[i] !in SetOf(less);
    }
    RestShrinks(copy, i, less, next);
    assert forall j | next <= j < |less| :: less[next] <= less[j];
  }
}
