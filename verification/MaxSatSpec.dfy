/** The facts that keep core-guided MaxSAT sound
    (MSU4MaxSATSolver in src/pme/util/maxsat_solver.cpp). */
module MaxSatSpec {
  import opened Collections
  import opened Ids
  import opened SatQueries
  import opened NetworkMeaning
  import opened CardinalityConstraints

  // ----- the problem -----

  ghost predicate Hard(v: Valuation, clauses: seq<Clause>) {
    Models(v, clauses) && Holds(v, ID_TRUE)
  }

  function TrueIn(v: Valuation, lits: set<ID>): set<ID> {
    set lit | lit in lits && Holds(v, lit)
  }

  /** soln is what some model of the clauses makes true in opt, and no model makes more true. */
  ghost predicate Optimal(clauses: seq<Clause>, opt: set<ID>, soln: set<ID>) {
    && (exists v: Valuation :: Hard(v, clauses) && TrueIn(v, opt) == soln)
    && (forall v: Valuation :: Hard(v, clauses) ==> |TrueIn(v, opt)| <= |soln|)
  }

  // ----- bounds kept across calls -----

  /** The optimisation literals split into those still assumed and those moved out by cores. */
  datatype Bounds = Bounds(clauses: seq<Clause>, opt: set<ID>, initial: set<ID>, blocked: seq<ID>, rounds: nat, lb: nat, soln: set<ID>)

  function Elems(s: seq<ID>): set<ID> {
    set lit | lit in s
  }

  ghost predicate Distinct(s: seq<ID>) {
    forall i, j :: 0 <= i < j < |s| ==> s[i] != s[j]
  }

  ghost predicate Partition(opt: set<ID>, initial: set<ID>, blocked: seq<ID>) {
    && Distinct(blocked)
    && initial !! Elems(blocked)
    && initial + Elems(blocked) == opt
  }

  /** Every model misses at least one blocked literal per round. */
  ghost predicate RoundsPaid(b: Bounds) {
    forall v: Valuation :: Hard(v, b.clauses) ==> Count(v, b.blocked) + b.rounds <= |b.blocked|
  }

  ghost predicate Witnessed(b: Bounds) {
    && b.lb == |b.soln|
    && (b.lb > 0 ==> exists v: Valuation :: Hard(v, b.clauses) && TrueIn(v, b.opt) == b.soln)
  }

  ghost predicate BoundsOk(b: Bounds) {
    && Partition(b.opt, b.initial, b.blocked)
    && RoundsPaid(b)
    && (b.rounds == 0 ==> b.blocked == [])
    && b.rounds <= |b.blocked|
    && Witnessed(b)
  }

  lemma TrueInUnion(v: Valuation, a: set<ID>, b: set<ID>)
    requires a !! b
    ensures |TrueIn(v, a + b)| == |TrueIn(v, a)| + |TrueIn(v, b)|
  {
    assert TrueIn(v, a + b) == TrueIn(v, a) + TrueIn(v, b);
    assert TrueIn(v, a) !! TrueIn(v, b);
  }

  lemma TrueInOne(v: Valuation, lit: ID)
    ensures |TrueIn(v, {lit})| == if Holds(v, lit) then 1 else 0
  {
    assert TrueIn(v, {lit}) == if Holds(v, lit) then {lit} else {};
  }

  lemma {:induction false} CountDistinct(v: Valuation, s: seq<ID>)
    requires Distinct(s)
    ensures Count(v, s) == |TrueIn(v, Elems(s))|
    ensures |s| == |Elems(s)|
  {
    if s == [] {
      assert Elems(s) == {};
    } else {
      var rest := s[1..];
      CountDistinct(v, rest);
      assert Elems(s) == {s[0]} + Elems(rest) by {
        assert s == [s[0]] + rest;
      }
      assert s[0] !in Elems(rest);
      TrueInUnion(v, {s[0]}, Elems(rest));
      TrueInOne(v, s[0]);
    }
  }

  lemma PartitionCount(v: Valuation, opt: set<ID>, initial: set<ID>, blocked: seq<ID>)
    requires Partition(opt, initial, blocked)
    ensures |TrueIn(v, opt)| == |TrueIn(v, initial)| + Count(v, blocked)
    ensures |opt| == |initial| + |blocked|
    ensures |TrueIn(v, initial)| <= |initial|
    ensures |TrueIn(v, initial)| == |initial| <==> SatAll(v, initial)
  {
    CountDistinct(v, blocked);
    TrueInUnion(v, initial, Elems(blocked));
    AllTrueIn(v, initial);
  }

  lemma AllTrueIn(v: Valuation, lits: set<ID>)
    ensures |TrueIn(v, lits)| <= |lits|
    ensures |TrueIn(v, lits)| == |lits| <==> SatAll(v, lits)
  {
    SubsetSize(TrueIn(v, lits), lits);
    if SatAll(v, lits) {
      assert TrueIn(v, lits) == lits;
    }
  }

  /** No model has more than |opt| - rounds true literals, and the lower bound
      never passes that. */
  lemma UpperBound(b: Bounds, v: Valuation)
    requires BoundsOk(b) && Hard(v, b.clauses)
    ensures |TrueIn(v, b.opt)| + b.rounds <= |b.opt|
    ensures b.lb + b.rounds <= |b.opt|
  {
    PartitionCount(v, b.opt, b.initial, b.blocked);
    if b.lb > 0 {
      var u: Valuation :| Hard(u, b.clauses) && TrueIn(u, b.opt) == b.soln;
      PartitionCount(u, b.opt, b.initial, b.blocked);
    }
  }

  /** When the bounds meet, some model reaches them and satisfies every literal still assumed. */
  lemma TightModel(b: Bounds, some: Valuation) returns (v: Valuation)
    requires BoundsOk(b) && Hard(some, b.clauses) && b.lb + b.rounds == |b.opt|
    ensures Hard(v, b.clauses) && SatAll(v, b.initial)
    ensures |TrueIn(v, b.opt)| == b.lb
  {
    if b.lb > 0 {
      v :| Hard(v, b.clauses) && TrueIn(v, b.opt) == b.soln;
    } else {
      v := some;
      UpperBound(b, v);
    }
    PartitionCount(v, b.opt, b.initial, b.blocked);
  }

  /** A solution that no model beats is optimal. */
  lemma BestIsOptimal(b: Bounds, some: Valuation)
    requires BoundsOk(b) && Hard(some, b.clauses)
    requires forall v: Valuation :: Hard(v, b.clauses) ==> |TrueIn(v, b.opt)| <= b.lb
    ensures Optimal(b.clauses, b.opt, b.soln)
  {
    if b.lb == 0 {
      assert TrueIn(some, b.opt) == {} == b.soln;
    }
  }

  lemma BoundsMeet(b: Bounds, some: Valuation)
    requires BoundsOk(b) && Hard(some, b.clauses) && b.lb + b.rounds == |b.opt|
    ensures Optimal(b.clauses, b.opt, b.soln)
  {
    forall v: Valuation | Hard(v, b.clauses)
      ensures |TrueIn(v, b.opt)| <= b.lb
    {
      UpperBound(b, v);
    }
    BestIsOptimal(b, some);
  }

  /** Literals a model leaves false among the blocked ones. */
  function Missed(v: Valuation, blocked: seq<ID>): int {
    |blocked| - Count(v, blocked)
  }

  /** If every model missing fewer than |opt| - lb blocked literals is ruled
      out, no model beats lb. */
  lemma NothingBetter(b: Bounds, some: Valuation)
    requires BoundsOk(b) && Hard(some, b.clauses)
    requires forall v: Valuation :: Hard(v, b.clauses) ==> Missed(v, b.blocked) >= |b.opt| - b.lb
    ensures Optimal(b.clauses, b.opt, b.soln)
  {
    forall v: Valuation | Hard(v, b.clauses)
      ensures |TrueIn(v, b.opt)| <= b.lb
    {
      PartitionCount(v, b.opt, b.initial, b.blocked);
    }
    BestIsOptimal(b, some);
  }

  function MoveCore(b: Bounds, core: seq<ID>): Bounds {
    b.(initial := b.initial - Elems(core), blocked := b.blocked + core, rounds := b.rounds + 1)
  }

  /** A core may rest on "better than the best so far": models that satisfy it
      then already miss more blocked literals than there were rounds. */
  lemma CoreKeepsBounds(b: Bounds, core: seq<ID>)
    requires BoundsOk(b)
    requires core != [] && Distinct(core) && forall lit :: lit in core ==> lit in b.initial
    requires forall v: Valuation :: Hard(v, b.clauses) && SatCube(v, core) ==> Missed(v, b.blocked) > b.rounds
    ensures BoundsOk(MoveCore(b, core))
  {
    var c := MoveCore(b, core);
    forall v: Valuation | Hard(v, c.clauses)
      ensures Count(v, c.blocked) + c.rounds <= |c.blocked|
    {
      CountConcat(v, b.blocked, core);
      CountBound(v, core);
      AllInputs(v, core);
    }
    MovePartition(b.opt, b.initial, b.blocked, core);
  }

  lemma MovePartition(opt: set<ID>, initial: set<ID>, blocked: seq<ID>, core: seq<ID>)
    requires Partition(opt, initial, blocked)
    requires Distinct(core) && forall lit :: lit in core ==> lit in initial
    ensures Partition(opt, initial - Elems(core), blocked + core)
  {
    var all := blocked + core;
    forall i, j | 0 <= i < j < |all|
      ensures all[i] != all[j]
    {
      if i < |blocked| <= j {
        assert all[i] in blocked && all[j] in core;
      }
    }
    assert Elems(all) == Elems(blocked) + Elems(core);
  }

  /** A better model replaces the solution. */
  lemma BetterKeepsBounds(b: Bounds, v: Valuation)
    requires BoundsOk(b) && Hard(v, b.clauses)
    ensures BoundsOk(b.(lb := |TrueIn(v, b.opt)|, soln := TrueIn(v, b.opt)))
  {
  }

  /** Adding a clause only removes models; the bounds on blocked literals survive. */
  lemma ClauseKeepsBounds(b: Bounds, cls: Clause)
    requires BoundsOk(b)
    ensures BoundsOk(b.(clauses := b.clauses + [cls], lb := 0, soln := {}))
  {
    forall v: Valuation | Hard(v, b.clauses + [cls])
      ensures Hard(v, b.clauses)
    {
    }
  }

  // ----- the solver's clauses -----

  /** The constraint whose outputs may be asked for again. */
  datatype Cache = NoCache | Cache(inputs: seq<ID>, outputs: seq<ID>)

  ghost predicate Exact(w: Valuation, cache: Cache) {
    cache.Cache? ==> SortedPrefix(w, cache.inputs, cache.outputs)
  }

  ghost predicate CacheSound(db: seq<Clause>, cache: Cache) {
    cache.Cache? ==> forall w: Valuation :: Models(w, db) ==> LeSound(w, cache.inputs, cache.outputs)
  }

  ghost predicate AgreeOff(v: Valuation, w: Valuation, hidden: set<ID>) {
    forall x: ID :: x !in hidden ==> (x in v <==> x in w)
  }

  predicate Visible(lits: seq<ID>, hidden: set<ID>) {
    forall lit | lit in lits :: Strip(lit) !in hidden
  }

  /** The variables below next are handed out, and the hidden ones are the solver's
      own. */
  datatype Words = KnownWords(next: ID, hidden: set<ID>) {
    predicate Known(lits: seq<ID>) {
      Below(lits, next) && Visible(lits, hidden)
    }
  }

  /** No variable that was known becomes one of the solver's own. */
  ghost predicate KeepsKnown(a: Words, b: Words) {
    a.next <= b.next && forall x | x in b.hidden && x < a.next :: x in a.hidden
  }

  /** What could be mentioned before can be mentioned after. */
  lemma StillKnown(a: Words, b: Words, lits: seq<ID>)
    requires KeepsKnown(a, b) && a.Known(lits)
    ensures b.Known(lits)
  {
    forall lit | lit in lits
      ensures Strip(lit) < b.next && Strip(lit) !in b.hidden
    {
      assert Strip(lit) < a.next && Strip(lit) !in a.hidden;
    }
  }

  /** w is v with the hidden variables set so that the solver's clauses hold. */
  ghost predicate Extends(v: Valuation, w: Valuation, hidden: set<ID>, db: seq<Clause>, cache: Cache) {
    AgreeOff(v, w, hidden) && Models(w, db) && Exact(w, cache)
  }

  lemma VisibleHolds(v: Valuation, w: Valuation, hidden: set<ID>, lit: ID)
    requires AgreeOff(v, w, hidden) && Strip(lit) !in hidden
    ensures Holds(v, lit) == Holds(w, lit)
  {
  }

  lemma {:induction false} VisibleCount(v: Valuation, w: Valuation, hidden: set<ID>, lits: seq<ID>)
    requires AgreeOff(v, w, hidden) && Visible(lits, hidden)
    ensures Count(v, lits) == Count(w, lits)
  {
    if lits != [] {
      VisibleHolds(v, w, hidden, lits[0]);
      VisibleCount(v, w, hidden, lits[1..]);
    }
  }

  /** A step outside [lo, hi) after hiding hidden hides both. */
  lemma AgreeTrans(v: Valuation, u: Valuation, w: Valuation, hidden: set<ID>, lo: ID, hi: ID, all: set<ID>)
    requires AgreeOff(v, u, hidden) && AgreeOutside(u, w, lo, hi)
    requires hidden <= all && forall x: ID :: lo <= x < hi ==> x in all
    ensures AgreeOff(v, w, all)
  {
  }

  /** Cached literals keep their meaning when only later variables change. */
  lemma ExactLater(u: Valuation, w: Valuation, lo: ID, hi: ID, cache: Cache)
    requires AgreeOutside(u, w, lo, hi) && Exact(u, cache)
    requires cache.Cache? ==> Below(cache.inputs, lo) && Below(cache.outputs, lo)
    ensures Exact(w, cache)
  {
    if cache.Cache? {
      AgreeCount(u, w, lo, hi, cache.inputs);
      forall i | 0 <= i < |cache.outputs|
        ensures Holds(w, cache.outputs[i]) <==> Count(w, cache.inputs) >= i + 1
      {
        assert cache.outputs[i] in cache.outputs;
        AgreeHolds(u, w, lo, hi, cache.outputs[i]);
      }
    }
  }

  // ----- what the hidden variables can be set to -----

  /** Every model missing fewer than excl blocked literals extends to the
      solver's clauses with the assumptions true. */
  ghost predicate Reaches(clauses: seq<Clause>, blocked: seq<ID>, excl: int,
                          hidden: set<ID>, db: seq<Clause>, cache: Cache, assumps: set<ID>) {
    forall v: Valuation :: Hard(v, clauses) && Missed(v, blocked) < excl ==>
      exists w: Valuation :: Extends(v, w, hidden, db, cache) && SatAll(w, assumps)
  }

  ghost predicate DbOk(clauses: seq<Clause>, blocked: seq<ID>, hidden: set<ID>, next: ID, db: seq<Clause>, cache: Cache) {
    && [ID_TRUE] in db
    && (forall cls | cls in clauses :: cls in db)
    && CnfBelow(db, next)
    && (cache.Cache? ==> Below(cache.inputs, next) && Below(cache.outputs, next))
    && CacheSound(db, cache)
    && Reaches(clauses, blocked, |blocked| + 1, hidden, db, cache, {})
  }

  /** Any model of the solver's clauses is a model of the hard clauses. */
  lemma DbIsHard(w: Valuation, clauses: seq<Clause>, db: seq<Clause>)
    requires Models(w, db) && [ID_TRUE] in db && forall cls | cls in clauses :: cls in db
    ensures Hard(w, clauses)
  {
    assert SatClause(w, [ID_TRUE]);
  }

  /** What one cardinality constraint adds over the fresh variables [lo, hi):
      every earlier solution extends, and if more than n inputs are true the
      assumptions can be met. */
  ghost predicate Step(db: seq<Clause>, cache: Cache, db': seq<Clause>, cache': Cache,
                       lo: ID, hi: ID, inputs: seq<ID>, n: nat, assumps: Cube) {
    forall u: Valuation :: Models(u, db) && Exact(u, cache) ==>
      exists w: Valuation ::
        && AgreeOutside(u, w, lo, hi) && Models(w, db') && Exact(w, cache')
        && (Count(u, inputs) > n ==> SatCube(w, assumps))
  }

  /** IDs handed out between two counter values. */
  function Range(lo: ID, hi: ID): (r: set<ID>)
    ensures forall x: ID :: x in r <==> lo <= x < hi
    decreases hi - lo
  {
    if lo >= hi then {} else {lo} + Range(lo + 1, hi)
  }

  lemma StepReaches(clauses: seq<Clause>, blocked: seq<ID>, excl: int, excl': int, hidden: set<ID>,
                    db: seq<Clause>, cache: Cache, kept: set<ID>,
                    db': seq<Clause>, cache': Cache, lo: ID, hi: ID, n: nat, assumps: Cube)
    requires Reaches(clauses, blocked, excl, hidden, db, cache, kept)
    requires Step(db, cache, db', cache', lo, hi, blocked, n, assumps)
    requires Visible(blocked, hidden) && excl' <= excl
    requires forall lit | lit in kept :: Strip(lit) < lo
    ensures Reaches(clauses, blocked, excl', hidden + Range(lo, hi), db', cache', kept)
    ensures excl' <= |blocked| - n ==>
      Reaches(clauses, blocked, excl', hidden + Range(lo, hi), db', cache', kept + Elems(assumps))
  {
    var all := hidden + Range(lo, hi);
    forall v: Valuation | Hard(v, clauses) && Missed(v, blocked) < excl'
      ensures exists w: Valuation ::
        && Extends(v, w, all, db', cache') && SatAll(w, kept)
        && (excl' <= |blocked| - n ==> SatAll(w, kept + Elems(assumps)))
    {
      var u: Valuation :| Extends(v, u, hidden, db, cache) && SatAll(u, kept);
      var w: Valuation :|
        && AgreeOutside(u, w, lo, hi) && Models(w, db') && Exact(w, cache')
        && (Count(u, blocked) > n ==> SatCube(w, assumps));
      VisibleCount(v, u, hidden, blocked);
      AgreeTrans(v, u, w, hidden, lo, hi, all);
      forall lit | lit in kept
        ensures Holds(w, lit)
      {
        AgreeHolds(u, w, lo, hi, lit);
      }
      assert Extends(v, w, all, db', cache');
    }
  }

  /** A fresh hint variable may be set either way. */
  lemma FreshHint(clauses: seq<Clause>, blocked: seq<ID>, hidden: set<ID>, db: seq<Clause>, cache: Cache, hint: ID, value: bool)
    requires DbOk(clauses, blocked, hidden, hint, db, cache) && !IsNegated(hint)
    ensures Reaches(clauses, blocked, |blocked| + 1, hidden + {hint}, db, cache, {if value then hint else Negate(hint)})
  {
    var lit := if value then hint else Negate(hint);
    forall v: Valuation | Hard(v, clauses) && Missed(v, blocked) < |blocked| + 1
      ensures exists w: Valuation :: Extends(v, w, hidden + {hint}, db, cache) && SatAll(w, {lit})
    {
      var u: Valuation :| Extends(v, u, hidden, db, cache) && SatAll(u, {});
      var w := if value then u + {hint} else u - {hint};
      assert AgreeOutside(u, w, hint, hint + 1);
      AgreeModels(u, w, hint, hint + 1, db);
      ExactLater(u, w, hint, hint + 1, cache);
      AgreeTrans(v, u, w, hidden, hint, hint + 1, hidden + {hint});
      assert Extends(v, w, hidden + {hint}, db, cache) && SatAll(w, {lit});
    }
  }

  /** No reached model satisfies the part of an unsatisfiable set that lies outside the assumptions. */
  lemma CoreExcludes(clauses: seq<Clause>, blocked: seq<ID>, excl: int, hidden: set<ID>, db: seq<Clause>, cache: Cache,
                     assumps: set<ID>, crits: set<ID>, core: seq<ID>, initial: set<ID>)
    requires Reaches(clauses, blocked, excl, hidden, db, cache, assumps)
    requires Unsat(db, crits) && crits <= initial + assumps
    requires Elems(core) == crits * initial && Visible(core, hidden)
    ensures forall v: Valuation :: Hard(v, clauses) && Missed(v, blocked) < excl ==> !SatCube(v, core)
  {
    forall v: Valuation | Hard(v, clauses) && Missed(v, blocked) < excl
      ensures !SatCube(v, core)
    {
      var w: Valuation :| Extends(v, w, hidden, db, cache) && SatAll(w, assumps);
      assert !Satisfies(w, db, crits);
      var lit :| lit in crits && !Holds(w, lit);
      assert lit in initial && lit in Elems(core);
      VisibleHolds(v, w, hidden, lit);
    }
  }

  /** Fewer models, more blocked literals or a weaker demand keep what is reached. */
  lemma WeakerReaches(clauses: seq<Clause>, clauses': seq<Clause>, blocked: seq<ID>, core: seq<ID>, excl: int, excl': int,
                      hidden: set<ID>, db: seq<Clause>, cache: Cache, assumps: set<ID>, assumps': set<ID>)
    requires Reaches(clauses, blocked, excl, hidden, db, cache, assumps)
    requires forall v: Valuation :: Hard(v, clauses') ==> Hard(v, clauses)
    requires assumps' <= assumps
    requires excl' <= excl || |blocked| < excl
    ensures Reaches(clauses', blocked + core, excl', hidden, db, cache, assumps')
  {
    forall v: Valuation | Hard(v, clauses') && Missed(v, blocked + core) < excl'
      ensures exists w: Valuation :: Extends(v, w, hidden, db, cache) && SatAll(w, assumps')
    {
      CountConcat(v, blocked, core);
      CountBound(v, core);
      CountBound(v, blocked);
      var w: Valuation :| Extends(v, w, hidden, db, cache) && SatAll(w, assumps);
      assert SatAll(w, assumps');
    }
  }

  /** A clause that every reached extension satisfies may be added. */
  lemma ClauseReaches(clauses: seq<Clause>, blocked: seq<ID>, excl: int, hidden: set<ID>, db: seq<Clause>, cache: Cache,
                      assumps: set<ID>, cls: Clause)
    requires Reaches(clauses, blocked, excl, hidden, db, cache, assumps)
    requires forall v: Valuation, w: Valuation ::
      Hard(v, clauses) && Missed(v, blocked) < excl && AgreeOff(v, w, hidden) && SatAll(w, assumps) ==> SatClause(w, cls)
    ensures Reaches(clauses, blocked, excl, hidden, db + [cls], cache, assumps)
  {
    forall v: Valuation | Hard(v, clauses) && Missed(v, blocked) < excl
      ensures exists w: Valuation :: Extends(v, w, hidden, db + [cls], cache) && SatAll(w, assumps)
    {
      var w: Valuation :| Extends(v, w, hidden, db, cache) && SatAll(w, assumps);
      assert Extends(v, w, hidden, db + [cls], cache);
    }
  }

  function HintClause(core: seq<ID>, hint: ID): Clause {
    NegateVec(core) + [Negate(hint)]
  }

  lemma NegatedCore(w: Valuation, core: seq<ID>, hint: ID)
    ensures SatClause(w, HintClause(core, hint)) <==> !SatCube(w, core) || !Holds(w, hint)
  {
    NegatedCube(w, core);
    ClauseConcat(w, NegateVec(core), [Negate(hint)]);
    assert SatClause(w, [Negate(hint)]) <==> !Holds(w, hint) by {
      assert Negate(hint) in [Negate(hint)];
    }
  }

  /** With the hint on, the clause excludes only models the core excludes already. */
  lemma HintOnReaches(clauses: seq<Clause>, blocked: seq<ID>, excl: int, hidden: set<ID>, db: seq<Clause>, cache: Cache,
                      assumps: set<ID>, core: seq<ID>, hint: ID)
    requires Reaches(clauses, blocked, excl, hidden, db, cache, assumps)
    requires Visible(core, hidden)
    requires forall v: Valuation :: Hard(v, clauses) && Missed(v, blocked) < excl ==> !SatCube(v, core)
    ensures Reaches(clauses, blocked, excl, hidden, db + [HintClause(core, hint)], cache, assumps)
  {
    forall v: Valuation, w: Valuation |
      Hard(v, clauses) && Missed(v, blocked) < excl && AgreeOff(v, w, hidden) && SatAll(w, assumps)
      ensures SatClause(w, HintClause(core, hint))
    {
      forall lit | lit in core
        ensures Holds(v, lit) == Holds(w, lit)
      {
        VisibleHolds(v, w, hidden, lit);
      }
      NegatedCore(w, core, hint);
    }
    ClauseReaches(clauses, blocked, excl, hidden, db, cache, assumps, HintClause(core, hint));
  }

  /** With the hint off, the clause holds anyway. */
  lemma HintOffReaches(clauses: seq<Clause>, blocked: seq<ID>, excl: int, hidden: set<ID>, db: seq<Clause>, cache: Cache,
                       core: seq<ID>, hint: ID)
    requires Reaches(clauses, blocked, excl, hidden, db, cache, {Negate(hint)})
    ensures Reaches(clauses, blocked, excl, hidden, db + [HintClause(core, hint)], cache, {Negate(hint)})
  {
    forall v: Valuation, w: Valuation |
      Hard(v, clauses) && Missed(v, blocked) < excl && AgreeOff(v, w, hidden) && SatAll(w, {Negate(hint)})
      ensures SatClause(w, HintClause(core, hint))
    {
      assert Holds(w, Negate(hint));
      NegatedCore(w, core, hint);
    }
    ClauseReaches(clauses, blocked, excl, hidden, db, cache, {Negate(hint)}, HintClause(core, hint));
  }
}
