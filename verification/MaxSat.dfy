/** The incremental core-guided MaxSAT solver of src/pme/util/maxsat_solver.cpp. */
module MaxSat {
  import opened Collections
  import opened Ids
  import opened VariableManagers
  import opened SatQueries
  import opened SatAdaptors
  import opened NetworkSpec
  import opened NetworkMeaning
  import opened CardinalityConstraints
  import opened MaxSatSpec
  import opened NetworkStores

  const UINT_MAX: nat := 0xFFFF_FFFF

  datatype ModelValue = TRUE | FALSE

  lemma LessThanExtends(u: Valuation, db: seq<Clause>, inputs: seq<ID>, n: nat, lo: ID) returns (w: Valuation)
    requires n < |inputs| && Below(NegateVec(inputs), lo) && CnfBelow(db, lo) && !IsNegated(lo) && Models(u, db)
    ensures var net := CountingNetwork(lo, NegateVec(inputs), |inputs| - n + 1);
      && AgreeOutside(u, w, lo, net.next) && Models(w, db + Emit(net.gates, true, false))
      && SortedPrefix(w, NegateVec(inputs), net.outputs)
      && (Count(u, inputs) > n ==> SatCube(w, FalseAfter(net.outputs, |inputs| - n - 1)))
  {
    var negN := |inputs| - n;
    w := NetworkExtends(u, db, NegateVec(inputs), negN + 1, true, false, lo);
    CountNegated(u, inputs);
    LessThanMeaning(w, NegateVec(inputs), CountingNetwork(lo, NegateVec(inputs), negN + 1).outputs, negN);
  }

  /** A new constraint "fewer than |inputs| - n inputs false". */
  lemma LessThanStep(db: seq<Clause>, cache: Cache, inputs: seq<ID>, n: nat, lo: ID)
    requires n < |inputs| && Below(inputs, lo) && CnfBelow(db, lo) && !IsNegated(lo)
    ensures var neg := NegateVec(inputs);
      var net := CountingNetwork(lo, neg, |inputs| - n + 1);
      Step(db, cache, db + Emit(net.gates, true, false), Cache(neg, net.outputs), lo, net.next, inputs, n,
           FalseAfter(net.outputs, |inputs| - n - 1))
  {
    NegatedBelow(inputs, lo);
    forall u: Valuation | Models(u, db)
      ensures LessThanFrom(u, db, inputs, n, lo)
    {
      var w := LessThanExtends(u, db, inputs, n, lo);
      assert Exact(w, Cache(NegateVec(inputs), CountingNetwork(lo, NegateVec(inputs), |inputs| - n + 1).outputs));
    }
    LessThanAll(db, cache, inputs, n, lo);
  }

  /** The valuation extends to the network's variables. */
  ghost predicate LessThanFrom(u: Valuation, db: seq<Clause>, inputs: seq<ID>, n: nat, lo: ID)
    requires n < |inputs|
  {
    var net := CountingNetwork(lo, NegateVec(inputs), |inputs| - n + 1);
    exists w: Valuation ::
      && AgreeOutside(u, w, lo, net.next) && Models(w, db + Emit(net.gates, true, false))
      && Exact(w, Cache(NegateVec(inputs), net.outputs))
      && (Count(u, inputs) > n ==> SatCube(w, FalseAfter(net.outputs, |inputs| - n - 1)))
  }

  lemma LessThanAll(db: seq<Clause>, cache: Cache, inputs: seq<ID>, n: nat, lo: ID)
    requires n < |inputs| && forall u: Valuation | Models(u, db) :: LessThanFrom(u, db, inputs, n, lo)
    ensures var neg := NegateVec(inputs);
      var net := CountingNetwork(lo, neg, |inputs| - n + 1);
      Step(db, cache, db + Emit(net.gates, true, false), Cache(neg, net.outputs), lo, net.next, inputs, n,
           FalseAfter(net.outputs, |inputs| - n - 1))
  {
  }

  /** A one-off "more than n inputs true". */
  lemma GreaterThanStep(db: seq<Clause>, cache: Cache, inputs: seq<ID>, n: nat, lo: ID)
    requires n < |inputs| && Below(inputs, lo) && CnfBelow(db, lo) && !IsNegated(lo)
    ensures var net := CountingNetwork(lo, inputs, n + 1);
      Step(db, cache, db + Emit(net.gates, false, true), NoCache, lo, net.next, inputs, n, TrueBefore(net.outputs, n + 1))
  {
    var net := CountingNetwork(lo, inputs, n + 1);
    var db' := db + Emit(net.gates, false, true);
    forall u: Valuation | Models(u, db) && Exact(u, cache)
      ensures exists w: Valuation ::
        && AgreeOutside(u, w, lo, net.next) && Models(w, db') && Exact(w, NoCache)
        && (Count(u, inputs) > n ==> SatCube(w, TrueBefore(net.outputs, n + 1)))
    {
      var w := NetworkExtends(u, db, inputs, n + 1, false, true, lo);
      GreaterThanMeaning(w, inputs, net.outputs, n);
    }
  }

  /** Asking the kept constraint for a tighter bound adds nothing. */
  lemma CachedStep(db: seq<Clause>, inputs: seq<ID>, outputs: seq<ID>, n: nat, lo: ID)
    requires n < |inputs| && |inputs| - n <= |outputs|
    ensures var cache := Cache(NegateVec(inputs), outputs);
      Step(db, cache, db, cache, lo, lo, inputs, n, FalseAfter(outputs, |inputs| - n - 1))
  {
    var cache := Cache(NegateVec(inputs), outputs);
    forall u: Valuation | Models(u, db) && Exact(u, cache)
      ensures AgreeOutside(u, u, lo, lo)
      ensures Count(u, inputs) > n ==> SatCube(u, FalseAfter(outputs, |inputs| - n - 1))
    {
      CountNegated(u, inputs);
      LessThanMeaning(u, NegateVec(inputs), outputs, |inputs| - n);
    }
  }

  // ----- the solver's state as a value -----

  datatype State = State(
    clauses: seq<Clause>, opt: set<ID>, initial: set<ID>, blocked: seq<ID>, rounds: nat, lb: nat, soln: set<ID>,
    ub: nat, isSat: bool, absoluteUnsat: bool,
    hidden: set<ID>, next: ID, db: seq<Clause>, lastInput: multiset<ID>, cache: Cache)
  {
    function Bound(): Bounds {
      Bounds(clauses, opt, initial, blocked, rounds, lb, soln)
    }

    function Words(): Words {
      KnownWords(next, hidden)
    }

    /** Users only mention variables they know. */
    predicate Known(lits: seq<ID>) {
      Below(lits, next) && Visible(lits, hidden)
    }

    ghost predicate AllKnown() {
      && (forall cls | cls in clauses :: cls != [] && Known(cls))
      && (forall lit | lit in opt :: Known([lit]))
      && Known(blocked)
      && (forall x | x in hidden :: MIN_ID <= x < next)
    }

    /** The kept constraint counts the negations of the first blocked literals. */
    ghost predicate CacheFits() {
      if lastInput == multiset{} then cache == NoCache
      else
        && cache.Cache? && |lastInput| <= |blocked|
        && lastInput == multiset(blocked[..|lastInput|])
        && cache.inputs == NegateVec(blocked[..|lastInput|])
    }

    ghost predicate Names() {
      MIN_ID <= next && !IsNegated(next) && AllKnown() && CacheFits()
    }

    ghost predicate Store() {
      DbOk(clauses, blocked, hidden, next, db, cache)
    }

    ghost predicate Account() {
      && BoundsOk(Bound())
      && |opt| < UINT_MAX
      && ub == (if rounds == 0 then UINT_MAX else |opt| - rounds)
    }

    /** Everything but the verdict flags. */
    ghost predicate Working() {
      Names() && Store() && Account()
    }

    ghost predicate FoldedWorking(n: nat) {
      if n == 0 then Working() else FoldedWorking(n - 1)
    }

    /** Working, folded up. */
    ghost predicate Ready() {
      FoldedWorking(next)
    }

    ghost predicate Invariant() {
      && Ready()
      && (isSat ==> Optimal(clauses, opt, soln))
      && (absoluteUnsat ==> forall v: Valuation :: !Hard(v, clauses))
    }

    /** The invariant folded up: methods carry it as one fact, lemmas unfold it. */
    ghost predicate Folded(n: nat) {
      if n == 0 then Invariant() else Folded(n - 1)
    }

    ghost predicate Ok() {
      Folded(next)
    }
  }

  lemma {:induction false} UnfoldWorking(s: State, n: nat)
    ensures s.FoldedWorking(n) <==> s.Working()
  {
    if n > 0 {
      UnfoldWorking(s, n - 1);
    }
  }

  lemma ReadyMeans(s: State)
    ensures s.Ready() <==> s.Working()
  {
    UnfoldWorking(s, s.next);
  }

  lemma {:induction false} Unfold(s: State, n: nat)
    ensures s.Folded(n) <==> s.Invariant()
  {
    if n > 0 {
      Unfold(s, n - 1);
    }
  }

  lemma OkMeans(s: State)
    ensures s.Ok() <==> s.Invariant()
  {
    Unfold(s, s.next);
  }

  ghost predicate FoldedKeeps(s: State, t: State, n: nat) {
    if n == 0 then KeepsKnown(s.Words(), t.Words()) else FoldedKeeps(s, t, n - 1)
  }

  ghost predicate Keeps(s: State, t: State) {
    FoldedKeeps(s, t, s.next)
  }

  lemma {:induction false} UnfoldKeeps(s: State, t: State, n: nat)
    ensures FoldedKeeps(s, t, n) <==> KeepsKnown(s.Words(), t.Words())
  {
    if n > 0 {
      UnfoldKeeps(s, t, n - 1);
    }
  }

  lemma KeepsMeans(s: State, t: State)
    ensures Keeps(s, t) <==> KeepsKnown(s.Words(), t.Words())
  {
    UnfoldKeeps(s, t, s.next);
  }

  lemma KeepsMore(s: State, t: State, u: State)
    requires Keeps(s, t) && Keeps(t, u)
    ensures Keeps(s, u)
  {
    KeepsMeans(s, t);
    KeepsMeans(t, u);
    KeepsMeans(s, u);
  }

  lemma KeepsSame(s: State, t: State)
    requires t.hidden == s.hidden && t.next == s.next
    ensures Keeps(s, t)
  {
    KeepsMeans(s, t);
  }

  function Later(s: State, next: ID): State {
    s.(next := next)
  }

  /** Variables that the manager hands out between calls do no harm, and can be
      mentioned. */
  lemma LaterOk(s: State, next: ID)
    requires s.Ok() && s.next <= next && !IsNegated(next)
    ensures Later(s, next).Ok() && KeepsKnown(s.Words(), Later(s, next).Words())
    ensures forall x | s.next <= x < next :: x !in s.hidden
  {
    var t := Later(s, next);
    OkMeans(s);
    ReadyMeans(s);
    BelowMore(s, next);
    KnownStays(s, t);
    assert t.Names() && t.Store() && t.Account();
    ReadyMeans(t);
    OkMeans(t);
  }

  lemma BelowMore(s: State, next: ID)
    requires s.Names() && s.Store() && s.next <= next
    ensures Later(s, next).Store() && Later(s, next).CacheFits()
  {
    forall cls | cls in s.db
      ensures Below(cls, next)
    {
      assert Below(cls, s.next);
    }
  }

  function AddedClause(s: State, cls: Clause): State {
    s.(clauses := s.clauses + [cls], db := s.db + [cls], isSat := false, lb := 0, soln := {})
  }

  lemma AddedClauseOk(s: State, cls: Clause)
    requires s.Ok() && cls != [] && s.Known(cls)
    ensures AddedClause(s, cls).Ok()
  {
    OkMeans(s);
    OkMeans(AddedClause(s, cls));
    ReadyMeans(s);
    ReadyMeans(AddedClause(s, cls));
    ClauseKeepsBounds(s.Bound(), cls);
    ClauseKeepsDb(s.clauses, s.blocked, s.hidden, s.next, s.db, s.cache, cls);
    FewerModels(s.clauses, cls);
  }

  function Started(s: State, opt: set<ID>): State {
    s.(opt := opt, initial := opt, blocked := [], rounds := 0, lb := 0, soln := {}, ub := UINT_MAX,
       isSat := false, absoluteUnsat := false, lastInput := multiset{}, cache := NoCache)
  }

  lemma StartedOk(s: State, opt: set<ID>)
    requires s.Ready() && |opt| < UINT_MAX && forall lit | lit in opt :: s.Known([lit])
    ensures Started(s, opt).Ok()
  {
    OkMeans(Started(s, opt));
    ReadyMeans(s);
    ReadyMeans(Started(s, opt));
    DropCache(s.clauses, s.blocked, s.hidden, s.next, s.db, s.cache);
    var b := Started(s, opt).Bound();
    assert b.soln == {} && Elems([]) == {};
  }

  function PlainSolver(s: State): State {
    s.(db := [[ID_TRUE]] + s.clauses, lastInput := multiset{}, cache := NoCache)
  }

  lemma PlainSolverOk(s: State)
    requires s.Ready()
    ensures PlainSolver(s).Ready()
  {
    ReadyMeans(s);
    ReadyMeans(PlainSolver(s));
    PlainDb(s.clauses, s.blocked, s.hidden, s.next);
  }

  // ----- one more cardinality constraint -----

  /** t is s with a constraint that says "more than n blocked literals true" when assumed. */
  ghost predicate CardStep(s: State, t: State, n: nat, assumps: Cube) {
    && t == s.(hidden := t.hidden, next := t.next, db := t.db, lastInput := t.lastInput, cache := t.cache)
    && s.next <= t.next && !IsNegated(t.next) && t.hidden == s.hidden + Range(s.next, t.next)
    && (forall cls | cls in s.db :: cls in t.db) && CnfBelow(t.db, t.next)
    && t.CacheFits() && (t.cache.Cache? ==> Below(t.cache.inputs, t.next) && Below(t.cache.outputs, t.next))
    && CacheSound(t.db, t.cache)
    && Step(s.db, s.cache, t.db, t.cache, s.next, t.next, s.blocked, n, assumps)
    && forall w: Valuation :: Models(w, t.db) && SatCube(w, assumps) ==> Count(w, s.blocked) > n
  }

  ghost predicate FoldedStep(s: State, t: State, n: nat, assumps: Cube, k: nat) {
    if k == 0 then CardStep(s, t, n, assumps) else FoldedStep(s, t, n, assumps, k - 1)
  }

  /** CardStep, folded up. */
  ghost predicate Stepped(s: State, t: State, n: nat, assumps: Cube) {
    FoldedStep(s, t, n, assumps, s.next)
  }

  lemma {:induction false} UnfoldStep(s: State, t: State, n: nat, assumps: Cube, k: nat)
    ensures FoldedStep(s, t, n, assumps, k) <==> CardStep(s, t, n, assumps)
  {
    if k > 0 {
      UnfoldStep(s, t, n, assumps, k - 1);
    }
  }

  lemma SteppedMeans(s: State, t: State, n: nat, assumps: Cube)
    ensures Stepped(s, t, n, assumps) <==> CardStep(s, t, n, assumps)
  {
    UnfoldStep(s, t, n, assumps, s.next);
  }

  lemma CachedCardStep(s: State, n: nat)
    requires s.Ready() && n < |s.blocked| && multiset(s.blocked) == s.lastInput
    requires s.cache.Cache? && |s.blocked| - n <= |s.cache.outputs|
    ensures Stepped(s, s, n, FalseAfter(s.cache.outputs, |s.blocked| - n - 1))
  {
    var assumps := FalseAfter(s.cache.outputs, |s.blocked| - n - 1);
    CachedInputs(s);
    CachedStep(s.db, s.blocked, s.cache.outputs, n, s.next);
    CachedMeaning(s, n, assumps);
    SameStep(s, n, assumps);
  }

  lemma CachedInputs(s: State)
    requires s.Ready() && multiset(s.blocked) == s.lastInput && s.cache.Cache?
    ensures s.cache == Cache(NegateVec(s.blocked), s.cache.outputs) && CacheSound(s.db, s.cache)
  {
    ReadyMeans(s);
    assert |multiset(s.blocked)| == |s.blocked|;
    assert s.blocked[..|s.blocked|] == s.blocked;
  }

  lemma CachedMeaning(s: State, n: nat, assumps: Cube)
    requires n < |s.blocked| && s.cache.Cache? && s.cache == Cache(NegateVec(s.blocked), s.cache.outputs) && CacheSound(s.db, s.cache)
    requires |s.blocked| - n <= |s.cache.outputs| && assumps == FalseAfter(s.cache.outputs, |s.blocked| - n - 1)
    ensures forall w: Valuation :: Models(w, s.db) && SatCube(w, assumps) ==> Count(w, s.blocked) > n
  {
    forall w: Valuation | Models(w, s.db)
      ensures SatCube(w, assumps) ==> Count(w, s.blocked) > n
    {
      CachedCounts(w, s.blocked, s.cache.outputs, n);
    }
  }

  lemma SameStep(s: State, n: nat, assumps: Cube)
    requires s.Ready() && Step(s.db, s.cache, s.db, s.cache, s.next, s.next, s.blocked, n, assumps)
    requires forall w: Valuation :: Models(w, s.db) && SatCube(w, assumps) ==> Count(w, s.blocked) > n
    ensures Stepped(s, s, n, assumps)
  {
    ReadyMeans(s);
    SteppedMeans(s, s, n, assumps);
  }

  lemma CachedCounts(w: Valuation, blocked: seq<ID>, outs: seq<ID>, n: nat)
    requires n < |blocked| && |blocked| - n <= |outs| && LeSound(w, NegateVec(blocked), outs)
    ensures SatCube(w, FalseAfter(outs, |blocked| - n - 1)) ==> Count(w, blocked) > n
  {
    CountNegated(w, blocked);
    LessThanMeaning(w, NegateVec(blocked), outs, |blocked| - n);
  }

  lemma CacheBasics(s: State)
    requires s.Ready() && multiset(s.blocked) == s.lastInput && s.blocked != []
    ensures s.cache.Cache? && |s.cache.inputs| == |s.blocked|
  {
    ReadyMeans(s);
    assert |multiset(s.blocked)| == |s.blocked|;
  }

  lemma NonEmptyInput(inputs: Cube)
    requires inputs != []
    ensures multiset(inputs) != multiset{}
  {
    assert inputs[0] in multiset(inputs);
  }

  function WithLessThan(s: State, n: nat): State
    requires n < |s.blocked|
  {
    var net := CountingNetwork(s.next, NegateVec(s.blocked), |s.blocked| - n + 1);
    s.(hidden := s.hidden + Range(s.next, net.next), next := net.next, db := s.db + Emit(net.gates, true, false),
       lastInput := multiset(s.blocked), cache := Cache(NegateVec(s.blocked), net.outputs))
  }

  /** With its clauses the constraint is sound, whatever else the solver holds. */
  lemma LessThanCounts(w: Valuation, db: seq<Clause>, blocked: seq<ID>, n: nat, lo: ID)
    requires n < |blocked|
    requires Models(w, db + Emit(CountingNetwork(lo, NegateVec(blocked), |blocked| - n + 1).gates, true, false))
    ensures var outs := CountingNetwork(lo, NegateVec(blocked), |blocked| - n + 1).outputs;
      && LeSound(w, NegateVec(blocked), outs)
      && (SatCube(w, FalseAfter(outs, |blocked| - n - 1)) ==> Count(w, blocked) > n)
  {
    var outs := CountingNetwork(lo, NegateVec(blocked), |blocked| - n + 1).outputs;
    NetworkSound(w, db, NegateVec(blocked), |blocked| - n + 1, true, false, lo);
    CountNegated(w, blocked);
    LessThanMeaning(w, NegateVec(blocked), outs, |blocked| - n);
  }

  lemma LessThanSound(s: State, n: nat)
    requires n < |s.blocked|
    ensures var t := WithLessThan(s, n);
      forall w: Valuation :: Models(w, t.db) ==>
        && LeSound(w, t.cache.inputs, t.cache.outputs)
        && (SatCube(w, FalseAfter(t.cache.outputs, |s.blocked| - n - 1)) ==> Count(w, s.blocked) > n)
  {
    var t := WithLessThan(s, n);
    forall w: Valuation | Models(w, t.db)
      ensures LeSound(w, t.cache.inputs, t.cache.outputs)
      ensures SatCube(w, FalseAfter(t.cache.outputs, |s.blocked| - n - 1)) ==> Count(w, s.blocked) > n
    {
      LessThanCounts(w, s.db, s.blocked, n, s.next);
    }
  }

  /** The few facts that building a network needs. */
  lemma ReadyBasics(s: State)
    requires s.Ready()
    ensures MIN_ID <= s.next && !IsNegated(s.next) && Below(s.blocked, s.next) && CnfBelow(s.db, s.next)
  {
    ReadyMeans(s);
  }

  lemma LessThanPlaced(s: State, n: nat)
    requires !IsNegated(s.next) && Below(s.blocked, s.next) && CnfBelow(s.db, s.next) && n < |s.blocked|
    ensures var t := WithLessThan(s, n);
      && s.next <= t.next && !IsNegated(t.next) && CnfBelow(t.db, t.next)
      && Below(t.cache.inputs, t.next) && Below(t.cache.outputs, t.next)
  {
    var neg := NegateVec(s.blocked);
    NegatedBelow(s.blocked, s.next);
    NetworkBelow(s.db, neg, |s.blocked| - n + 1, true, false, s.next);
  }

  lemma LessThanFits(s: State, n: nat)
    requires n < |s.blocked|
    ensures WithLessThan(s, n).CacheFits()
  {
    assert |multiset(s.blocked)| == |s.blocked| && s.blocked[..|s.blocked|] == s.blocked;
  }

  lemma LessThanCardStep(s: State, n: nat)
    requires s.Ready() && n < |s.blocked|
    ensures Stepped(s, WithLessThan(s, n), n, FalseAfter(WithLessThan(s, n).cache.outputs, |s.blocked| - n - 1))
  {
    var t := WithLessThan(s, n);
    ReadyBasics(s);
    LessThanPlaced(s, n);
    LessThanFits(s, n);
    LessThanSound(s, n);
    LessThanStep(s.db, s.cache, s.blocked, n, s.next);
    SteppedMeans(s, t, n, FalseAfter(t.cache.outputs, |s.blocked| - n - 1));
  }

  /** What AddLessThan changes. */
  ghost predicate Starts(s: State, t: State, n: nat, assumps: Cube)
    requires n < |s.blocked|
  {
    var net := CountingNetwork(s.next, NegateVec(s.blocked), |s.blocked| - n + 1);
    && t == s.(hidden := t.hidden, next := t.next, db := t.db, lastInput := t.lastInput, cache := t.cache)
    && t.hidden == s.hidden + Range(s.next, net.next) && t.next == net.next && t.db == s.db + Emit(net.gates, true, false)
    && t.lastInput == multiset(s.blocked) && t.cache == Cache(NegateVec(s.blocked), net.outputs)
    && assumps == FalseAfter(net.outputs, |s.blocked| - n - 1)
  }

  lemma LessThanStarted(s: State, t: State, n: nat, assumps: Cube)
    requires s.Ready() && n < |s.blocked| && Starts(s, t, n, assumps)
    ensures Stepped(s, t, n, assumps)
  {
    assert t == WithLessThan(s, n);
    LessThanCardStep(s, n);
  }

  function WithGreaterThan(s: State, n: nat): State
    requires n < |s.blocked|
  {
    var net := CountingNetwork(s.next, s.blocked, n + 1);
    s.(hidden := s.hidden + Range(s.next, net.next), next := net.next, db := s.db + Emit(net.gates, false, true),
       lastInput := multiset{}, cache := NoCache)
  }

  /** The assumption of more than n. */
  function MoreThan(s: State, n: nat): Cube
    requires n < |s.blocked|
  {
    TrueBefore(CountingNetwork(s.next, s.blocked, n + 1).outputs, n + 1)
  }

  lemma GreaterThanCounts(w: Valuation, db: seq<Clause>, blocked: seq<ID>, n: nat, lo: ID)
    requires n < |blocked| && Models(w, db + Emit(CountingNetwork(lo, blocked, n + 1).gates, false, true))
    ensures SatCube(w, TrueBefore(CountingNetwork(lo, blocked, n + 1).outputs, n + 1)) ==> Count(w, blocked) > n
  {
    NetworkSound(w, db, blocked, n + 1, false, true, lo);
    GreaterThanMeaning(w, blocked, CountingNetwork(lo, blocked, n + 1).outputs, n);
  }

  lemma GreaterThanSound(s: State, n: nat)
    requires n < |s.blocked|
    ensures forall w: Valuation :: Models(w, WithGreaterThan(s, n).db) && SatCube(w, MoreThan(s, n)) ==> Count(w, s.blocked) > n
  {
    forall w: Valuation | Models(w, WithGreaterThan(s, n).db)
      ensures SatCube(w, MoreThan(s, n)) ==> Count(w, s.blocked) > n
    {
      GreaterThanCounts(w, s.db, s.blocked, n, s.next);
    }
  }

  lemma GreaterThanPlaced(s: State, n: nat)
    requires !IsNegated(s.next) && Below(s.blocked, s.next) && CnfBelow(s.db, s.next) && n < |s.blocked|
    ensures var t := WithGreaterThan(s, n);
      s.next <= t.next && !IsNegated(t.next) && CnfBelow(t.db, t.next)
  {
    NetworkBelow(s.db, s.blocked, n + 1, false, true, s.next);
  }

  lemma GreaterThanConservative(s: State, n: nat)
    requires !IsNegated(s.next) && Below(s.blocked, s.next) && CnfBelow(s.db, s.next) && n < |s.blocked|
    ensures var t := WithGreaterThan(s, n);
      Step(s.db, s.cache, t.db, t.cache, s.next, t.next, s.blocked, n, MoreThan(s, n))
  {
    GreaterThanStep(s.db, s.cache, s.blocked, n, s.next);
  }

  lemma GreaterThanCardStep(s: State, n: nat)
    requires s.Ready() && n < |s.blocked|
    ensures Stepped(s, WithGreaterThan(s, n), n, MoreThan(s, n))
  {
    ReadyBasics(s);
    GreaterThanPlaced(s, n);
    GreaterThanSound(s, n);
    GreaterThanConservative(s, n);
    SteppedMeans(s, WithGreaterThan(s, n), n, MoreThan(s, n));
  }

  // ----- the search loop -----

  /** What one call of doSolve knows besides the state: models missing excl or
      more blocked literals are no longer looked for. */
  datatype Search = Search(hint: ID, assumps: Cube, excl: int, first: bool, tight: bool, n: nat)

  ghost predicate Searching(s: State, q: Search) {
    && s.Ready()
    && (exists v: Valuation :: Hard(v, s.clauses))
    && !IsNegated(q.hint) && q.hint < s.next
    && Reaches(s.clauses, s.blocked, |s.blocked| + 1, s.hidden, s.db, s.cache, {Negate(q.hint)})
    && Reaches(s.clauses, s.blocked, q.excl, s.hidden, s.db, s.cache, Elems(q.assumps) + {q.hint})
    && (if q.first then q.excl == |s.blocked| + 1 && q.assumps == [] && !q.tight
        else q.excl == |s.opt| - s.lb && s.lb + s.rounds < |s.opt|)
    && (q.tight ==> q.n < |s.blocked|)
    && (q.tight ==> forall w: Valuation :: Models(w, s.db) && SatCube(w, q.assumps) ==> Count(w, s.blocked) > q.n)
  }

  ghost predicate FoldedSearch(s: State, q: Search, k: nat) {
    if k == 0 then Searching(s, q) else FoldedSearch(s, q, k - 1)
  }

  /** The loop invariant, folded up. */
  ghost predicate SearchOk(s: State, q: Search) {
    FoldedSearch(s, q, s.next)
  }

  lemma {:induction false} UnfoldSearch(s: State, q: Search, k: nat)
    ensures FoldedSearch(s, q, k) <==> Searching(s, q)
  {
    if k > 0 {
      UnfoldSearch(s, q, k - 1);
    }
  }

  lemma SearchMeans(s: State, q: Search)
    ensures SearchOk(s, q) <==> Searching(s, q)
  {
    UnfoldSearch(s, q, s.next);
  }

  function Hinted(s: State): State {
    s.(hidden := s.hidden + {s.next}, next := s.next + ID_INCR)
  }

  lemma HintKeeps(s: State)
    ensures Keeps(s, Hinted(s))
  {
    KeepsMeans(s, Hinted(s));
  }

  lemma KnownStays(s: State, t: State)
    requires s.AllKnown() && t.clauses == s.clauses && t.opt == s.opt && t.blocked == s.blocked && s.next <= t.next
    requires forall x :: x in t.hidden ==> x in s.hidden || s.next <= x < t.next
    requires MIN_ID <= s.next
    ensures t.AllKnown()
  {
  }

  lemma HintedNames(s: State)
    requires s.Names()
    ensures Hinted(s).Names()
  {
    KnownStays(s, Hinted(s));
  }

  lemma HintedStore(s: State)
    requires s.Store() && !IsNegated(s.next)
    ensures Hinted(s).Store()
    ensures Reaches(s.clauses, s.blocked, |s.blocked| + 1, s.hidden + {s.next}, s.db, s.cache, {s.next})
    ensures Reaches(s.clauses, s.blocked, |s.blocked| + 1, s.hidden + {s.next}, s.db, s.cache, {Negate(s.next)})
  {
    FreshHint(s.clauses, s.blocked, s.hidden, s.db, s.cache, s.next, true);
    FreshHint(s.clauses, s.blocked, s.hidden, s.db, s.cache, s.next, false);
    LessDemand(s.clauses, s.blocked, |s.blocked| + 1, s.hidden + {s.next}, s.db, s.cache, {s.next}, {});
  }

  lemma LessDemand(clauses: seq<Clause>, blocked: seq<ID>, excl: int, hidden: set<ID>, db: seq<Clause>, cache: Cache,
                   assumps: set<ID>, assumps': set<ID>)
    requires Reaches(clauses, blocked, excl, hidden, db, cache, assumps) && assumps' <= assumps
    ensures Reaches(clauses, blocked, excl, hidden, db, cache, assumps')
  {
    WeakerReaches(clauses, clauses, blocked, [], excl, excl, hidden, db, cache, assumps, assumps');
    assert blocked + [] == blocked;
  }

  lemma HintedReady(s: State)
    requires s.Ready()
    ensures Hinted(s).Ready() && !IsNegated(s.next)
    ensures Reaches(s.clauses, s.blocked, |s.blocked| + 1, s.hidden + {s.next}, s.db, s.cache, {s.next})
    ensures Reaches(s.clauses, s.blocked, |s.blocked| + 1, s.hidden + {s.next}, s.db, s.cache, {Negate(s.next)})
  {
    ReadyMeans(s);
    HintedNames(s);
    HintedStore(s);
    assert Hinted(s).Account();
    ReadyMeans(Hinted(s));
  }

  lemma StartSearch(s: State)
    requires s.Ready() && exists v: Valuation :: Hard(v, s.clauses)
    ensures SearchOk(Hinted(s), Search(s.next, [], |s.blocked| + 1, true, false, 0))
  {
    var q := Search(s.next, [], |s.blocked| + 1, true, false, 0);
    HintedReady(s);
    assert Elems([]) + {s.next} == {s.next};
    SearchMeans(Hinted(s), q);
  }

  lemma UnsatMeans(db: seq<Clause>, assumps: set<ID>, w: Valuation)
    requires Unsat(db, assumps)
    ensures !(Models(w, db) && SatAll(w, assumps))
  {
    assert !Satisfies(w, db, assumps);
  }

  /** Whatever the solver answers about the hard clauses alone is the truth. */
  lemma HardAnswer(s: State, assumps: set<ID>)
    requires s.Ready() && Unsat(s.db, assumps) && assumps == {}
    ensures forall v: Valuation :: !Hard(v, s.clauses)
  {
    ReadyMeans(s);
    forall v: Valuation
      ensures !Hard(v, s.clauses)
    {
      CountBound(v, s.blocked);
      if Hard(v, s.clauses) {
        var w: Valuation :| Extends(v, w, s.hidden, s.db, s.cache) && SatAll(w, {});
        UnsatMeans(s.db, assumps, w);
      }
    }
  }

  // ----- a model was found -----

  function Improved(s: State, soln: set<ID>): State {
    if |s.soln| < |soln| then s.(soln := soln, lb := |soln|) else s
  }

  /** A model of the query is a model of the hard clauses that satisfies every
      literal still assumed. */
  lemma ModelFound(s: State, w: Valuation)
    requires s.Ready() && Models(w, s.db) && SatAll(w, s.initial)
    ensures Hard(w, s.clauses)
    ensures |TrueIn(w, s.opt)| == |s.initial| + Count(w, s.blocked)
    ensures |s.opt| == |s.initial| + |s.blocked|
  {
    ReadyMeans(s);
    DbIsHard(w, s.clauses, s.db);
    PartitionCount(w, s.opt, s.initial, s.blocked);
  }

  lemma ImprovedReady(s: State, w: Valuation)
    requires s.Ready() && Hard(w, s.clauses)
    ensures Improved(s, TrueIn(w, s.opt)).Ready()
    ensures Improved(s, TrueIn(w, s.opt)).lb >= |TrueIn(w, s.opt)|
    ensures Improved(s, TrueIn(w, s.opt)).lb >= s.lb
  {
    var t := Improved(s, TrueIn(w, s.opt));
    ReadyMeans(s);
    ReadyMeans(t);
    BetterKeepsBounds(s.Bound(), w);
    assert t.Names() && t.Store();
    assert t.Account();
  }

  /** A model with every literal true cannot be improved. */
  lemma AllTrueIsOptimal(s: State, some: Valuation)
    requires s.Ready() && Hard(some, s.clauses) && s.lb >= |s.opt|
    ensures Optimal(s.clauses, s.opt, s.soln)
  {
    ReadyMeans(s);
    forall v: Valuation | Hard(v, s.clauses)
      ensures |TrueIn(v, s.opt)| <= s.lb
    {
      SubsetSize(TrueIn(v, s.opt), s.opt);
    }
    BestIsOptimal(s.Bound(), some);
  }

  /** The lower bound has reached the upper bound. */
  lemma MeetIsOptimal(s: State, some: Valuation)
    requires s.Ready() && Hard(some, s.clauses) && s.lb == s.ub
    ensures Optimal(s.clauses, s.opt, s.soln)
  {
    ReadyMeans(s);
    UpperBound(s.Bound(), some);
    BoundsMeet(s.Bound(), some);
  }

  lemma CardStepReady(s: State, t: State, n: nat, assumps: Cube)
    requires s.Ready() && Stepped(s, t, n, assumps)
    ensures t.Ready() && Visible(s.blocked, s.hidden)
    ensures t.lb == s.lb && t.ub == s.ub && t.opt == s.opt && t.rounds == s.rounds && t.soln == s.soln
    ensures t.clauses == s.clauses && t.blocked == s.blocked && t.initial == s.initial && s.next <= t.next
    ensures forall w: Valuation :: Models(w, t.db) && SatCube(w, assumps) ==> Count(w, t.blocked) > n
  {
    SteppedMeans(s, t, n, assumps);
    ReadyMeans(s);
    KnownStays(s, t);
    assert t.Names();
    var all := |s.blocked| + 1;
    StepReaches(s.clauses, s.blocked, all, all, s.hidden, s.db, s.cache, {}, t.db, t.cache, s.next, t.next, n, assumps);
    assert t.Store();
    assert t.Account();
    ReadyMeans(t);
  }

  /** The searches allowed before a cardinality step are allowed after it. */
  lemma CardStepKeeps(s: State, u: State, t: State, n: nat, assumps: Cube)
    requires Stepped(u, t, n, assumps) && u.hidden == s.hidden && u.next == s.next
    ensures Keeps(s, t)
  {
    SteppedMeans(u, t, n, assumps);
    KeepsMeans(s, t);
  }

  lemma CardStepReaches(s: State, t: State, q: Search, n: nat, assumps: Cube, excl: int)
    requires Visible(s.blocked, s.hidden) && q.hint < s.next && !IsNegated(q.hint)
    requires Stepped(s, t, n, assumps)
    requires Reaches(s.clauses, s.blocked, |s.blocked| + 1, s.hidden, s.db, s.cache, {Negate(q.hint)})
    requires Reaches(s.clauses, s.blocked, q.excl, s.hidden, s.db, s.cache, Elems(q.assumps) + {q.hint})
    requires excl <= q.excl && excl <= |s.blocked| - n
    ensures Reaches(t.clauses, t.blocked, |t.blocked| + 1, t.hidden, t.db, t.cache, {Negate(q.hint)})
    ensures Reaches(t.clauses, t.blocked, excl, t.hidden, t.db, t.cache, Elems(assumps) + {q.hint})
  {
    SteppedMeans(s, t, n, assumps);
    var all := |s.blocked| + 1;
    StepReaches(s.clauses, s.blocked, all, all, s.hidden, s.db, s.cache, {Negate(q.hint)},
      t.db, t.cache, s.next, t.next, n, assumps);
    LessDemand(s.clauses, s.blocked, q.excl, s.hidden, s.db, s.cache, Elems(q.assumps) + {q.hint}, {q.hint});
    StepReaches(s.clauses, s.blocked, q.excl, excl, s.hidden, s.db, s.cache, {q.hint},
      t.db, t.cache, s.next, t.next, n, assumps);
    assert {q.hint} + Elems(assumps) == Elems(assumps) + {q.hint};
  }

  /** Short of a bound that meets, the best solution leaves room for one more round. */
  lemma RoomLeft(s: State, some: Valuation)
    requires s.Ready() && Hard(some, s.clauses)
    ensures s.lb + s.rounds <= |s.opt|
    ensures s.lb != s.ub && s.blocked != [] ==> s.lb + s.rounds < |s.opt|
  {
    ReadyMeans(s);
    UpperBound(s.Bound(), some);
  }

  /** After a model with n blocked literals true, only models with more are looked for. */
  lemma ContinueAfterModel(s: State, q: Search, t: State, n: nat, assumps: Cube, w: Valuation)
    requires s.Ready() && Hard(w, s.clauses) && q.hint < s.next && !IsNegated(q.hint)
    requires Reaches(s.clauses, s.blocked, |s.blocked| + 1, s.hidden, s.db, s.cache, {Negate(q.hint)})
    requires Reaches(s.clauses, s.blocked, q.excl, s.hidden, s.db, s.cache, Elems(q.assumps) + {q.hint})
    requires |s.opt| - s.lb <= q.excl && |s.opt| - s.lb <= |s.blocked| - n
    requires n < |s.blocked| && Stepped(s, t, n, assumps) && t.lb != t.ub
    ensures SearchOk(t, Search(q.hint, assumps, |t.opt| - t.lb, false, true, n))
  {
    CardStepReady(s, t, n, assumps);
    CardStepReaches(s, t, q, n, assumps, |s.opt| - s.lb);
    RoomLeft(s, w);
    SearchIntro(t, Search(q.hint, assumps, |t.opt| - t.lb, false, true, n), w);
  }

  lemma SearchIntro(s: State, q: Search, w: Valuation)
    requires s.Ready() && Hard(w, s.clauses)
    requires !IsNegated(q.hint) && q.hint < s.next
    requires Reaches(s.clauses, s.blocked, |s.blocked| + 1, s.hidden, s.db, s.cache, {Negate(q.hint)})
    requires Reaches(s.clauses, s.blocked, q.excl, s.hidden, s.db, s.cache, Elems(q.assumps) + {q.hint})
    requires !q.first && q.excl == |s.opt| - s.lb && s.lb + s.rounds < |s.opt|
    requires q.tight ==> q.n < |s.blocked|
    requires q.tight ==> forall w: Valuation :: Models(w, s.db) && SatCube(w, q.assumps) ==> Count(w, s.blocked) > q.n
    ensures SearchOk(s, q)
  {
    SearchMeans(s, q);
  }

  // ----- a core was found -----

  function AfterCore(s: State, core: seq<ID>, hint: ID, useHint: bool): State
    requires s.rounds < |s.opt|
  {
    s.(initial := s.initial - Elems(core), blocked := s.blocked + core, rounds := s.rounds + 1,
       ub := |s.opt| - (s.rounds + 1), db := if useHint then s.db + [HintClause(core, hint)] else s.db)
  }

  /** A core that holds without any bound cannot appear once the bounds have met. */
  lemma FirstCoreRoom(s: State, core: seq<ID>, some: Valuation)
    requires s.Ready() && Hard(some, s.clauses)
    requires forall lit :: lit in core ==> lit in s.initial
    requires forall v: Valuation :: Hard(v, s.clauses) ==> !SatCube(v, core)
    ensures s.lb + s.rounds < |s.opt|
  {
    ReadyMeans(s);
    UpperBound(s.Bound(), some);
    if s.lb + s.rounds == |s.opt| {
      var v := TightModel(s.Bound(), some);
      PartSatisfied(v, s.initial, core);
    }
  }

  lemma PartSatisfied(v: Valuation, lits: set<ID>, part: seq<ID>)
    requires SatAll(v, lits) && forall lit :: lit in part ==> lit in lits
    ensures SatCube(v, part)
  {
  }

  lemma CoreAccount(s: State, core: seq<ID>, hint: ID, useHint: bool)
    requires s.Account() && core != [] && Distinct(core) && forall lit :: lit in core ==> lit in s.initial
    requires forall v: Valuation :: Hard(v, s.clauses) && SatCube(v, core) ==> Missed(v, s.blocked) > s.rounds
    requires s.rounds < |s.opt|
    ensures AfterCore(s, core, hint, useHint).Account()
  {
    CoreKeepsBounds(s.Bound(), core);
    assert AfterCore(s, core, hint, useHint).Bound() == MoveCore(s.Bound(), core);
  }

  lemma CoreNames(s: State, core: seq<ID>, hint: ID, useHint: bool)
    requires s.Names() && forall lit :: lit in core ==> lit in s.opt
    requires s.rounds < |s.opt|
    ensures AfterCore(s, core, hint, useHint).Names() && s.Known(core)
  {
    forall lit | lit in core
      ensures Strip(lit) < s.next && Strip(lit) !in s.hidden
    {
      assert s.Known([lit]) && lit in [lit];
    }
    var t := AfterCore(s, core, hint, useHint);
    var k := |s.lastInput|;
    assert k <= |s.blocked| ==> t.blocked[..k] == s.blocked[..k];
    assert t.AllKnown();
  }

  lemma HintClauseBelow(core: seq<ID>, hint: ID, next: ID)
    requires Below(core, next) && hint < next && !IsNegated(hint)
    ensures Below(HintClause(core, hint), next)
  {
    NegatedBelow(core, next);
  }

  lemma CoreStore(s: State, q: Search, core: seq<ID>, useHint: bool)
    requires s.Store() && s.Known(core) && q.hint < s.next && !IsNegated(q.hint) && s.rounds < |s.opt|
    requires Reaches(s.clauses, s.blocked, |s.blocked| + 1, s.hidden, s.db, s.cache, {Negate(q.hint)})
    ensures var t := AfterCore(s, core, q.hint, useHint);
      && t.Store()
      && Reaches(t.clauses, t.blocked, |t.blocked| + 1, t.hidden, t.db, t.cache, {Negate(q.hint)})
  {
    var t := AfterCore(s, core, q.hint, useHint);
    var all := |s.blocked| + 1;
    if useHint {
      HintOffReaches(s.clauses, s.blocked, all, s.hidden, s.db, s.cache, core, q.hint);
      HintClauseBelow(core, q.hint, s.next);
      ModelsGrow(s.db, [HintClause(core, q.hint)]);
    }
    WeakerReaches(s.clauses, s.clauses, s.blocked, core, all, |t.blocked| + 1, t.hidden, t.db, t.cache, {Negate(q.hint)}, {Negate(q.hint)});
    LessDemand(t.clauses, t.blocked, |t.blocked| + 1, t.hidden, t.db, t.cache, {Negate(q.hint)}, {});
  }

  lemma CoreReaches(s: State, q: Search, core: seq<ID>, useHint: bool)
    requires s.Known(core) && s.rounds < |s.opt|
    requires Reaches(s.clauses, s.blocked, q.excl, s.hidden, s.db, s.cache, Elems(q.assumps) + {q.hint})
    requires forall v: Valuation :: Hard(v, s.clauses) && Missed(v, s.blocked) < q.excl ==> !SatCube(v, core)
    requires |s.opt| - s.lb <= q.excl || |s.blocked| < q.excl
    ensures var t := AfterCore(s, core, q.hint, useHint);
      Reaches(t.clauses, t.blocked, |s.opt| - s.lb, t.hidden, t.db, t.cache, Elems(q.assumps) + {q.hint})
  {
    var t := AfterCore(s, core, q.hint, useHint);
    var a := Elems(q.assumps) + {q.hint};
    if useHint {
      HintOnReaches(s.clauses, s.blocked, q.excl, s.hidden, s.db, s.cache, a, core, q.hint);
    }
    WeakerReaches(s.clauses, s.clauses, s.blocked, core, q.excl, |s.opt| - s.lb, t.hidden, t.db, t.cache, a, a);
  }

  lemma CoreReady(s: State, q: Search, core: seq<ID>, useHint: bool)
    requires s.Ready() && q.hint < s.next && !IsNegated(q.hint) && s.rounds < |s.opt|
    requires core != [] && Distinct(core) && forall lit :: lit in core ==> lit in s.initial
    requires forall v: Valuation :: Hard(v, s.clauses) && SatCube(v, core) ==> Missed(v, s.blocked) > s.rounds
    requires Reaches(s.clauses, s.blocked, |s.blocked| + 1, s.hidden, s.db, s.cache, {Negate(q.hint)})
    ensures var t := AfterCore(s, core, q.hint, useHint);
      && t.Ready() && s.Known(core)
      && Reaches(t.clauses, t.blocked, |t.blocked| + 1, t.hidden, t.db, t.cache, {Negate(q.hint)})
  {
    var t := AfterCore(s, core, q.hint, useHint);
    ReadyMeans(s);
    CoreNames(s, core, q.hint, useHint);
    CoreStore(s, q, core, useHint);
    CoreAccount(s, core, q.hint, useHint);
    ReadyMeans(t);
  }

  /** What an unsatisfiable query says about models, before any bookkeeping. */
  lemma CoreMeans(s: State, q: Search, crits: set<ID>, core: seq<ID>)
    requires SearchOk(s, q)
    requires Unsat(s.db, crits) && crits <= s.initial + Elems(q.assumps) + {q.hint}
    requires Elems(core) == crits * s.initial
    ensures forall v: Valuation :: Hard(v, s.clauses) && Missed(v, s.blocked) < q.excl ==> !SatCube(v, core)
    ensures core != [] ==> s.lb + s.rounds < |s.opt|
    ensures forall lit :: lit in core ==> lit in s.initial
  {
    SearchMeans(s, q);
    assert forall lit :: lit in core ==> lit in Elems(core);
    CoreVisible(s, core);
    CoreExcludes(s.clauses, s.blocked, q.excl, s.hidden, s.db, s.cache, Elems(q.assumps) + {q.hint}, crits, core, s.initial);
    if q.first && core != [] {
      forall v: Valuation | Hard(v, s.clauses)
        ensures !SatCube(v, core)
      {
        assert Missed(v, s.blocked) < q.excl;
      }
      var some: Valuation :| Hard(some, s.clauses);
      FirstCoreRoom(s, core, some);
    }
  }

  lemma CoreVisible(s: State, core: seq<ID>)
    requires s.Ready() && forall lit :: lit in core ==> lit in s.initial
    ensures Visible(core, s.hidden)
  {
    ReadyMeans(s);
    forall lit | lit in core
      ensures Strip(lit) !in s.hidden
    {
      assert lit in s.opt && s.Known([lit]) && lit in [lit];
    }
  }

  /** An empty core: nothing beats the best solution. */
  lemma EmptyCoreOptimal(s: State, q: Search, crits: set<ID>)
    requires SearchOk(s, q)
    requires Unsat(s.db, crits) && crits <= s.initial + Elems(q.assumps) + {q.hint} && crits * s.initial == {}
    ensures Optimal(s.clauses, s.opt, s.soln)
  {
    CoreMeans(s, q, crits, []);
    SearchMeans(s, q);
    ReadyMeans(s);
    var some: Valuation :| Hard(some, s.clauses);
    forall v: Valuation | Hard(v, s.clauses)
      ensures Missed(v, s.blocked) >= q.excl
    {
      assert SatCube(v, []);
    }
    assert Missed(some, s.blocked) >= q.excl;
    NothingBetter(s.Bound(), some);
  }

  lemma ContinueAfterCore(s: State, q: Search, crits: set<ID>, core: seq<ID>, useHint: bool)
    requires SearchOk(s, q)
    requires Unsat(s.db, crits) && crits <= s.initial + Elems(q.assumps) + {q.hint}
    requires Elems(core) == crits * s.initial && core != [] && Distinct(core)
    ensures s.lb + s.rounds < |s.opt|
    ensures AfterCore(s, core, q.hint, useHint).Ready()
    ensures var t := AfterCore(s, core, q.hint, useHint);
      && (t.lb == t.ub ==> Optimal(t.clauses, t.opt, t.soln))
      && (t.lb != t.ub ==> SearchOk(t, Search(q.hint, q.assumps, |s.opt| - s.lb, false, false, 0)))
  {
    CoreMeans(s, q, crits, core);
    SearchMeans(s, q);
    var t := AfterCore(s, core, q.hint, useHint);
    forall v: Valuation | Hard(v, s.clauses) && SatCube(v, core)
      ensures Missed(v, s.blocked) > s.rounds
    {
      assert Missed(v, s.blocked) >= q.excl;
    }
    CoreReady(s, q, core, useHint);
    CoreReaches(s, q, core, useHint);
    var some: Valuation :| Hard(some, s.clauses);
    if t.lb != t.ub {
      SearchIntro(t, Search(q.hint, q.assumps, |s.opt| - s.lb, false, false, 0), some);
    } else {
      MeetIsOptimal(t, some);
    }
  }

  lemma CoreShrinks(initial: set<ID>, core: seq<ID>)
    requires core != [] && forall lit :: lit in core ==> lit in initial
    ensures |initial - Elems(core)| < |initial|
  {
    assert core[0] in initial && core[0] !in initial - Elems(core);
    SubsetSize(initial - Elems(core), initial - {core[0]});
  }

  // ----- one turn of the loop -----

  lemma PlainModel(s: State, w: Valuation)
    requires s.Ready() && Models(w, s.db)
    ensures Hard(w, s.clauses)
  {
    ReadyMeans(s);
    DbIsHard(w, s.clauses, s.db);
  }

  /** A query's model improves the solution, and beats the last one on the same blocked literals. */
  lemma OnModel(s: State, q: Search, w: Valuation)
    requires SearchOk(s, q)
    requires Models(w, s.db) && SatAll(w, s.initial) && SatCube(w, q.assumps)
    ensures Hard(w, s.clauses)
    ensures var t := Improved(s, TrueIn(w, s.opt));
      && t.Ready() && t.lb >= |s.initial| + Count(w, s.blocked) && t.lb >= s.lb
      && (Count(w, s.blocked) == |s.blocked| ==> Optimal(t.clauses, t.opt, t.soln)) && Keeps(s, t)
    ensures |s.opt| == |s.initial| + |s.blocked| && Count(w, s.blocked) <= |s.blocked|
    ensures q.tight ==> Count(w, s.blocked) > q.n
  {
    SearchMeans(s, q);
    ModelFound(s, w);
    ImprovedReady(s, w);
    KeepsSame(s, Improved(s, TrueIn(w, s.opt)));
    CountBound(w, s.blocked);
    if Count(w, s.blocked) == |s.blocked| {
      AllTrueIsOptimal(Improved(s, TrueIn(w, s.opt)), w);
    }
  }

  /** The model w has n of the blocked literals true, but not all, and its solution
      is no worse than the best one. */
  ghost predicate Beaten(s: State, q: Search, w: Valuation, n: nat) {
    && SearchOk(s, q) && Hard(w, s.clauses) && n == Count(w, s.blocked)
    && var u := Improved(s, TrueIn(w, s.opt));
      && u.Ready() && u.lb >= |s.initial| + n && u.lb >= s.lb && |s.opt| == |s.initial| + |s.blocked|
      && n < |s.blocked|
  }

  lemma AfterModel(s: State, q: Search, w: Valuation, t: State, assumps: Cube)
    requires Beaten(s, q, w, Count(w, s.blocked))
    requires Stepped(Improved(s, TrueIn(w, s.opt)), t, Count(w, s.blocked), assumps)
    ensures t.Ready() && Keeps(s, t)
    ensures t.lb == t.ub ==> Optimal(t.clauses, t.opt, t.soln)
    ensures t.lb != t.ub ==> SearchOk(t, Search(q.hint, assumps, |t.opt| - t.lb, false, true, Count(w, s.blocked)))
  {
    var u := Improved(s, TrueIn(w, s.opt));
    var n := Count(w, s.blocked);
    CardStepReady(u, t, n, assumps);
    CardStepKeeps(s, u, t, n, assumps);
    if t.lb == t.ub {
      MeetIsOptimal(t, w);
    } else {
      SearchParts(s, q);
      assert |u.opt| - u.lb <= |u.blocked| - n;
      ContinueAfterModel(u, q, t, n, assumps, w);
    }
  }

  lemma SearchParts(s: State, q: Search)
    requires SearchOk(s, q)
    ensures !IsNegated(q.hint) && q.hint < s.next
    ensures Reaches(s.clauses, s.blocked, |s.blocked| + 1, s.hidden, s.db, s.cache, {Negate(q.hint)})
    ensures Reaches(s.clauses, s.blocked, q.excl, s.hidden, s.db, s.cache, Elems(q.assumps) + {q.hint})
    ensures q.excl == |s.opt| - s.lb || q.excl == |s.blocked| + 1
  {
    SearchMeans(s, q);
  }

  /** The verdict flags are not part of the working state. */
  lemma FlagsKeepReady(s: State, isSat: bool, absoluteUnsat: bool)
    requires s.Ready()
    ensures s.(isSat := isSat, absoluteUnsat := absoluteUnsat).Ready()
  {
    ReadyMeans(s);
    ReadyMeans(s.(isSat := isSat, absoluteUnsat := absoluteUnsat));
  }

  lemma FinishOptimal(s: State)
    requires s.Ready() && !s.absoluteUnsat && Optimal(s.clauses, s.opt, s.soln)
    ensures s.(isSat := true).Ok()
  {
    FlagsKeepReady(s, true, false);
    OkMeans(s.(isSat := true));
  }

  lemma FinishUnsat(s: State)
    requires s.Ok() && forall v: Valuation :: !Hard(v, s.clauses)
    ensures s.(absoluteUnsat := true).Ok()
  {
    OkMeans(s);
    FlagsKeepReady(s, s.isSat, true);
    OkMeans(s.(absoluteUnsat := true));
  }

  lemma SearchIsReady(s: State, q: Search)
    requires SearchOk(s, q)
    ensures s.Ready()
  {
    SearchMeans(s, q);
  }

  /** How many more models the loop can see before the next core. */
  ghost function Left(q: Search, blocked: nat): nat {
    if !q.tight then blocked + 1 else if q.n < blocked then blocked - q.n else 0
  }

  /** The loop of doSolve: a maximum has been found, or the search goes on. */
  ghost predicate Underway(done: bool, s: State, q: Search) {
    if done then s.Ready() && Optimal(s.clauses, s.opt, s.soln) else SearchOk(s, q)
  }

  class Msu4MaxSatSolver {
    const vm: VariableManager
    const solver: SatAdaptor
    const resetSolverPeriod: nat
    const resetAllPeriod: nat
    const useHintClauses: bool

    var isSat: bool
    var absoluteUnsat: bool
    var optimizationSet: set<ID>
    var clauses: seq<Clause>
    var solves: nat
    var unsatRounds: nat
    var lb: nat
    var ub: nat
    var currentSoln: set<ID>
    var initialAssumps: set<ID>
    var blockedAssumps: Cube
    var lastCardinalityInput: multiset<ID>  // compared after sorting, so as a multiset
    var cardinality: SortingConstraint?
    ghost var hidden: set<ID>  // variables of networks and hints

    ghost function Abs(): State
      reads this, vm, solver, cardinality
    {
      State(clauses, optimizationSet, initialAssumps, blockedAssumps, unsatRounds, lb, currentSoln,
            ub, isSat, absoluteUnsat, hidden, vm.nextID, solver.clauses, lastCardinalityInput,
            if lastCardinalityInput != multiset{} && cardinality != null
            then Cache(cardinality.inputs, cardinality.outputs) else NoCache)
    }

    /** The kept constraint can be asked for assumptions. */
    ghost predicate CacheReady()
      reads this, cardinality
    {
      lastCardinalityInput != multiset{} ==>
        && cardinality != null && cardinality.cnfized && cardinality.le
        && |cardinality.outputs| == Min(cardinality.cardinality, |cardinality.inputs|)
    }

    ghost predicate Valid()
      reads this, vm, solver, cardinality
    {
      resetSolverPeriod > 0 && CacheReady() && Abs().Ok()
    }

    constructor (vm: VariableManager, resetSolverPeriod: nat, resetAllPeriod: nat, useHintClauses: bool)
      requires vm.Valid() && resetSolverPeriod > 0
      ensures Valid() && fresh(solver) && this.vm == vm
      ensures clauses == [] && optimizationSet == {} && hidden == {} && !isSat
    {
      this.vm := vm;
      solver := new SatAdaptor();
      this.resetSolverPeriod := resetSolverPeriod;
      this.resetAllPeriod := resetAllPeriod;
      this.useHintClauses := useHintClauses;
      isSat, absoluteUnsat := false, false;
      optimizationSet, clauses := {}, [];
      solves, unsatRounds, lb, ub := 0, 0, 0, UINT_MAX;
      currentSoln, initialAssumps, blockedAssumps := {}, {}, [];
      lastCardinalityInput, cardinality := multiset{}, null;
      hidden := {};
      new;
      PlainDb([], [], {}, vm.nextID);
      assert Elems([]) == {};
      OkMeans(Abs());
      ReadyMeans(Abs());
    }

    method AddClause(cls: Clause)
      requires Valid() && cls != [] && Abs().Known(cls)
      modifies this, solver
      ensures Valid() && Abs() == AddedClause(old(Abs()), cls)
    {
      AddedClauseOk(Abs(), cls);
      clauses := clauses + [cls];
      solver.AddClause(cls);

      isSat := false;
      lb := 0;
      currentSoln := {};
    }

    method AddClauses(vec: seq<Clause>)
      requires Valid() && forall cls | cls in vec :: cls != [] && Abs().Known(cls)
      modifies this, solver
      ensures Valid()
      ensures clauses == old(clauses) + vec && optimizationSet == old(optimizationSet)
      ensures vec != [] ==> !isSat
    {
      for i := 0 to |vec|
        invariant Valid() && Abs().hidden == old(Abs().hidden) && Abs().next == old(Abs().next)
        invariant clauses == old(clauses) + vec[..i] && optimizationSet == old(optimizationSet)
        invariant i > 0 ==> !isSat
      {
        assert vec[i] in vec;
        AddClause(vec[i]);
      }
    }

    method ResetCardinality()
      modifies this`cardinality, this`lastCardinalityInput
      ensures cardinality == null && lastCardinalityInput == multiset{}
    {
      cardinality := null;
      lastCardinalityInput := multiset{};
    }

    /** Starts over with all optimisation literals assumed; the solver keeps its clauses. */
    method Reset()
      modifies this
      ensures Abs() == Started(old(Abs()), old(optimizationSet)) && CacheReady() && solves == 0
    {
      ResetCardinality();

      isSat := false;
      lb := 0;
      currentSoln := {};

      ub := UINT_MAX;

      blockedAssumps := [];
      initialAssumps := optimizationSet;
      solves := 0;
      unsatRounds := 0;
      absoluteUnsat := false;
    }

    method AddForOptimization(lit: ID) returns (r: Result<()>)
      requires Valid() && Abs().Known([lit]) && |optimizationSet| + 1 < UINT_MAX
      modifies this
      ensures Valid()
      ensures if lit in old(optimizationSet)
        then r.Failure? && Abs() == old(Abs())
        else r.Success? && Abs() == Started(old(Abs()), old(optimizationSet) + {lit})
    {
      if lit in optimizationSet {
        return Failure(InvalidArgument);
      }
      OkMeans(Abs());
      ReadyMeans(Abs());
      assert forall l | l in optimizationSet + {lit} :: l == lit || l in optimizationSet;
      StartedOk(Abs(), optimizationSet + {lit});
      optimizationSet := optimizationSet + {lit};
      Reset();
      r := Success(());
    }

    method ExtractSolution() returns (soln: set<ID>)
      ensures soln == TrueIn(solver.model, optimizationSet)
    {
      soln := {};
      var rest := optimizationSet;
      while rest != {}
        invariant rest <= optimizationSet
        invariant soln == TrueIn(solver.model, optimizationSet - rest)
        decreases rest
      {
        var lit :| lit in rest;
        if Holds(solver.model, lit) {
          soln := soln + {lit};
        }
        rest := rest - {lit};
      }
      assert optimizationSet - rest == optimizationSet;
    }

    /** The critical assumptions that are optimisation literals, in some order. */
    method ExtractCore(crits: set<ID>) returns (core: Cube)
      ensures Elems(core) == crits * initialAssumps && Distinct(core)
    {
      core := [];
      var rest := crits;
      while rest != {}
        invariant rest <= crits && Distinct(core)
        invariant Elems(core) == (crits - rest) * initialAssumps
        decreases rest
      {
        var lit :| lit in rest;
        if lit in initialAssumps {
          assert lit !in Elems(core);
          assert Elems(core + [lit]) == Elems(core) + {lit};
          core := core + [lit];
        }
        assert crits - (rest - {lit}) == (crits - rest) + {lit};
        rest := rest - {lit};
      }
    }

    method NumSatisfied(lits: Cube) returns (count: nat)
      ensures count == Count(solver.model, lits)
    {
      count := 0;
      for i := 0 to |lits|
        invariant count == Count(solver.model, lits[..i])
      {
        assert lits[..i + 1] == lits[..i] + [lits[i]];
        CountConcat(solver.model, lits[..i], [lits[i]]);
        if Holds(solver.model, lits[i]) {
          count := count + 1;
        }
      }
      assert lits[..|lits|] == lits;
    }

    /** Assumptions that ask for more than n true blocked literals. */
    method AddCardinality(inputs: Cube, n: nat) returns (assumps: Cube)
      requires Abs().Ready() && CacheReady() && inputs == blockedAssumps && n < |inputs|
      modifies this`lastCardinalityInput, this`cardinality, this`hidden, solver, vm
      ensures CacheReady() && Stepped(old(Abs()), Abs(), n, assumps)
    {
      var negN := |inputs| - n;
      assert inputs[0] in multiset(inputs);
      if multiset(inputs) == lastCardinalityInput && cardinality.OutputCardinality() > negN {
        assumps := ReuseLessThan(inputs, n);
      } else if negN < n * 8 {
        assumps := StartLessThan(inputs, n);
      } else {
        assumps := StartGreaterThan(inputs, n);
      }
    }

    method ReuseLessThan(inputs: Cube, n: nat) returns (assumps: Cube)
      requires Abs().Ready() && CacheReady() && inputs == blockedAssumps && n < |inputs|
      requires multiset(inputs) == lastCardinalityInput && cardinality != null
      requires cardinality.OutputCardinality() > |inputs| - n
      ensures Stepped(Abs(), Abs(), n, assumps)
    {
      ghost var s := Abs();
      ReadyBasics(s);
      CacheBasics(s);
      CachedCardStep(s, n);
      var r := cardinality.AssumeLT(|inputs| - n);
      assumps := r.value;
    }

    method StartLessThan(inputs: Cube, n: nat) returns (assumps: Cube)
      requires Abs().Ready() && CacheReady() && inputs == blockedAssumps && n < |inputs|
      modifies this`lastCardinalityInput, this`cardinality, this`hidden, solver, vm
      ensures CacheReady() && Stepped(old(Abs()), Abs(), n, assumps)
    {
      ghost var s := Abs();
      ReadyBasics(s);
      assumps := AddLessThan(inputs, n);
      NonEmptyInput(inputs);
      LessThanStarted(s, Abs(), n, assumps);
    }

    method StartGreaterThan(inputs: Cube, n: nat) returns (assumps: Cube)
      requires Abs().Ready() && CacheReady() && inputs == blockedAssumps && n < |inputs|
      modifies this`lastCardinalityInput, this`hidden, solver, vm
      ensures CacheReady() && Stepped(old(Abs()), Abs(), n, assumps)
    {
      ghost var s := Abs();
      ReadyBasics(s);
      GreaterThanCardStep(s, n);
      assumps := AddGreaterThan(inputs, n);
    }

    method AddLessThan(inputs: Cube, n: nat) returns (assumps: Cube)
      requires vm.Valid() && n < |inputs|
      modifies this`lastCardinalityInput, this`cardinality, this`hidden, solver, vm
      ensures CacheReady() && cardinality != null && lastCardinalityInput == multiset(inputs)
      ensures cardinality.inputs == NegateVec(inputs)
      ensures var net := CountingNetwork(old(vm.nextID), NegateVec(inputs), |inputs| - n + 1);
        && cardinality.outputs == net.outputs && vm.nextID == net.next
        && solver.clauses == old(solver.clauses) + Emit(net.gates, true, false)
        && hidden == old(hidden) + Range(old(vm.nextID), net.next)
        && assumps == FalseAfter(net.outputs, |inputs| - n - 1)
    {
      var negN := |inputs| - n;
      var constraint, cnf := NewConstraint(vm, NegateVec(inputs), negN + 1, true, false);
      solver.AddClauses(cnf);
      var r := constraint.AssumeLT(negN);
      assumps := r.value;
      cardinality := constraint;
      lastCardinalityInput := multiset(inputs);
      hidden := hidden + Range(old(vm.nextID), vm.nextID);
    }

    method AddGreaterThan(inputs: Cube, n: nat) returns (assumps: Cube)
      requires vm.Valid() && inputs == blockedAssumps && n < |inputs|
      modifies this`lastCardinalityInput, this`hidden, solver, vm
      ensures CacheReady() && Abs() == WithGreaterThan(old(Abs()), n)
      ensures assumps == TrueBefore(CountingNetwork(old(vm.nextID), inputs, n + 1).outputs, n + 1)
    {
      var constraint, cnf := NewConstraint(vm, inputs, n + 1, false, true);
      solver.AddClauses(cnf);
      var r := constraint.AssumeGT(n);
      assumps := r.value;
      lastCardinalityInput := multiset{};
      hidden := hidden + Range(old(vm.nextID), vm.nextID);
    }

    /** Drops everything the solver learned besides the hard clauses. */
    method ResetSolver()
      requires forall cls | cls in clauses :: cls != []
      modifies this`cardinality, this`lastCardinalityInput, solver
      ensures Abs() == PlainSolver(old(Abs())) && CacheReady()
    {
      ResetCardinality();
      solver.Reset();
      for i := 0 to |clauses|
        invariant solver.clauses == [[ID_TRUE]] + clauses[..i]
        invariant cardinality == null && lastCardinalityInput == multiset{}
      {
        assert clauses[i] in clauses;
        solver.AddClause(clauses[i]);
        assert clauses[..i + 1] == clauses[..i] + [clauses[i]];
      }
      assert clauses[..|clauses|] == clauses;
    }

    /** Periodic resets, for speed only. */
    method ResetPeriodically()
      requires Valid()
      modifies this, solver
      ensures Abs().Ready() && CacheReady() && Abs().Ok()
      ensures hidden == old(hidden) && clauses == old(clauses) && optimizationSet == old(optimizationSet)
    {
      ghost var s := Abs();
      OkMeans(s);
      ReadyMeans(s);
      if solves > resetAllPeriod {
        ResetSolver();
        PlainSolverOk(s);
        StartedOk(PlainSolver(s), optimizationSet);
        Reset();
        OkMeans(Abs());
      } else if solves % resetSolverPeriod == 0 {
        ResetSolver();
        PlainSolverOk(s);
        OkMeans(Abs());
      }
    }

    /** The periodic resets, and the count of calls. */
    method Prepare()
      requires Valid()
      modifies this, solver
      ensures Valid()
      ensures hidden == old(hidden) && clauses == old(clauses) && optimizationSet == old(optimizationSet)
    {
      ResetPeriodically();
      solves := solves + 1;
      OkMeans(Abs());
    }

    /** Finds a model of the hard clauses with as many optimisation literals true
        as possible. Whatever could be mentioned before can be mentioned after. */
    method DoSolve() returns (sat: bool)
      requires Valid()
      modifies this, solver, vm
      ensures Valid() && clauses == old(clauses) && optimizationSet == old(optimizationSet)
      ensures sat <==> exists v: Valuation :: Hard(v, clauses)
      ensures sat ==> isSat && Optimal(clauses, optimizationSet, currentSoln)
      ensures KeepsKnown(old(Abs().Words()), Abs().Words())
    {
      ghost var s := Abs();
      Prepare();
      // Check if the hard clauses are satisfiable
      sat := HardSat();
      KeepsSame(s, Abs());
      if sat {
        SearchBest(s);
      }
      KeepsMeans(s, Abs());
    }

    method SearchBest(ghost s: State)
      requires CacheReady() && resetSolverPeriod > 0 && !absoluteUnsat && Abs().Ready() && Keeps(s, Abs())
      requires exists v: Valuation :: Hard(v, clauses)
      modifies this`currentSoln, this`lb, this`lastCardinalityInput, this`cardinality, this`hidden
      modifies this`initialAssumps, this`blockedAssumps, this`unsatRounds, this`ub, this`isSat, solver, vm
      ensures Valid() && isSat && Keeps(s, Abs())
      ensures Optimal(clauses, optimizationSet, currentSoln)
    {
      ghost var t := Abs();
      StartSearch(t);
      var hintLit := NewHint();
      HintKeeps(t);
      KeepsMore(s, t, Abs());
      ghost var u := Abs();
      Maximize(hintLit);
      KeepsMore(s, u, Abs());
      ghost var w := Abs();
      FinishOptimal(w);
      isSat := true;
      KeepsSame(w, Abs());
      KeepsMore(s, w, Abs());
    }

    /** Reads a value off the solution; only optimisation variables have one. */
    method GetAssignment(lit: ID) returns (r: Result<ModelValue>)
      requires isSat
      ensures r.Success? <==> lit in optimizationSet || Negate(lit) in optimizationSet
      ensures r.Success? ==> forall w: Valuation | TrueIn(w, optimizationSet) == currentSoln ::
        r.value == TRUE <==> Holds(w, lit)
    {
      var nlit := Negate(lit);
      if lit !in optimizationSet && nlit !in optimizationSet {
        return Failure(InvalidArgument);
      }
      if lit in currentSoln {
        r := Success(TRUE);
      } else if nlit in currentSoln {
        r := Success(FALSE);
      } else if lit in optimizationSet {
        r := Success(FALSE);
      } else {
        r := Success(TRUE);
      }
      forall w: Valuation | TrueIn(w, optimizationSet) == currentSoln
        ensures r.value == TRUE <==> Holds(w, lit)
      {
        ReadsBack(w, optimizationSet, lit);
      }
    }

    method HardSat() returns (sat: bool)
      requires Valid()
      modifies this`absoluteUnsat, solver
      ensures Valid() && Abs() == old(Abs()).(absoluteUnsat := !sat)
      ensures sat <==> exists v: Valuation :: Hard(v, clauses)
      ensures sat ==> Abs().Ready()
    {
      OkMeans(Abs());
      if absoluteUnsat {
        return false;
      }
      var crits: set<ID>;
      sat, crits := solver.Solve({});
      if sat {
        PlainModel(Abs(), solver.model);
      } else {
        HardAnswer(Abs(), crits);
        FinishUnsat(Abs());
        absoluteUnsat := true;
      }
    }

    method NewHint() returns (hintLit: ID)
      requires Abs().Ready()
      modifies this`hidden, vm
      ensures Abs() == Hinted(old(Abs())) && hintLit == old(vm.nextID)
    {
      ReadyBasics(Abs());
      hintLit := vm.GetNewID();
      hidden := hidden + {hintLit};
    }

    /** The loop of doSolve. */
    method Maximize(hintLit: ID)
      requires CacheReady() && SearchOk(Abs(), Search(hintLit, [], |blockedAssumps| + 1, true, false, 0))
      modifies this`currentSoln, this`lb, this`lastCardinalityInput, this`cardinality, this`hidden
      modifies this`initialAssumps, this`blockedAssumps, this`unsatRounds, this`ub, solver, vm
      ensures CacheReady() && Abs().Ready() && Keeps(old(Abs()), Abs())
      ensures Optimal(clauses, optimizationSet, currentSoln)
    {
      var cardinalityAssumps: Cube := [];
      ghost var q := Search(hintLit, [], |blockedAssumps| + 1, true, false, 0);
      var done := false;
      KeepsSame(Abs(), Abs());
      while !done
        invariant CacheReady() && q.assumps == cardinalityAssumps && q.hint == hintLit
        invariant Underway(done, Abs(), q) && Keeps(old(Abs()), Abs())
        decreases !done, |initialAssumps|, Left(q, |blockedAssumps|)
      {
        ghost var s := Abs();
        done, cardinalityAssumps, q := Ask(cardinalityAssumps, hintLit, q);
        KeepsMore(old(Abs()), s, Abs());
      }
    }

    /** One query of the loop. */
    method Ask(cardinalityAssumps: Cube, hintLit: ID, ghost q: Search)
      returns (done: bool, nextAssumps: Cube, ghost q': Search)
      requires CacheReady() && SearchOk(Abs(), q) && q.assumps == cardinalityAssumps && q.hint == hintLit
      modifies this`currentSoln, this`lb, this`lastCardinalityInput, this`cardinality, this`hidden
      modifies this`initialAssumps, this`blockedAssumps, this`unsatRounds, this`ub, solver, vm
      ensures CacheReady() && q'.assumps == nextAssumps && q'.hint == hintLit
      ensures Underway(done, Abs(), q') && Keeps(old(Abs()), Abs())
      ensures !done ==>
        || |initialAssumps| < |old(initialAssumps)|
        || (|initialAssumps| == |old(initialAssumps)| && Left(q', |blockedAssumps|) < Left(q, |old(blockedAssumps)|))
    {
      var assumps := initialAssumps + Elems(cardinalityAssumps);
      if useHintClauses {
        assumps := assumps + {hintLit};
      }
      var sat, crits := solver.Solve(assumps);
      if sat {
        done, nextAssumps, q' := OnSat(cardinalityAssumps, q);
      } else {
        done, q' := OnUnsat(crits, hintLit, q);
        nextAssumps := cardinalityAssumps;
        KeepsSame(old(Abs()), Abs());
      }
    }

    /** Keeps the model's solution if it is better than the best one. */
    method RecordModel()
      modifies this`currentSoln, this`lb
      ensures Abs() == Improved(old(Abs()), TrueIn(solver.model, optimizationSet))
    {
      var soln := ExtractSolution();
      if |currentSoln| < |soln| {
        currentSoln := soln;
        lb := |soln|;
      }
    }

    /** A better model may exist: record this one and ask for more. */
    method OnSat(cardinalityAssumps: Cube, ghost q: Search) returns (done: bool, assumps: Cube, ghost q': Search)
      requires CacheReady() && SearchOk(Abs(), q) && q.assumps == cardinalityAssumps
      requires Models(solver.model, solver.clauses)
      requires SatAll(solver.model, initialAssumps) && SatCube(solver.model, q.assumps)
      modifies this`currentSoln, this`lb, this`lastCardinalityInput, this`cardinality, this`hidden, solver, vm
      ensures CacheReady() && q'.assumps == assumps && q'.hint == q.hint
      ensures Underway(done, Abs(), q') && Keeps(old(Abs()), Abs())
      ensures !done ==> q'.tight && q'.n < |blockedAssumps| && (q.tight ==> q'.n > q.n)
    {
      ghost var s, w := Abs(), solver.model;
      OnModel(s, q, w);
      assumps, q' := cardinalityAssumps, q;
      RecordModel();
      var n := NumSatisfied(blockedAssumps);
      if n == |blockedAssumps| {
        done := true;
      } else {
        done, assumps := AskForMore(n, s, q, w);
        q' := Search(q.hint, assumps, |optimizationSet| - lb, false, true, n);
      }
    }

    /** Asks for more than n true blocked literals. */
    method AskForMore(n: nat, ghost s: State, ghost q: Search, ghost w: Valuation) returns (done: bool, assumps: Cube)
      requires CacheReady() && Beaten(s, q, w, n) && Abs() == Improved(s, TrueIn(w, s.opt))
      modifies this`lastCardinalityInput, this`cardinality, this`hidden, solver, vm
      ensures CacheReady() && Keeps(s, Abs()) && done == (lb == ub)
      ensures blockedAssumps == s.blocked
      ensures Underway(done, Abs(), Search(q.hint, assumps, |optimizationSet| - lb, false, true, n))
    {
      assumps := AddCardinality(blockedAssumps, n);
      AfterModel(s, q, w, Abs(), assumps);
      done := lb == ub;
    }

    /** A core: either nothing better exists or one more blocked literal is lost. */
    method OnUnsat(crits: set<ID>, hintLit: ID, ghost q: Search) returns (done: bool, ghost q': Search)
      requires CacheReady() && SearchOk(Abs(), q) && q.hint == hintLit
      requires Unsat(solver.clauses, crits) && crits <= initialAssumps + Elems(q.assumps) + {hintLit}
      modifies this`initialAssumps, this`blockedAssumps, this`unsatRounds, this`ub, solver
      ensures CacheReady() && q'.assumps == q.assumps && q'.hint == hintLit
      ensures Underway(done, Abs(), q')
      ensures !done ==> |initialAssumps| < |old(initialAssumps)|
    {
      ghost var s := Abs();
      q' := q;
      var core := ExtractCore(crits);
      if core == [] {
        assert crits * initialAssumps == {};
        EmptyCoreOptimal(s, q, crits);
        SearchIsReady(s, q);
        return true, q';
      }
      ContinueAfterCore(s, q, crits, core, useHintClauses);
      assert forall lit | lit in core :: lit in Elems(core);
      CoreShrinks(initialAssumps, core);
      BlockCore(core, hintLit);
      q' := Search(hintLit, q.assumps, |optimizationSet| - lb, false, false, 0);
      done := lb == ub;
    }

    /** Moves a core from the assumed to the blocked literals. */
    method BlockCore(core: Cube, hintLit: ID)
      requires core != [] && unsatRounds < |optimizationSet|
      modifies this`initialAssumps, this`blockedAssumps, this`unsatRounds, this`ub, solver
      ensures Abs() == AfterCore(old(Abs()), core, hintLit, useHintClauses)
    {
      for i := 0 to |core|
        invariant initialAssumps == old(initialAssumps) - Elems(core[..i])
        invariant blockedAssumps == old(blockedAssumps) + core[..i]
        invariant unsatRounds == old(unsatRounds) && ub == old(ub) && solver.clauses == old(solver.clauses)
      {
        assert core[..i + 1] == core[..i] + [core[i]];
        assert Elems(core[..i + 1]) == Elems(core[..i]) + {core[i]};
        initialAssumps := initialAssumps - {core[i]};
        blockedAssumps := blockedAssumps + [core[i]];
      }
      assert core[..|core|] == core;
      if useHintClauses {
        solver.AddClause(NegateVec(core) + [Negate(hintLit)]);
      }
      unsatRounds := unsatRounds + 1;
      ub := |optimizationSet| - unsatRounds;
    }
  }

  /** What a solution says about one literal. */
  lemma ReadsBack(w: Valuation, opt: set<ID>, lit: ID)
    requires lit in opt || Negate(lit) in opt
    ensures lit in TrueIn(w, opt) ==> Holds(w, lit)
    ensures Negate(lit) in TrueIn(w, opt) ==> !Holds(w, lit)
    ensures lit in opt && lit !in TrueIn(w, opt) ==> !Holds(w, lit)
    ensures Negate(lit) in opt && Negate(lit) !in TrueIn(w, opt) ==> Holds(w, lit)
  {
    NegateFlips(w, lit);
  }

  lemma FewerModels(clauses: seq<Clause>, cls: Clause)
    ensures forall v: Valuation :: Hard(v, clauses + [cls]) ==> Hard(v, clauses)
  {
  }

  lemma ClauseKeepsDb(clauses: seq<Clause>, blocked: seq<ID>, hidden: set<ID>, next: ID, db: seq<Clause>, cache: Cache, cls: Clause)
    requires DbOk(clauses, blocked, hidden, next, db, cache)
    requires Below(cls, next) && Visible(cls, hidden)
    ensures DbOk(clauses + [cls], blocked, hidden, next, db + [cls], cache)
  {
    FewerModels(clauses, cls);
    WeakerReaches(clauses, clauses + [cls], blocked, [], |blocked| + 1, |blocked| + 1, hidden, db, cache, {}, {});
    assert blocked + [] == blocked;
    forall v: Valuation, w: Valuation | Hard(v, clauses + [cls]) && AgreeOff(v, w, hidden)
      ensures SatClause(w, cls)
    {
      assert SatClause(v, cls) by {
        assert cls in clauses + [cls];
      }
      var lit :| lit in cls && Holds(v, lit);
      VisibleHolds(v, w, hidden, lit);
    }
    ClauseReaches(clauses + [cls], blocked, |blocked| + 1, hidden, db, cache, {}, cls);
    ModelsGrow(db, [cls]);
  }

  lemma ModelsGrow(db: seq<Clause>, more: seq<Clause>)
    ensures forall w: Valuation :: Models(w, db + more) ==> Models(w, db)
  {
  }

  lemma DropCache(clauses: seq<Clause>, blocked: seq<ID>, hidden: set<ID>, next: ID, db: seq<Clause>, cache: Cache)
    requires DbOk(clauses, blocked, hidden, next, db, cache)
    ensures DbOk(clauses, [], hidden, next, db, NoCache)
  {
    forall v: Valuation | Hard(v, clauses) && Missed(v, []) < 1
      ensures exists w: Valuation :: Extends(v, w, hidden, db, NoCache) && SatAll(w, {})
    {
      CountBound(v, blocked);
      var w: Valuation :| Extends(v, w, hidden, db, cache) && SatAll(w, {});
      assert Extends(v, w, hidden, db, NoCache);
    }
  }

  /** A solver holding just the hard clauses. */
  lemma PlainDb(clauses: seq<Clause>, blocked: seq<ID>, hidden: set<ID>, next: ID)
    requires CnfBelow(clauses, next) && MIN_ID <= next
    ensures DbOk(clauses, blocked, hidden, next, [[ID_TRUE]] + clauses, NoCache)
  {
    var db := [[ID_TRUE]] + clauses;
    forall v: Valuation | Hard(v, clauses) && Missed(v, blocked) < |blocked| + 1
      ensures exists w: Valuation :: Extends(v, w, hidden, db, NoCache) && SatAll(w, {})
    {
      assert SatClause(v, [ID_TRUE]) by {
        assert ID_TRUE in [ID_TRUE];
      }
      assert Extends(v, v, hidden, db, NoCache) && SatAll(v, {});
    }
  }
}
