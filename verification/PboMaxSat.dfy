/** The MaxSAT solver that searches downwards from the last known bound
    (PBOMaxSATSolver in src/pme/util/maxsat_solver.cpp:48-170). */
module PboMaxSat {
  import opened Ids
  import opened VariableManagers
  import opened SatQueries
  import opened SatAdaptors
  import opened NetworkSpec
  import opened NetworkProofs
  import opened NetworkMeaning
  import opened CardinalityConstraints
  import opened NetworkStores
  import opened MaxSatSpec

  // ----- models under assumptions -----

  ghost predicate Meets(v: Valuation, clauses: seq<Clause>, assumps: multiset<ID>) {
    Hard(v, clauses) && forall lit | lit in assumps :: Holds(v, lit)
  }

  ghost predicate Feasible(clauses: seq<Clause>, assumps: multiset<ID>) {
    exists v: Valuation :: Meets(v, clauses, assumps)
  }

  /** No model under the assumptions makes more than n literals true. */
  ghost predicate BoundedBy(clauses: seq<Clause>, opt: seq<ID>, assumps: multiset<ID>, n: nat) {
    forall v: Valuation | Meets(v, clauses, assumps) :: Count(v, opt) <= n
  }

  ghost predicate Best(v: Valuation, clauses: seq<Clause>, opt: seq<ID>, assumps: multiset<ID>) {
    Meets(v, clauses, assumps) && BoundedBy(clauses, opt, assumps, Count(v, opt))
  }

  // ----- the solver's state as a value -----

  datatype Store = Store(clauses: seq<Clause>, opt: seq<ID>, db: seq<Clause>, outs: seq<ID>, hidden: set<ID>, next: ID,
                         inited: bool, last: map<multiset<ID>, nat>)
  {
    function Words(): Words {
      KnownWords(next, hidden)
    }

    /** Users only mention variables they know. */
    predicate Known(lits: seq<ID>) {
      Below(lits, next) && Visible(lits, hidden)
    }

    ghost predicate Names() {
      && MIN_ID <= next && !IsNegated(next) && Known(opt)
      && (forall cls | cls in clauses :: cls != [] && Known(cls))
      && forall x | x in hidden :: MIN_ID <= x < next
    }

    /** The clauses say no more than the hard ones, and the outputs count. */
    ghost predicate Sound() {
      forall w: Valuation | Models(w, db) :: Hard(w, clauses) && GeSound(w, opt, outs)
    }

    ghost predicate Completes(v: Valuation) {
      exists w: Valuation :: AgreeOff(v, w, hidden) && Models(w, db) && SortedPrefix(w, opt, outs)
    }

    ghost predicate Complete() {
      forall v: Valuation | Hard(v, clauses) :: Completes(v)
    }

    ghost predicate Linked() {
      if inited then Sound() && Complete() && |outs| == |opt| else db == [[ID_TRUE]]
    }

    /** The recorded numbers are bounds. */
    ghost predicate Bounded() {
      forall a | a in last :: last[a] <= |opt| && BoundedBy(clauses, opt, a, last[a])
    }

    function LastOf(a: multiset<ID>): nat {
      if a in last then last[a] else |opt|
    }

    ghost predicate Folded(n: nat) {
      if n == 0 then Names() && Linked() && Bounded() else Folded(n - 1)
    }

    /** The invariant folded up: methods carry it as one fact, lemmas unfold it. */
    ghost predicate Ok() {
      Folded(next)
    }
  }

  lemma {:induction false} Unfold(s: Store, n: nat)
    ensures s.Folded(n) <==> s.Names() && s.Linked() && s.Bounded()
  {
    if n > 0 {
      Unfold(s, n - 1);
    }
  }

  lemma OkMeans(s: Store)
    ensures s.Ok() <==> s.Names() && s.Linked() && s.Bounded()
  {
    Unfold(s, s.next);
  }

  // ----- adding clauses and literals -----

  function WithClause(s: Store, cls: Clause): Store {
    s.(clauses := s.clauses + [cls], db := if s.inited then s.db + [cls] else s.db)
  }

  /** A new clause only removes models, so every recorded bound stays one. */
  lemma ClauseOk(s: Store, cls: Clause)
    requires s.Ok() && cls != [] && s.Known(cls)
    ensures WithClause(s, cls).Ok()
  {
    var t := WithClause(s, cls);
    OkMeans(s);
    ClauseBounds(s, cls);
    if s.inited {
      ClauseSound(s, cls);
      ClauseComplete(s, cls);
    }
    OkMeans(t);
  }

  lemma ModelsMore(w: Valuation, db: seq<Clause>, cls: Clause)
    ensures Models(w, db + [cls]) <==> Models(w, db) && SatClause(w, cls)
  {
    assert forall c :: c in db + [cls] <==> c in db || c == cls;
  }

  lemma ClauseBounds(s: Store, cls: Clause)
    requires s.Bounded()
    ensures WithClause(s, cls).Bounded()
  {
    forall a | a in s.last
      ensures BoundedBy(s.clauses + [cls], s.opt, a, s.last[a])
    {
      forall v: Valuation | Meets(v, s.clauses + [cls], a)
        ensures Count(v, s.opt) <= s.last[a]
      {
        ModelsMore(v, s.clauses, cls);
        assert Meets(v, s.clauses, a);
      }
    }
  }

  lemma ClauseSound(s: Store, cls: Clause)
    requires s.inited && s.Sound()
    ensures WithClause(s, cls).Sound()
  {
    forall w: Valuation | Models(w, s.db + [cls])
      ensures Hard(w, s.clauses + [cls]) && GeSound(w, s.opt, s.outs)
    {
      ModelsMore(w, s.db, cls);
      ModelsMore(w, s.clauses, cls);
    }
  }

  lemma ClauseComplete(s: Store, cls: Clause)
    requires s.inited && s.Complete() && s.Known(cls)
    ensures WithClause(s, cls).Complete()
  {
    forall v: Valuation | Hard(v, s.clauses + [cls])
      ensures WithClause(s, cls).Completes(v)
    {
      ModelsMore(v, s.clauses, cls);
      assert s.Completes(v);
      var w: Valuation :| AgreeOff(v, w, s.hidden) && Models(w, s.db) && SortedPrefix(w, s.opt, s.outs);
      VisibleClause(v, w, s.hidden, cls);
      ModelsMore(w, s.db, cls);
    }
  }

  lemma VisibleClause(v: Valuation, w: Valuation, hidden: set<ID>, cls: Clause)
    requires AgreeOff(v, w, hidden) && Visible(cls, hidden) && SatClause(v, cls)
    ensures SatClause(w, cls)
  {
    var lit :| lit in cls && Holds(v, lit);
    VisibleHolds(v, w, hidden, lit);
  }

  /** A new literal makes the bounds worthless and the network too small. */
  function WithLiteral(s: Store, lit: ID): Store {
    s.(opt := s.opt + [lit], db := [[ID_TRUE]], inited := false, last := map[])
  }

  lemma LiteralOk(s: Store, lit: ID)
    requires s.Ok() && s.Known([lit])
    ensures WithLiteral(s, lit).Ok()
  {
    OkMeans(s);
    OkMeans(WithLiteral(s, lit));
    assert lit in [lit];
  }

  /** Variables that the manager hands out between calls do no harm. */
  lemma LaterOk(s: Store, next: ID)
    requires s.Ok() && s.next <= next && !IsNegated(next)
    ensures s.(next := next).Ok()
  {
    OkMeans(s);
    forall cls | cls in s.clauses
      ensures s.(next := next).Known(cls)
    {
      assert s.Known(cls);
    }
    OkMeans(s.(next := next));
  }

  // ----- the network -----

  function Started(s: Store): Store {
    if s.opt == [] then s.(db := s.db + s.clauses, outs := [], inited := true)
    else
      var net := CountingNetwork(s.next, s.opt, |s.opt|);
      s.(db := s.db + s.clauses + Emit(net.gates, true, true), outs := net.outputs,
         hidden := s.hidden + Range(s.next, net.next), next := net.next, inited := true)
  }

  lemma HardIs(w: Valuation, clauses: seq<Clause>)
    ensures Models(w, [[ID_TRUE]] + clauses) <==> Hard(w, clauses)
  {
    assert forall c :: c in [[ID_TRUE]] + clauses <==> c == [ID_TRUE] || c in clauses;
    OneLiteral(w, ID_TRUE);
  }

  lemma PlainBelow(s: Store)
    requires s.Names()
    ensures CnfBelow([[ID_TRUE]] + s.clauses, s.next)
  {
    forall cls | cls in [[ID_TRUE]] + s.clauses
      ensures Below(cls, s.next)
    {
      if cls in s.clauses {
        assert s.Known(cls);
      } else {
        assert cls == [ID_TRUE] && Strip(ID_TRUE) == ID_FALSE;
      }
    }
  }

  lemma StartedOk(s: Store)
    requires s.Ok() && !s.inited
    ensures Started(s).Ok()
  {
    OkMeans(s);
    if s.opt == [] {
      StartedEmpty(s);
    } else {
      StartedNames(s);
      StartedSound(s);
      StartedComplete(s);
    }
    OkMeans(Started(s));
  }

  lemma StartedEmpty(s: Store)
    requires s.Names() && s.Linked() && !s.inited && s.opt == []
    ensures Started(s).Names() && Started(s).Linked()
  {
    var t := Started(s);
    forall w: Valuation
      ensures Models(w, t.db) <==> Hard(w, t.clauses)
    {
      HardIs(w, s.clauses);
    }
    forall v: Valuation | Hard(v, t.clauses)
      ensures t.Completes(v)
    {
      assert AgreeOff(v, v, t.hidden) && Models(v, t.db) && SortedPrefix(v, t.opt, t.outs);
    }
  }

  lemma StartedNames(s: Store)
    requires s.Names() && s.Linked() && !s.inited && s.opt != []
    ensures Started(s).Names() && |Started(s).outs| == |s.opt|
  {
    var t := Started(s);
    PlainBelow(s);
    NetworkBelow([[ID_TRUE]] + s.clauses, s.opt, |s.opt|, true, true, s.next);
    assert KeepsKnown(s.Words(), t.Words());
    StillKnown(s.Words(), t.Words(), s.opt);
    forall cls | cls in s.clauses
      ensures t.Known(cls)
    {
      StillKnown(s.Words(), t.Words(), cls);
    }
  }

  lemma StartedSound(s: Store)
    requires s.Names() && s.Linked() && !s.inited && s.opt != []
    ensures Started(s).Sound()
  {
    var t := Started(s);
    var plain := [[ID_TRUE]] + s.clauses;
    forall w: Valuation | Models(w, t.db)
      ensures Hard(w, s.clauses) && GeSound(w, s.opt, t.outs)
    {
      NetworkSound(w, plain, s.opt, |s.opt|, true, true, s.next);
      ModelsConcat(w, plain, Emit(CountingNetwork(s.next, s.opt, |s.opt|).gates, true, true));
      HardIs(w, s.clauses);
    }
  }

  lemma StartedComplete(s: Store)
    requires s.Names() && s.Linked() && !s.inited && s.opt != []
    ensures Started(s).Complete()
  {
    var t := Started(s);
    var plain := [[ID_TRUE]] + s.clauses;
    PlainBelow(s);
    forall v: Valuation | Hard(v, s.clauses)
      ensures t.Completes(v)
    {
      HardIs(v, s.clauses);
      var w := NetworkExtends(v, plain, s.opt, |s.opt|, true, true, s.next);
      AgreeOn(v, w, s, t);
    }
  }

  lemma AgreeOn(v: Valuation, w: Valuation, s: Store, t: Store)
    requires AgreeOutside(v, w, s.next, t.next) && t.hidden == s.hidden + Range(s.next, t.next)
    ensures AgreeOff(v, w, t.hidden)
  {
  }

  // ----- the search -----

  /** What assumeGEq gives for n. */
  function AtLeast(s: Store, n: nat): Cube {
    if n >= |s.opt| then s.opt else TrueBefore(s.outs, n)
  }

  /** A model that reaches the bound is a best one. */
  lemma ModelIsBest(s: Store, a: multiset<ID>, n: nat, w: Valuation)
    requires s.Ok() && s.inited && n <= |s.opt| && BoundedBy(s.clauses, s.opt, a, n)
    requires Models(w, s.db) && SatCube(w, AtLeast(s, n)) && forall lit | lit in a :: Holds(w, lit)
    ensures Best(w, s.clauses, s.opt, a) && Count(w, s.opt) == n
  {
    OkMeans(s);
    assert Hard(w, s.clauses) && GeSound(w, s.opt, s.outs);
    assert Meets(w, s.clauses, a);
    if n == |s.opt| {
      AllInputs(w, s.opt);
    } else if n > 0 {
      assert TrueBefore(s.outs, n)[n - 1] == s.outs[n - 1];
      assert Holds(w, s.outs[n - 1]);
    }
  }

  lemma Reached(s: Store, n: nat, w: Valuation)
    requires SortedPrefix(w, s.opt, s.outs) && |s.outs| == |s.opt| && Count(w, s.opt) >= n
    ensures SatCube(w, AtLeast(s, n))
  {
    CountBound(w, s.opt);
    if n >= |s.opt| {
      AllInputs(w, s.opt);
    } else {
      forall lit | lit in TrueBefore(s.outs, n)
        ensures Holds(w, lit)
      {
        var i :| 0 <= i < n && s.outs[i] == lit;
      }
    }
  }

  /** Without a model at the bound the bound can be lowered. */
  lemma NoneAtBound(s: Store, assumps: Cube, n: nat, v: Valuation)
    requires s.Ok() && s.inited && s.Known(assumps) && Meets(v, s.clauses, multiset(assumps))
    requires Unsat(s.db, Elems(AtLeast(s, n)) + Elems(assumps))
    ensures Count(v, s.opt) < n
  {
    OkMeans(s);
    assert s.Completes(v);
    var w: Valuation :| AgreeOff(v, w, s.hidden) && Models(w, s.db) && SortedPrefix(w, s.opt, s.outs);
    VisibleCount(v, w, s.hidden, s.opt);
    forall lit | lit in assumps
      ensures Holds(w, lit)
    {
      assert lit in multiset(assumps);
      VisibleHolds(v, w, s.hidden, lit);
    }
    assert !Satisfies(w, s.db, Elems(AtLeast(s, n)) + Elems(assumps));
    if Count(v, s.opt) >= n {
      Reached(s, n, w);
      assert false;
    }
  }

  lemma LowerBound(s: Store, assumps: Cube, n: nat)
    requires s.Ok() && s.inited && s.Known(assumps)
    requires Unsat(s.db, Elems(AtLeast(s, n)) + Elems(assumps))
    ensures n > 0 ==> BoundedBy(s.clauses, s.opt, multiset(assumps), n - 1)
    ensures n == 0 ==> !Feasible(s.clauses, multiset(assumps))
  {
    forall v: Valuation | Meets(v, s.clauses, multiset(assumps))
      ensures Count(v, s.opt) < n
    {
      NoneAtBound(s, assumps, n, v);
    }
  }

  function Recorded(s: Store, a: multiset<ID>, n: nat): Store {
    s.(last := s.last[a := n])
  }

  lemma RecordOk(s: Store, a: multiset<ID>, n: nat)
    requires s.Ok() && n <= |s.opt| && BoundedBy(s.clauses, s.opt, a, n)
    ensures Recorded(s, a, n).Ok()
  {
    OkMeans(s);
    OkMeans(Recorded(s, a, n));
  }

  lemma LastBounds(s: Store, a: multiset<ID>)
    requires s.Ok()
    ensures s.LastOf(a) <= |s.opt| && BoundedBy(s.clauses, s.opt, a, s.LastOf(a))
  {
    OkMeans(s);
    forall v: Valuation
      ensures Count(v, s.opt) <= |s.opt|
    {
      CountBound(v, s.opt);
    }
  }

  class PboMaxSatSolver {
    const vm: VariableManager
    const cardinality: SortingConstraint
    const solver: SatAdaptor
    var sat: bool
    var solverInited: bool
    var clauses: seq<Clause>
    var optimizationSet: seq<ID>
    /** Assumptions are compared after sorting, so they are kept as multisets. */
    var lastCardinality: map<multiset<ID>, nat>
    ghost var hidden: set<ID>  // variables of the networks

    ghost function Abs(): Store
      reads this, vm, solver, cardinality
    {
      Store(clauses, optimizationSet, solver.clauses, cardinality.outputs, hidden, vm.nextID, solverInited, lastCardinality)
    }

    ghost predicate Valid()
      reads this, vm, solver, cardinality
    {
      && cardinality.le && cardinality.ge && cardinality.inputs == optimizationSet
      && (solverInited ==> cardinality.cardinality == |optimizationSet| && (optimizationSet != [] ==> cardinality.cnfized))
      && (optimizationSet == [] ==> cardinality.cardinality == 0 && cardinality.outputs == [])
      && Abs().Ok()
    }

    constructor (vm: VariableManager)
      requires vm.Valid()
      ensures Valid() && this.vm == vm && fresh(cardinality) && fresh(solver)
      ensures clauses == [] && optimizationSet == [] && hidden == {} && !solverInited && lastCardinality == map[]
    {
      this.vm := vm;
      cardinality := new SortingConstraint(true, true);
      solver := new SatAdaptor();
      sat, solverInited, clauses, optimizationSet, lastCardinality := false, false, [], [], map[];
      hidden := {};
      new;
      OkMeans(Abs());
    }

    method InitSolver()
      requires Valid() && !solverInited
      modifies this`solverInited, this`hidden, cardinality, solver, vm
      ensures Valid() && Abs() == Started(old(Abs()))
    {
      ghost var s := Abs();
      StartedOk(s);
      OkMeans(s);
      solver.AddClauses(clauses);
      if optimizationSet != [] {
        cardinality.SetCardinality(|optimizationSet|);
        NetworkIs(vm.nextID, optimizationSet, |optimizationSet|);
        var cnf := cardinality.CNFize(vm);
        solver.AddClauses(cnf);
        hidden := hidden + Range(s.next, vm.nextID);
      }
      solverInited := true;
      assert Abs() == Started(s);
    }

    method AddClause(cls: Clause)
      requires Valid() && cls != [] && Abs().Known(cls)
      modifies this`sat, this`clauses, solver
      ensures Valid() && Abs() == WithClause(old(Abs()), cls)
    {
      ClauseOk(Abs(), cls);
      sat := false;
      clauses := clauses + [cls];
      if solverInited {
        solver.AddClause(cls);
      }
    }

    method AddClauses(vec: seq<Clause>)
      requires Valid() && forall cls | cls in vec :: cls != [] && Abs().Known(cls)
      modifies this`sat, this`clauses, solver
      ensures Valid() && clauses == old(clauses) + vec
    {
      for i := 0 to |vec|
        invariant Valid() && clauses == old(clauses) + vec[..i]
        invariant Abs().hidden == old(Abs()).hidden && Abs().next == old(Abs()).next
      {
        assert vec[i] in vec;
        AddClause(vec[i]);
      }
    }

    method AddForOptimization(lit: ID)
      requires Valid() && Abs().Known([lit])
      modifies this`lastCardinality, this`optimizationSet, this`solverInited, cardinality, solver
      ensures Valid() && Abs() == WithLiteral(old(Abs()), lit)
    {
      LiteralOk(Abs(), lit);
      OkMeans(Abs());
      lastCardinality := map[];
      cardinality.AddInput(lit);
      optimizationSet := optimizationSet + [lit];
      if solverInited {
        solver.Reset();
        solverInited := false;
      }
    }

    /** addForOptimization for each of the literals */
    method AddAllForOptimization(lits: seq<ID>)
      requires Valid() && forall lit | lit in lits :: Abs().Known([lit])
      modifies this`lastCardinality, this`optimizationSet, this`solverInited, cardinality, solver
      ensures Valid() && optimizationSet == old(optimizationSet) + lits
    {
      for i := 0 to |lits|
        invariant Valid() && optimizationSet == old(optimizationSet) + lits[..i]
      {
        assert lits[i] in lits;
        AddForOptimization(lits[i]);
      }
    }

    method LastCardinality(a: multiset<ID>) returns (n: nat)
      ensures n == Abs().LastOf(a)
    {
      if a in lastCardinality {
        n := lastCardinality[a];
      } else {
        n := |optimizationSet|;
      }
    }

    /** One query for at least n literals. */
    method Query(assumps: Cube, n: nat) returns (r: bool)
      requires Valid() && solverInited && Abs().Known(assumps) && n <= |optimizationSet|
      requires BoundedBy(clauses, optimizationSet, multiset(assumps), n)
      modifies solver
      ensures Valid() && Abs() == old(Abs())
      ensures r ==> Best(solver.model, clauses, optimizationSet, multiset(assumps))
      ensures r ==> Count(solver.model, optimizationSet) == n && Feasible(clauses, multiset(assumps))
      ensures !r && n > 0 ==> BoundedBy(clauses, optimizationSet, multiset(assumps), n - 1)
      ensures !r && n == 0 ==> !Feasible(clauses, multiset(assumps))
    {
      ghost var s := Abs();
      OkMeans(s);
      var cube := cardinality.AssumeGEq(n);
      assert cube.Success? && cube.value == AtLeast(s, n);
      var crits;
      r, crits := solver.Solve(Elems(cube.value) + Elems(assumps));
      if r {
        ModelIsBest(s, multiset(assumps), n, solver.model);
      } else {
        MoreUnsat(s.db, crits, Elems(cube.value) + Elems(assumps));
        LowerBound(s, assumps, n);
      }
    }

    /** The loop of assumpSolve: the number of true literals is lowered from the last
        one known until some model reaches it. */
    method Descend(assumps: Cube) returns (r: bool, n: nat)
      requires Valid() && solverInited && Abs().Known(assumps)
      modifies solver
      ensures Valid() && Abs() == old(Abs()) && n <= Abs().LastOf(multiset(assumps))
      ensures n <= |optimizationSet| && BoundedBy(clauses, optimizationSet, multiset(assumps), n)
      ensures r <==> Feasible(clauses, multiset(assumps))
      ensures r ==> Best(solver.model, clauses, optimizationSet, multiset(assumps))
      ensures n == if r then Count(solver.model, optimizationSet) else 0
    {
      ghost var t := Abs();
      LastBounds(t, multiset(assumps));
      n := LastCardinality(multiset(assumps));
      r := false;
      while !r
        invariant Valid() && Abs() == t && n <= t.LastOf(multiset(assumps))
        invariant BoundedBy(clauses, optimizationSet, multiset(assumps), n)
        invariant r ==> Best(solver.model, clauses, optimizationSet, multiset(assumps))
        invariant r ==> Count(solver.model, optimizationSet) == n && Feasible(clauses, multiset(assumps))
        decreases !r, n
      {
        r := Query(assumps, n);
        if !r {
          if n > 0 {
            n := n - 1;
          } else {
            return;
          }
        }
      }
    }

    method AssumpSolve(assumps: Cube) returns (r: bool)
      requires Valid() && Abs().Known(assumps)
      modifies this`sat, this`solverInited, this`hidden, this`lastCardinality, cardinality, solver, vm
      ensures Valid() && solverInited && sat == r
      ensures r <==> Feasible(clauses, multiset(assumps))
      ensures r ==> Best(solver.model, clauses, optimizationSet, multiset(assumps))
      ensures lastCardinality ==
        old(lastCardinality)[multiset(assumps) := if r then Count(solver.model, optimizationSet) else 0]
      ensures Abs().LastOf(multiset(assumps)) <= old(Abs().LastOf(multiset(assumps)))
      ensures KeepsKnown(old(Abs().Words()), Abs().Words())
    {
      ghost var s := Abs();
      if !solverInited {
        StartedKeeps(s);
        InitSolver();
      }
      ghost var t := Abs();
      StillKnown(s.Words(), t.Words(), assumps);
      var n;
      r, n := Descend(assumps);
      sat := r;
      RecordOk(t, multiset(assumps), n);
      lastCardinality := lastCardinality[multiset(assumps) := n];
    }

    /** doSolve: the most literals that any model makes true. */
    method DoSolve() returns (r: bool)
      requires Valid()
      modifies this`sat, this`solverInited, this`hidden, this`lastCardinality, cardinality, solver, vm
      ensures Valid() && sat == r
      ensures r <==> exists v: Valuation :: Hard(v, clauses)
      ensures r ==> Hard(solver.model, clauses)
      ensures r ==> forall v: Valuation | Hard(v, clauses) :: Count(v, optimizationSet) <= Count(solver.model, optimizationSet)
    {
      r := AssumpSolve([]);
      forall v: Valuation
        ensures Meets(v, clauses, multiset([])) <==> Hard(v, clauses)
      {
      }
    }
  }

  lemma MoreUnsat(db: seq<Clause>, crits: set<ID>, assumps: set<ID>)
    requires Unsat(db, crits) && crits <= assumps
    ensures Unsat(db, assumps)
  {
    forall v: Valuation
      ensures !Satisfies(v, db, assumps)
    {
      assert !Satisfies(v, db, crits);
    }
  }

  lemma StartedKeeps(s: Store)
    requires s.Ok() && !s.inited
    ensures KeepsKnown(s.Words(), Started(s).Words())
  {
    OkMeans(s);
    if s.opt != [] {
      PlainBelow(s);
      NetworkBelow([[ID_TRUE]] + s.clauses, s.opt, |s.opt|, true, true, s.next);
    }
  }
}
