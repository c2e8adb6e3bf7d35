/** The seed solvers: the map of unexplored sets as a MaxSAT problem over one
    variable per clause (src/pme/minimization/marco.cpp:112-142, 454-515,
    camsis.cpp:90-104, 163-184). */
module SeedSolvers {
  import opened Ids
  import opened VariableManagers
  import opened SatQueries
  import opened SatAdaptors
  import opened NetworkProofs
  import opened MaxSatSpec
  import opened MaxSat
  import opened ProofSets
  import opened SeedMaps

  // ----- one variable per clause -----

  const RESET_SOLVER_PERIOD: nat := 8
  const RESET_ALL_PERIOD: nat := 64

  /** The MaxSAT solver counts the variables with unsigned numbers. */
  predicate Selectable(p: Proof) {
    |p.clauses| < UINT_MAX
  }

  predicate SeedVars(vars: seq<ID>) {
    && (forall i | 0 <= i < |vars| :: !IsNegated(vars[i]) && MIN_ID <= vars[i])
    && forall i, j | 0 <= i < j < |vars| :: vars[i] < vars[j]
  }

  function Selected(vars: seq<ID>, v: Valuation): set<ClauseID> {
    set i: ClauseID | i < |vars| && vars[i] in v
  }

  function Selecting(vars: seq<ID>, s: set<ClauseID>): Valuation {
    set i | i in s && i < |vars| :: vars[i]
  }

  lemma SelectingSelects(vars: seq<ID>, s: set<ClauseID>)
    requires SeedVars(vars) && s <= IDsBelow(|vars|)
    ensures Selected(vars, Selecting(vars, s)) == s && ID_FALSE !in Selecting(vars, s)
  {
    var v := Selecting(vars, s);
    forall i: ClauseID | i < |vars|
      ensures vars[i] in v <==> i in s
    {
      if vars[i] in v {
        var j :| j in s && j < |vars| && vars[j] == vars[i];
        assert i == j;
      }
    }
  }

  // ----- clauses -----

  /** The literals of the set among the first n, all of one sign. */
  function LitsAmong(vars: seq<ID>, ids: set<ClauseID>, negated: bool, n: nat): seq<ID>
    requires n <= |vars|
  {
    if n == 0 then []
    else
      var lit := if negated then Negate(vars[n - 1]) else vars[n - 1];
      LitsAmong(vars, ids, negated, n - 1) + (if n - 1 in ids then [lit] else [])
  }

  /** The clause for the solver. An empty one becomes the clause of ID_FALSE; one
      that no set of the given clauses violates, that of ID_TRUE. */
  function SolverClause(vars: seq<ID>, cls: SeedClause): (r: Clause)
    ensures r != []
  {
    var lits := LitsAmong(vars, cls.pos, false, |vars|) + LitsAmong(vars, cls.neg, true, |vars|);
    if !(cls.neg <= IDsBelow(|vars|)) then [ID_TRUE]
    else if lits == [] then [ID_FALSE]
    else lits
  }

  function SolverCnf(vars: seq<ID>, clauses: seq<SeedClause>): (r: seq<Clause>)
    ensures |r| == |clauses| && forall i | 0 <= i < |r| :: r[i] == SolverClause(vars, clauses[i])
  {
    if clauses == [] then [] else SolverCnf(vars, clauses[..|clauses| - 1]) + [SolverClause(vars, clauses[|clauses| - 1])]
  }

  lemma {:induction false} AmongMeans(vars: seq<ID>, ids: set<ClauseID>, negated: bool, n: nat, v: Valuation)
    requires SeedVars(vars) && n <= |vars|
    ensures SatClause(v, LitsAmong(vars, ids, negated, n))
       <==> exists i: ClauseID | i < n && i in ids :: (i in Selected(vars, v)) != negated
  {
    if n > 0 {
      var i := n - 1;
      var lit := if negated then Negate(vars[i]) else vars[i];
      AmongMeans(vars, ids, negated, i, v);
      ClauseConcat(v, LitsAmong(vars, ids, negated, i), if i in ids then [lit] else []);
      OneLiteral(v, lit);
      assert Holds(v, lit) == ((i in Selected(vars, v)) != negated);
    }
  }

  lemma ClauseMeans(vars: seq<ID>, cls: SeedClause, v: Valuation)
    requires SeedVars(vars) && Holds(v, ID_TRUE)
    ensures SatClause(v, SolverClause(vars, cls)) <==> SatSeed(Selected(vars, v), cls)
  {
    var s := Selected(vars, v);
    AmongMeans(vars, cls.pos, false, |vars|, v);
    AmongMeans(vars, cls.neg, true, |vars|, v);
    ClauseConcat(v, LitsAmong(vars, cls.pos, false, |vars|), LitsAmong(vars, cls.neg, true, |vars|));
    if !(cls.neg <= IDsBelow(|vars|)) {
      OneLiteral(v, ID_TRUE);
      var i :| i in cls.neg && i !in IDsBelow(|vars|);
      assert i !in s;
    } else {
      OneLiteral(v, ID_FALSE);
    }
  }

  lemma CnfMeans(vars: seq<ID>, clauses: seq<SeedClause>, v: Valuation)
    requires SeedVars(vars) && Holds(v, ID_TRUE)
    ensures Models(v, SolverCnf(vars, clauses)) <==> Unexplored(Selected(vars, v), clauses)
  {
    var cnf := SolverCnf(vars, clauses);
    forall i | 0 <= i < |clauses|
      ensures SatClause(v, cnf[i]) <==> SatSeed(Selected(vars, v), clauses[i])
    {
      ClauseMeans(vars, clauses[i], v);
    }
    if Models(v, cnf) {
      forall cls | cls in clauses
        ensures SatSeed(Selected(vars, v), cls)
      {
        var i :| 0 <= i < |clauses| && clauses[i] == cls;
        assert cnf[i] in cnf;
      }
    }
  }

  // ----- what is optimised -----

  /** The literals of the first n clauses: selecting for a maximum, the opposite for
      a minimum. */
  function Goals(vars: seq<ID>, minimum: bool, n: nat): set<ID>
    requires n <= |vars|
  {
    set i | 0 <= i < n :: if minimum then Negate(vars[i]) else vars[i]
  }

  lemma {:induction false} CountGoals(vars: seq<ID>, minimum: bool, n: nat, v: Valuation)
    requires SeedVars(vars) && n <= |vars|
    ensures |TrueIn(v, Goals(vars, minimum, n))|
         == if minimum then n - |Selected(vars[..n], v)| else |Selected(vars[..n], v)|
  {
    if n == 0 {
      assert TrueIn(v, Goals(vars, minimum, 0)) == {} && Selected(vars[..0], v) == {};
    } else {
      var i := n - 1;
      var lit := if minimum then Negate(vars[i]) else vars[i];
      CountGoals(vars, minimum, i, v);
      NextGoal(vars, minimum, i);
      NextSelected(vars, i, v);
      NextTrue(v, Goals(vars, minimum, i), lit);
    }
  }

  lemma NextSelected(vars: seq<ID>, i: nat, v: Valuation)
    requires i < |vars|
    ensures |Selected(vars[..i + 1], v)| == |Selected(vars[..i], v)| + if vars[i] in v then 1 else 0
  {
    assert Selected(vars[..i + 1], v) == if vars[i] in v then Selected(vars[..i], v) + {i} else Selected(vars[..i], v);
  }

  lemma NextTrue(v: Valuation, lits: set<ID>, lit: ID)
    requires lit !in lits
    ensures |TrueIn(v, lits + {lit})| == |TrueIn(v, lits)| + if Holds(v, lit) then 1 else 0
  {
    assert TrueIn(v, lits + {lit}) == if Holds(v, lit) then TrueIn(v, lits) + {lit} else TrueIn(v, lits);
  }

  lemma NextGoal(vars: seq<ID>, minimum: bool, i: nat)
    requires SeedVars(vars) && i < |vars|
    ensures var lit := if minimum then Negate(vars[i]) else vars[i];
      Goals(vars, minimum, i + 1) == Goals(vars, minimum, i) + {lit} && lit !in Goals(vars, minimum, i)
  {
  }

  lemma {:induction false} FewGoals(vars: seq<ID>, minimum: bool, n: nat)
    requires SeedVars(vars) && n <= |vars|
    ensures |Goals(vars, minimum, n)| == n
  {
    if n > 0 {
      FewGoals(vars, minimum, n - 1);
      NextGoal(vars, minimum, n - 1);
    } else {
      assert Goals(vars, minimum, 0) == {};
    }
  }

  /** An extreme unexplored set, of fewest or of most clauses. */
  predicate IsExtreme(n: nat, clauses: seq<SeedClause>, minimum: bool, s: set<ClauseID>) {
    if minimum then IsMinimum(IDsBelow(n), clauses, s) else IsMaximum(IDsBelow(n), clauses, s)
  }

  /** An optimal solution is an extreme unexplored set. */
  lemma OptimalIsExtreme(vars: seq<ID>, clauses: seq<SeedClause>, minimum: bool, soln: set<ID>, w: Valuation)
    requires SeedVars(vars)
    requires Optimal(SolverCnf(vars, clauses), Goals(vars, minimum, |vars|), soln)
    requires Hard(w, SolverCnf(vars, clauses)) && TrueIn(w, Goals(vars, minimum, |vars|)) == soln
    ensures IsExtreme(|vars|, clauses, minimum, Selected(vars, w))
  {
    CnfMeans(vars, clauses, w);
    CountGoals(vars, minimum, |vars|, w);
    assert vars[..|vars|] == vars;
    forall t: set<ClauseID> | t <= IDsBelow(|vars|) && Unexplored(t, clauses)
      ensures if minimum then |Selected(vars, w)| <= |t| else |t| <= |Selected(vars, w)|
    {
      var v := Selecting(vars, t);
      SelectingSelects(vars, t);
      CnfMeans(vars, clauses, v);
      CountGoals(vars, minimum, |vars|, v);
      assert Hard(v, SolverCnf(vars, clauses));
    }
  }

  lemma NoSeed(vars: seq<ID>, clauses: seq<SeedClause>, t: set<ClauseID>)
    requires SeedVars(vars) && t <= IDsBelow(|vars|) && forall v: Valuation :: !Hard(v, SolverCnf(vars, clauses))
    ensures !Unexplored(t, clauses)
  {
    SelectingSelects(vars, t);
    CnfMeans(vars, clauses, Selecting(vars, t));
    assert !Hard(Selecting(vars, t), SolverCnf(vars, clauses));
  }

  // ----- asking -----

  method TakeVars(vm: VariableManager, n: nat) returns (vars: seq<ID>)
    requires vm.Valid()
    modifies vm
    ensures vm.Valid() && |vars| == n && SeedVars(vars)
    ensures forall x | x in vars :: x < vm.nextID
  {
    vars := [];
    for i := 0 to n
      invariant vm.Valid() && |vars| == i && SeedVars(vars)
      invariant forall x | x in vars :: x < vm.nextID
    {
      var x := vm.GetNewID();
      assert forall j | 0 <= j < |vars| :: vars[j] in vars;
      vars := vars + [x];
    }
  }

  lemma {:induction false} AmongBelow(vars: seq<ID>, ids: set<ClauseID>, negated: bool, n: nat, bound: ID)
    requires SeedVars(vars) && n <= |vars| && forall x | x in vars :: x < bound
    ensures Below(LitsAmong(vars, ids, negated, n), bound)
  {
    if n > 0 {
      AmongBelow(vars, ids, negated, n - 1, bound);
      assert vars[n - 1] in vars;
    }
  }

  lemma ClauseBelow(vars: seq<ID>, cls: SeedClause, bound: ID)
    requires SeedVars(vars) && MIN_ID <= bound && forall x | x in vars :: x < bound
    ensures Below(SolverClause(vars, cls), bound)
  {
    AmongBelow(vars, cls.pos, false, |vars|, bound);
    AmongBelow(vars, cls.neg, true, |vars|, bound);
  }

  /** The solver's clauses mention only what it knows. */
  lemma CnfKnown(vars: seq<ID>, clauses: seq<SeedClause>, s: Msu4MaxSatSolver)
    requires SeedVars(vars) && MIN_ID <= s.vm.nextID && s.hidden == {} && forall x | x in vars :: x < s.vm.nextID
    ensures forall cls | cls in SolverCnf(vars, clauses) :: cls != [] && s.Abs().Known(cls)
  {
    var cnf := SolverCnf(vars, clauses);
    forall cls | cls in cnf
      ensures cls != [] && s.Abs().Known(cls)
    {
      var i :| 0 <= i < |cnf| && cnf[i] == cls;
      ClauseBelow(vars, clauses[i], s.vm.nextID);
    }
  }

  method AddGoal(s: Msu4MaxSatSolver, vars: seq<ID>, minimum: bool, i: nat)
    requires s.Valid() && SeedVars(vars) && i < |vars| < UINT_MAX && s.hidden == {} && vars[i] < s.vm.nextID
    requires s.optimizationSet == Goals(vars, minimum, i)
    modifies s
    ensures s.Valid() && s.hidden == {} && s.clauses == old(s.clauses)
    ensures s.optimizationSet == Goals(vars, minimum, i + 1)
  {
    NextGoal(vars, minimum, i);
    FewGoals(vars, minimum, i);
    ghost var t := s.Abs();
    var lit := if minimum then Negate(vars[i]) else vars[i];
    var r := s.AddForOptimization(lit);
    assert s.Abs() == Started(t, t.opt + {lit});
  }

  /** A seed solver with its clauses and optimisation literals. */
  method Load(vars: seq<ID>, vm: VariableManager, clauses: seq<SeedClause>, minimum: bool) returns (s: Msu4MaxSatSolver)
    requires vm.Valid() && SeedVars(vars) && (forall x | x in vars :: x < vm.nextID) && |vars| < UINT_MAX
    ensures fresh(s) && fresh(s.solver) && s.vm == vm && s.Valid()
    ensures s.clauses == SolverCnf(vars, clauses) && s.optimizationSet == Goals(vars, minimum, |vars|)
  {
    s := new Msu4MaxSatSolver(vm, RESET_SOLVER_PERIOD, RESET_ALL_PERIOD, true);
    assert Goals(vars, minimum, 0) == {};
    for i := 0 to |vars|
      invariant fresh(s) && fresh(s.solver) && s.vm == vm && s.Valid() && s.hidden == {} && s.clauses == []
      invariant s.optimizationSet == Goals(vars, minimum, i)
    {
      assert vars[i] in vars;
      AddGoal(s, vars, minimum, i);
    }
    CnfKnown(vars, clauses, s);
    s.AddClauses(SolverCnf(vars, clauses));
  }

  /** The clauses whose variable the solution makes true. */
  method ReadSeed(s: Msu4MaxSatSolver, vars: seq<ID>, minimum: bool) returns (seed: set<ClauseID>)
    requires s.isSat && SeedVars(vars) && s.optimizationSet == Goals(vars, minimum, |vars|)
    ensures forall w: Valuation | TrueIn(w, s.optimizationSet) == s.currentSoln :: seed == Selected(vars, w)
  {
    seed := {};
    for id := 0 to |vars|
      invariant forall w: Valuation | TrueIn(w, s.optimizationSet) == s.currentSoln :: seed == Selected(vars[..id], w)
    {
      NextGoal(vars, minimum, id);
      ghost var lit := if minimum then Negate(vars[id]) else vars[id];
      assert lit in s.optimizationSet by {
        assert lit in Goals(vars, minimum, |vars|);
      }
      var r := s.GetAssignment(vars[id]);
      var chosen := r.Success? && r.value == TRUE;
      forall w: Valuation | TrueIn(w, s.optimizationSet) == s.currentSoln
        ensures (if chosen then seed + {id} else seed) == Selected(vars[..id + 1], w)
      {
        assert chosen <==> Holds(w, vars[id]);
        assert seed == Selected(vars[..id], w);
      }
      if chosen {
        seed := seed + {id};
      }
    }
    assert vars[..|vars|] == vars;
  }

  /** getUnexploredMinMax, extractCandidate */
  method FindExtreme(n: nat, clauses: seq<SeedClause>, minimum: bool) returns (sat: bool, seed: set<ClauseID>)
    requires n < UINT_MAX
    ensures sat ==> IsExtreme(n, clauses, minimum, seed)
    ensures !sat ==> forall t: set<ClauseID> | t <= IDsBelow(n) :: !Unexplored(t, clauses)
  {
    var vm := new VariableManager();
    var vars := TakeVars(vm, n);
    var s := Load(vars, vm, clauses, minimum);
    sat := s.DoSolve();
    seed := {};
    if sat {
      seed := ReadSeed(s, vars, minimum);
      ghost var w :| Hard(w, s.clauses) && TrueIn(w, s.optimizationSet) == s.currentSoln;
      OptimalIsExtreme(vars, clauses, minimum, s.currentSoln, w);
    } else {
      forall t: set<ClauseID> | t <= IDsBelow(n)
        ensures !Unexplored(t, clauses)
      {
        NoSeed(vars, clauses, t);
      }
    }
  }

  method FindMinimum(n: nat, clauses: seq<SeedClause>) returns (sat: bool, seed: set<ClauseID>)
    requires n < UINT_MAX
    ensures sat ==> IsMinimum(IDsBelow(n), clauses, seed)
    ensures !sat ==> forall t: set<ClauseID> | t <= IDsBelow(n) :: !Unexplored(t, clauses)
  {
    sat, seed := FindExtreme(n, clauses, true);
  }

  method FindMaximum(n: nat, clauses: seq<SeedClause>) returns (sat: bool, seed: set<ClauseID>)
    requires n < UINT_MAX
    ensures sat ==> IsMaximum(IDsBelow(n), clauses, seed)
    ensures !sat ==> forall t: set<ClauseID> | t <= IDsBelow(n) :: !Unexplored(t, clauses)
  {
    sat, seed := FindExtreme(n, clauses, false);
  }

  /** getUnexploredArb: a variable that the solver does not know yet counts as
      selected. */
  method FindAny(n: nat, clauses: seq<SeedClause>) returns (sat: bool, seed: set<ClauseID>)
    ensures sat ==> seed <= IDsBelow(n) && Unexplored(seed, clauses) && Unmentioned(IDsBelow(n), clauses) <= seed
    ensures !sat ==> forall t: set<ClauseID> | t <= IDsBelow(n) :: !Unexplored(t, clauses)
  {
    var vm := new VariableManager();
    var vars := TakeVars(vm, n);
    var solver := new SatAdaptor();
    var cnf := SolverCnf(vars, clauses);
    solver.AddClauses(cnf);
    var crits;
    sat, crits := solver.Solve({});
    seed := {};
    forall v: Valuation
      ensures Satisfies(v, solver.clauses, {}) <==> Hard(v, cnf)
    {
      ModelsConcat(v, [[ID_TRUE]], cnf);
      OneLiteral(v, ID_TRUE);
      assert [ID_TRUE] in [[ID_TRUE]];
    }
    if sat {
      CnfMeans(vars, clauses, solver.model);
      SelectUnmentioned(IDsBelow(n), clauses, Selected(vars, solver.model));
      seed := Selected(vars, solver.model) + Unmentioned(IDsBelow(n), clauses);
    } else {
      forall t: set<ClauseID> | t <= IDsBelow(n)
        ensures !Unexplored(t, clauses)
      {
        NoSeed(vars, clauses, t);
      }
    }
  }
}
