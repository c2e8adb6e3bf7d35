/** Any sequence of calls to the MSU4 solver, with variables taken from the manager
    in between (src/pme/util/maxsat_solver.cpp:211-219, 359-490). */
module MaxSatSessions {
  import opened Ids
  import opened MaxSatSpec
  import opened MaxSat

  /** A variable that was handed out, by its number, with a sign. */
  datatype Mention = Mention(index: nat, negated: bool)

  datatype Call = NewVariable | AddClause(lits: seq<Mention>) | AddForOptimization(lit: Mention) | DoSolve

  /** How many variables the calls take. */
  function Taken(calls: seq<Call>): nat {
    if calls == [] then 0 else Taken(calls[..|calls| - 1]) + if calls[|calls| - 1].NewVariable? then 1 else 0
  }

  predicate CallOk(call: Call, taken: nat) {
    match call
    case AddClause(lits) => lits != [] && forall m | m in lits :: m.index < taken
    case AddForOptimization(m) => m.index < taken
    case _ => true
  }

  /** Each call mentions variables taken before it. */
  predicate Sensible(calls: seq<Call>) {
    calls == [] || (Sensible(calls[..|calls| - 1]) && CallOk(calls[|calls| - 1], Taken(calls[..|calls| - 1])))
  }

  function LitOf(ids: seq<ID>, m: Mention): ID
    requires m.index < |ids|
  {
    if m.negated then Negate(ids[m.index]) else ids[m.index]
  }

  function LitsOf(ids: seq<ID>, ms: seq<Mention>): (r: Clause)
    requires forall m | m in ms :: m.index < |ids|
    ensures |r| == |ms| && forall i | 0 <= i < |ms| :: r[i] == LitOf(ids, ms[i])
  {
    if ms == [] then [] else LitsOf(ids, ms[..|ms| - 1]) + [LitOf(ids, ms[|ms| - 1])]
  }

  /** The hard clauses after the calls. */
  function ClausesOf(calls: seq<Call>, ids: seq<ID>): seq<Clause>
    requires Sensible(calls) && Taken(calls) <= |ids|
  {
    if calls == [] then []
    else
      var before := ClausesOf(calls[..|calls| - 1], ids);
      match calls[|calls| - 1]
      case AddClause(lits) => before + [LitsOf(ids, lits)]
      case _ => before
  }

  /** The optimisation literals after the calls. */
  function GoalsOf(calls: seq<Call>, ids: seq<ID>): set<ID>
    requires Sensible(calls) && Taken(calls) <= |ids|
  {
    if calls == [] then {}
    else
      var before := GoalsOf(calls[..|calls| - 1], ids);
      match calls[|calls| - 1]
      case AddForOptimization(m) => before + {LitOf(ids, m)}
      case _ => before
  }

  lemma {:induction false} FewGoals(calls: seq<Call>, ids: seq<ID>)
    requires Sensible(calls) && Taken(calls) <= |ids|
    ensures |GoalsOf(calls, ids)| <= |calls|
  {
    if calls != [] {
      FewGoals(calls[..|calls| - 1], ids);
    }
  }

  /** Variables taken later change nothing. */
  lemma {:induction false} SameAfter(calls: seq<Call>, ids: seq<ID>, id: ID)
    requires Sensible(calls) && Taken(calls) <= |ids|
    ensures ClausesOf(calls, ids + [id]) == ClausesOf(calls, ids) && GoalsOf(calls, ids + [id]) == GoalsOf(calls, ids)
  {
    if calls != [] {
      SameAfter(calls[..|calls| - 1], ids, id);
      if calls[|calls| - 1].AddClause? {
        assert LitsOf(ids + [id], calls[|calls| - 1].lits) == LitsOf(ids, calls[|calls| - 1].lits);
      }
    }
  }

  lemma Prefix(calls: seq<Call>, i: nat)
    requires i < |calls|
    ensures calls[..i + 1][..|calls[..i + 1]| - 1] == calls[..i] && calls[..i + 1][i] == calls[i]
  {
  }

  lemma {:induction false} PrefixSensible(calls: seq<Call>, i: nat)
    requires Sensible(calls) && i <= |calls|
    ensures Sensible(calls[..i]) && Taken(calls[..i]) <= Taken(calls)
    decreases |calls|
  {
    if i < |calls| {
      PrefixSensible(calls[..|calls| - 1], i);
      assert calls[..|calls| - 1][..i] == calls[..i];
    } else {
      assert calls[..i] == calls;
    }
  }

  datatype Answer = Answer(sat: bool, soln: set<ID>)

  /** The answer is right for what the calls have added. */
  ghost predicate Right(calls: seq<Call>, ids: seq<ID>, a: Answer)
    requires Sensible(calls) && Taken(calls) <= |ids|
  {
    && (a.sat <==> exists v: Valuation :: Hard(v, ClausesOf(calls, ids)))
    && (a.sat ==> Optimal(ClausesOf(calls, ids), GoalsOf(calls, ids), a.soln))
  }

  // ----- one call -----

  ghost predicate KnowsAll(s: Msu4MaxSatSolver, ids: seq<ID>)
    reads s, s.vm, s.solver, s.cardinality
  {
    forall id | id in ids :: s.Abs().Known([id])
  }

  lemma KnownLits(s: Msu4MaxSatSolver, ids: seq<ID>, ms: seq<Mention>)
    requires KnowsAll(s, ids) && forall m | m in ms :: m.index < |ids|
    ensures s.Abs().Known(LitsOf(ids, ms))
  {
    var lits := LitsOf(ids, ms);
    forall lit | lit in lits
      ensures Strip(lit) < s.Abs().next && Strip(lit) !in s.Abs().hidden
    {
      var i :| 0 <= i < |lits| && lits[i] == lit;
      assert ms[i] in ms;
      var id := ids[ms[i].index];
      assert s.Abs().Known([id]) && id in [id];
      assert Strip(Negate(id)) == Strip(id);
    }
  }

  /** The session so far. */
  ghost predicate Going(s: Msu4MaxSatSolver, calls: seq<Call>, ids: seq<ID>)
    reads s, s.vm, s.solver, s.cardinality
  {
    && s.Valid() && Sensible(calls) && Taken(calls) == |ids| && KnowsAll(s, ids)
    && s.clauses == ClausesOf(calls, ids) && s.optimizationSet == GoalsOf(calls, ids)
  }

  method Take(s: Msu4MaxSatSolver, ghost calls: seq<Call>, ids: seq<ID>) returns (id: ID)
    requires Going(s, calls, ids)
    modifies s.vm
    ensures s.Valid() && KnowsAll(s, ids + [id])
    ensures s.clauses == old(s.clauses) && s.optimizationSet == old(s.optimizationSet)
  {
    ghost var t := s.Abs();
    OkMeans(t);
    ReadyMeans(t);
    id := s.vm.GetNewID();
    assert s.Abs() == Later(t, s.vm.nextID);
    LaterOk(t, s.vm.nextID);
    forall i | i in ids + [id]
      ensures s.Abs().Known([i])
    {
      if i in ids {
        StillKnown(t.Words(), s.Abs().Words(), [i]);
      }
    }
  }

  method Constrain(s: Msu4MaxSatSolver, ghost calls: seq<Call>, ids: seq<ID>, ms: seq<Mention>)
    requires Going(s, calls, ids) && ms != [] && forall m | m in ms :: m.index < |ids|
    modifies s, s.solver
    ensures s.Valid() && KnowsAll(s, ids)
    ensures s.clauses == old(s.clauses) + [LitsOf(ids, ms)] && s.optimizationSet == old(s.optimizationSet)
  {
    KnownLits(s, ids, ms);
    ghost var t := s.Abs();
    s.AddClause(LitsOf(ids, ms));
    forall i | i in ids
      ensures s.Abs().Known([i])
    {
      assert t.Known([i]);
    }
  }

  method Optimise(s: Msu4MaxSatSolver, ghost calls: seq<Call>, ids: seq<ID>, m: Mention)
    requires Going(s, calls, ids) && m.index < |ids| && |calls| + 1 < UINT_MAX
    modifies s
    ensures s.Valid() && KnowsAll(s, ids)
    ensures s.clauses == old(s.clauses) && s.optimizationSet == old(s.optimizationSet) + {LitOf(ids, m)}
  {
    FewGoals(calls, ids);
    KnownLits(s, ids, [m]);
    ghost var t := s.Abs();
    assert LitsOf(ids, [m]) == [LitOf(ids, m)];
    var r := s.AddForOptimization(LitOf(ids, m));
    forall i | i in ids
      ensures s.Abs().Known([i])
    {
      assert t.Known([i]);
    }
  }

  method Ask(s: Msu4MaxSatSolver, ghost calls: seq<Call>, ghost ids: seq<ID>) returns (a: Answer)
    requires Going(s, calls, ids)
    modifies s, s.solver, s.vm
    ensures s.Valid() && KnowsAll(s, ids) && Right(calls, ids, a)
    ensures s.clauses == old(s.clauses) && s.optimizationSet == old(s.optimizationSet)
  {
    ghost var t := s.Abs();
    var sat := s.DoSolve();
    a := Answer(sat, s.currentSoln);
    forall i | i in ids
      ensures s.Abs().Known([i])
    {
      StillKnown(t.Words(), s.Abs().Words(), [i]);
    }
  }

  /** Makes one call. */
  method Perform(s: Msu4MaxSatSolver, ghost calls: seq<Call>, ghost more: seq<Call>, call: Call, ids: seq<ID>)
    returns (ids': seq<ID>, a: Answer)
    requires Going(s, calls, ids) && |calls| + 1 < UINT_MAX
    requires |more| == |calls| + 1 && more[..|more| - 1] == calls && more[|calls|] == call && Sensible(more)
    modifies s, s.solver, s.vm
    ensures Going(s, more, ids')
    ensures if call.NewVariable? then |ids'| == |ids| + 1 && ids' == ids + [ids'[|ids|]] else ids' == ids
    ensures call.DoSolve? ==> Right(calls, ids, a)
  {
    ids', a := ids, Answer(false, {});
    match call {
      case NewVariable =>
        var id := Take(s, calls, ids);
        SameAfter(calls, ids, id);
        ids' := ids + [id];
      case AddClause(lits) =>
        Constrain(s, calls, ids, lits);
      case AddForOptimization(m) =>
        Optimise(s, calls, ids, m);
      case DoSolve =>
        a := Ask(s, calls, ids);
    }
  }

  // ----- the session -----

  /** Every answer is right for the clauses and literals added before it, whatever
      the order of the calls. */
  method Run(s: Msu4MaxSatSolver, calls: seq<Call>) returns (ids: seq<ID>, answers: map<nat, Answer>)
    requires s.Valid() && s.clauses == [] && s.optimizationSet == {} && Sensible(calls) && |calls| + 1 < UINT_MAX
    modifies s, s.solver, s.vm
    ensures s.Valid() && |ids| == Taken(calls)
    ensures forall i | 0 <= i < |calls| && calls[i].DoSolve? :: i in answers && RightAt(calls, i, ids, answers[i])
  {
    ids, answers := [], map[];
    for i := 0 to |calls|
      invariant Going(s, calls[..i], ids) && AllRight(calls, i, ids, answers)
    {
      PrefixSensible(calls, i + 1);
      Prefix(calls, i);
      var ids', a := Perform(s, calls[..i], calls[..i + 1], calls[i], ids);
      if calls[i].NewVariable? {
        StillRight(calls, i, ids, ids'[|ids|], answers);
      } else if calls[i].DoSolve? {
        answers := answers[i := a];
      }
      ids := ids';
    }
    assert calls[..|calls|] == calls;
  }

  ghost predicate AllRight(calls: seq<Call>, n: nat, ids: seq<ID>, answers: map<nat, Answer>)
    requires n <= |calls|
  {
    forall j | 0 <= j < n && calls[j].DoSolve? :: j in answers && RightAt(calls, j, ids, answers[j])
  }

  ghost predicate RightAt(calls: seq<Call>, i: nat, ids: seq<ID>, a: Answer) {
    i <= |calls| && Sensible(calls[..i]) && Taken(calls[..i]) <= |ids| && Right(calls[..i], ids, a)
  }

  lemma StillRight(calls: seq<Call>, n: nat, ids: seq<ID>, id: ID, answers: map<nat, Answer>)
    requires n <= |calls| && AllRight(calls, n, ids, answers)
    ensures AllRight(calls, n, ids + [id], answers)
  {
    forall j | 0 <= j < n && calls[j].DoSolve?
      ensures j in answers && RightAt(calls, j, ids + [id], answers[j])
    {
      SameAfter(calls[..j], ids, id);
    }
  }
}
