/** The oracle's queries answered by the CDCL core
    (src/pme/engine/sat_adaptor.cpp:148-192, src/sat/glucose.cpp). */
module CoreAdaptors {
  import opened Collections
  import opened Ids
  import opened SatQueries
  import T = Trails
  import C = CdclSolvers
  import L = SearchLogs
  import opened SearchSteps

  function CoreLit(lit: ID): T.Lit {
    T.Lit(Strip(lit) / 2, IsNegated(lit))
  }

  function PlainLit(q: T.Lit): ID {
    2 * q.x + if q.sign then 1 else 0
  }

  lemma ThereAndBack(lit: ID)
    ensures PlainLit(CoreLit(lit)) == lit
    ensures CoreLit(lit).Not() == CoreLit(Negate(lit))
  {
  }

  function CoreClause(cls: Clause): (r: T.Clause)
    ensures |r| == |cls| && forall i | 0 <= i < |cls| :: r[i] == CoreLit(cls[i])
  {
    if cls == [] then [] else CoreClause(cls[..|cls| - 1]) + [CoreLit(cls[|cls| - 1])]
  }

  function CoreCnf(cnf: seq<Clause>): (r: seq<T.Clause>)
    ensures |r| == |cnf| && forall i | 0 <= i < |cnf| :: r[i] == CoreClause(cnf[i])
  {
    if cnf == [] then [] else CoreCnf(cnf[..|cnf| - 1]) + [CoreClause(cnf[|cnf| - 1])]
  }

  // ----- valuations of both kinds -----

  /** They agree on the variables of the set. */
  ghost predicate Same(v: Valuation, m: T.Valuation, vars: set<ID>) {
    forall x | x in vars :: x in v <==> x / 2 in m
  }

  lemma SameHolds(v: Valuation, m: T.Valuation, vars: set<ID>, lit: ID)
    requires Same(v, m, vars) && Strip(lit) in vars
    ensures Holds(v, lit) <==> T.Holds(m, CoreLit(lit))
  {
  }

  predicate Over(vars: set<ID>, cls: Clause) {
    forall lit | lit in cls :: Strip(lit) in vars
  }

  lemma SameClause(v: Valuation, m: T.Valuation, vars: set<ID>, cls: Clause)
    requires Same(v, m, vars) && Over(vars, cls)
    ensures SatClause(v, cls) <==> T.Satisfies(m, T.LitSet(CoreClause(cls)))
  {
    var core := CoreClause(cls);
    forall i | 0 <= i < |cls|
      ensures Holds(v, cls[i]) <==> T.Holds(m, core[i])
      ensures core[i] in T.LitSet(core)
    {
      assert cls[i] in cls;
      SameHolds(v, m, vars, cls[i]);
    }
    if SatClause(v, cls) {
      var lit :| lit in cls && Holds(v, lit);
      var i :| 0 <= i < |cls| && cls[i] == lit;
      assert core[i] in T.LitSet(core);
    }
    if T.Satisfies(m, T.LitSet(core)) {
      var q :| q in T.LitSet(core) && T.Holds(m, q);
      var i :| 0 <= i < |core| && core[i] == q;
      assert cls[i] in cls;
    }
  }

  lemma SameModels(v: Valuation, m: T.Valuation, vars: set<ID>, cnf: seq<Clause>)
    requires Same(v, m, vars) && forall cls | cls in cnf :: Over(vars, cls)
    ensures Models(v, cnf) <==> T.Models(m, CoreCnf(cnf))
  {
    var core := CoreCnf(cnf);
    forall i | 0 <= i < |cnf|
      ensures SatClause(v, cnf[i]) <==> T.Satisfies(m, T.LitSet(core[i]))
    {
      assert cnf[i] in cnf;
      SameClause(v, m, vars, cnf[i]);
    }
    if Models(v, cnf) {
      forall cls | cls in core
        ensures T.Satisfies(m, T.LitSet(cls))
      {
        var i :| 0 <= i < |core| && core[i] == cls;
        assert cnf[i] in cnf;
      }
    }
    if T.Models(m, core) {
      forall cls | cls in cnf
        ensures SatClause(v, cls)
      {
        var i :| 0 <= i < |cnf| && cnf[i] == cls;
        assert core[i] in core;
      }
    }
  }

  ghost function Plain(m: T.Valuation, vars: set<ID>): Valuation {
    set x | x in vars && x / 2 in m
  }

  ghost function Core(v: Valuation, vars: set<ID>): T.Valuation {
    iset x: nat | 2 * x in v
  }

  predicate EvenVars(vars: set<ID>) {
    forall x | x in vars :: x % 2 == 0
  }

  lemma BothWays(v: Valuation, m: T.Valuation, vars: set<ID>)
    requires EvenVars(vars)
    ensures Same(Plain(m, vars), m, vars) && Same(v, Core(v, vars), vars)
  {
    forall x | x in vars
      ensures x in v <==> x / 2 in Core(v, vars)
    {
      assert 2 * (x / 2) == x;
    }
  }

  // ----- answers -----

  lemma ModelBack(cnf: seq<Clause>, assumps: set<ID>, vars: set<ID>, m: T.Valuation)
    requires EvenVars(vars) && (forall cls | cls in cnf :: Over(vars, cls)) && forall a | a in assumps :: Strip(a) in vars
    requires T.Models(m, CoreCnf(cnf)) && forall a | a in assumps :: T.Holds(m, CoreLit(a))
    ensures Satisfies(Plain(m, vars), cnf, assumps)
  {
    var v := Plain(m, vars);
    BothWays({}, m, vars);
    SameModels(v, m, vars, cnf);
    forall a | a in assumps
      ensures Holds(v, a)
    {
      SameHolds(v, m, vars, a);
    }
  }

  /** The assumptions whose negations are in the core's clause are already
      unsatisfiable. */
  lemma CoreBack(cnf: seq<Clause>, assumps: seq<ID>, vars: set<ID>, conflict: seq<T.Lit>, crits: set<ID>)
    requires EvenVars(vars) && (forall cls | cls in cnf :: Over(vars, cls)) && forall a | a in assumps :: Strip(a) in vars
    requires C.Refutes(CoreCnf(cnf), CoreClause(assumps), conflict)
    requires crits == set q | q in conflict :: PlainLit(q.Not())
    ensures (forall a | a in crits :: a in assumps) && Unsat(cnf, crits)
  {
    forall q | q in conflict
      ensures PlainLit(q.Not()) in assumps && CoreLit(PlainLit(q.Not())) == q.Not()
    {
      var i :| 0 <= i < |assumps| && CoreClause(assumps)[i] == q.Not();
      ThereAndBack(assumps[i]);
    }
    forall v: Valuation
      ensures !Satisfies(v, cnf, crits)
    {
      if Satisfies(v, cnf, crits) {
        NoModel(v, cnf, vars, assumps, conflict, crits);
      }
    }
  }

  lemma NoModel(v: Valuation, cnf: seq<Clause>, vars: set<ID>, assumps: seq<ID>, conflict: seq<T.Lit>, crits: set<ID>)
    requires EvenVars(vars) && (forall cls | cls in cnf :: Over(vars, cls)) && forall a | a in assumps :: Strip(a) in vars
    requires T.Entails(CoreCnf(cnf), T.LitSet(conflict)) && crits == set q | q in conflict :: PlainLit(q.Not())
    requires forall q | q in conflict :: PlainLit(q.Not()) in assumps && CoreLit(PlainLit(q.Not())) == q.Not()
    ensures !Satisfies(v, cnf, crits)
  {
    if Models(v, cnf) {
      var m := Core(v, vars);
      BothWays(v, m, vars);
      SameModels(v, m, vars, cnf);
      var q :| q in T.LitSet(conflict) && T.Holds(m, q);
      var a := PlainLit(q.Not());
      assert q in conflict && a in crits;
      SameHolds(v, m, vars, a);
    }
  }

  // ----- the query -----

  /** A number of variables that covers the identifiers. */
  method CountVars(vars: set<ID>) returns (n: nat)
    ensures forall x | x in vars :: x / 2 < n
  {
    n := 0;
    var rest := vars;
    while rest != {}
      invariant rest <= vars && forall x | x in vars - rest :: x / 2 < n
      decreases rest
    {
      var x :| x in rest;
      n := if x / 2 < n then n else x / 2 + 1;
      assert forall y | y in vars - (rest - {x}) :: y == x || y in vars - rest;
      rest := rest - {x};
    }
    assert vars - rest == vars;
  }

  method InSomeOrder(s: set<ID>) returns (r: seq<ID>)
    ensures forall x :: x in r <==> x in s
  {
    r := [];
    var rest := s;
    while rest != {}
      invariant rest <= s && forall x :: x in r <==> x in s - rest
      decreases rest
    {
      var x :| x in rest;
      r := r + [x];
      rest := rest - {x};
    }
  }

  /** Between calls, kept folded: the argument n does not matter. */
  ghost predicate StableF(s: C.Solver, n: nat)
    reads s
    decreases n
  {
    if n == 0 then s.Stable() else StableF(s, n - 1)
  }

  ghost predicate StableOk(s: C.Solver)
    reads s
  {
    StableF(s, s.nVars)
  }

  lemma {:induction false} StableIs(s: C.Solver, n: nat)
    ensures StableF(s, n) <==> s.Stable()
    decreases n
  {
    if n > 0 {
      StableIs(s, n - 1);
    }
  }

  /** A core with n variables and the clauses. */
  method Load(n: nat, cnf: seq<Clause>) returns (s: C.Solver)
    requires forall cls | cls in cnf :: forall lit | lit in cls :: Strip(lit) / 2 < n
    ensures fresh(s) && StableOk(s) && s.formula == CoreCnf(cnf) && s.nVars == n
  {
    s := new C.Solver(0, 0, 0);
    StableIs(s, s.nVars);
    for i := 0 to n
      invariant fresh(s) && StableOk(s) && s.formula == [] && s.nVars == i
    {
      AddVar(s);
    }
    for i := 0 to |cnf|
      invariant fresh(s) && StableOk(s) && s.formula == CoreCnf(cnf[..i]) && s.nVars == n
    {
      assert cnf[i] in cnf;
      AddOne(s, cnf[i]);
      assert cnf[..i + 1][..i] == cnf[..i];
    }
    assert cnf[..|cnf|] == cnf;
  }

  method AddVar(s: C.Solver)
    requires StableOk(s)
    modifies s`vars, s`nVars
    ensures StableOk(s) && s.nVars == old(s.nVars) + 1
  {
    StableIs(s, s.nVars);
    var x := s.NewVar();
    StableIs(s, s.nVars);
  }

  method AddOne(s: C.Solver, cls: Clause)
    requires StableOk(s) && forall lit | lit in cls :: Strip(lit) / 2 < s.nVars
    modifies s`formula, s`clauses, s`trail, s`qhead, s`watches, s`watchesBin, s`ok
    ensures StableOk(s) && s.formula == old(s.formula) + [CoreClause(cls)]
  {
    StableIs(s, s.nVars);
    ClauseBelow(cls, s.nVars);
    var r := s.AddClause(CoreClause(cls));
    StableIs(s, s.nVars);
  }

  lemma ClauseBelow(cls: Clause, n: nat)
    requires forall lit | lit in cls :: Strip(lit) / 2 < n
    ensures forall q | q in CoreClause(cls) :: q.x < n
  {
    var core := CoreClause(cls);
    forall q | q in core
      ensures q.x < n
    {
      var i :| 0 <= i < |core| && core[i] == q;
      assert cls[i] in cls;
    }
  }

  /** The literals come from the failure of one of the assumptions. */
  ghost predicate Explained(e: L.Event, assumps: seq<T.Lit>, conflict: seq<T.Lit>) {
    e.Failed? && L.FailsOk(e) && e.assumps == assumps && e.core == conflict
  }

  ghost predicate InOrderOf(list: seq<ID>, assumps: set<ID>) {
    forall x :: x in list <==> x in assumps
  }

  /** The critical assumptions are exactly those of the failure, in some order of the
      assumptions. */
  ghost predicate CritsOf(e: L.Event, assumps: set<ID>, crits: set<ID>) {
    && e.Failed? && (exists list :: InOrderOf(list, assumps) && Explained(e, CoreClause(list), e.core))
    && crits == set q | q in e.core :: PlainLit(q.Not())
  }

  /** The core's own answer. */
  method RunCore(n: nat, cnf: seq<Clause>, list: seq<ID>, limit: nat -> nat)
    returns (sat: bool, trail: seq<T.Lit>, conflict: seq<T.Lit>, ghost e: L.Event)
    requires forall i: nat :: limit(i) > 0
    requires forall cls | cls in cnf :: forall lit | lit in cls :: Strip(lit) / 2 < n
    requires forall lit | lit in list :: Strip(lit) / 2 < n
    ensures sat ==> T.Models(TruthOf(trail), CoreCnf(cnf))
    ensures sat ==> forall a | a in CoreClause(list) :: T.Holds(TruthOf(trail), a)
    ensures !sat ==> C.Refutes(CoreCnf(cnf), CoreClause(list), conflict)
    ensures !sat && conflict != [] ==> Explained(e, CoreClause(list), conflict)
  {
    var s := Load(n, cnf);
    ClauseBelow(list, n);
    StableIs(s, s.nVars);
    var status;
    ghost var logs, conflicts;
    status, trail, logs, conflicts := s.Solve(CoreClause(list), limit, false);
    assert status == Some(status.value);
    sat, conflict := status.value, s.conflict;
    e := if s.log != [] then s.log[|s.log| - 1] else L.Started(0);
  }

  /** The same promise as the oracle's, kept by the core. */
  method Solve(cnf: seq<Clause>, assumps: set<ID>, limit: nat -> nat)
    returns (sat: bool, model: Valuation, crits: set<ID>, ghost e: L.Event)
    requires forall i: nat :: limit(i) > 0
    ensures sat ==> Satisfies(model, cnf, assumps)
    ensures !sat ==> crits <= assumps && Unsat(cnf, crits)
    ensures sat <==> exists v: Valuation :: Satisfies(v, cnf, assumps)
    ensures !sat && crits != {} ==> CritsOf(e, assumps, crits)
  {
    var vars := VarsOfCnf(cnf) + VarsOfSet(assumps);
    AllEven(cnf, assumps);
    var n := CountVars(vars);
    var list := InSomeOrder(assumps);
    var trail, conflict;
    sat, trail, conflict, e := RunCore(n, cnf, list, limit);
    model, crits := {}, {};
    if sat {
      AssumpsHold(list, TruthOf(trail));
      ModelBack(cnf, assumps, vars, TruthOf(trail));
      model := set x | x in vars && T.Lit(x / 2, false) in trail;
      assert model == Plain(TruthOf(trail), vars);
    } else {
      crits := set q | q in conflict :: PlainLit(q.Not());
      CoreBack(cnf, list, vars, conflict, crits);
      LessUnsat(cnf, crits, assumps);
      assert crits != {} ==> conflict != [] && InOrderOf(list, assumps) && Explained(e, CoreClause(list), conflict);
    }
  }

  function VarsOfSet(lits: set<ID>): set<ID> {
    set lit | lit in lits :: Strip(lit)
  }

  lemma {:induction false} CnfEven(cnf: seq<Clause>)
    ensures EvenVars(VarsOfCnf(cnf))
  {
    if cnf != [] {
      CnfEven(cnf[1..]);
      assert EvenVars(VarsOf(cnf[0]));
    }
  }

  lemma AllEven(cnf: seq<Clause>, assumps: set<ID>)
    ensures var vars := VarsOfCnf(cnf) + VarsOfSet(assumps);
      EvenVars(vars) && (forall cls | cls in cnf :: Over(vars, cls)) && forall a | a in assumps :: Strip(a) in vars
  {
    CnfEven(cnf);
    assert EvenVars(VarsOfSet(assumps));
  }

  lemma AssumpsHold(list: seq<ID>, m: T.Valuation)
    requires forall a | a in CoreClause(list) :: T.Holds(m, a)
    ensures forall a | a in list :: T.Holds(m, CoreLit(a))
  {
    forall a | a in list
      ensures T.Holds(m, CoreLit(a))
    {
      var i :| 0 <= i < |list| && list[i] == a;
      assert CoreClause(list)[i] in CoreClause(list);
    }
  }

  lemma LessUnsat(cnf: seq<Clause>, crits: set<ID>, assumps: set<ID>)
    requires Unsat(cnf, crits) && crits <= assumps
    ensures forall v: Valuation :: !Satisfies(v, cnf, assumps)
  {
    forall v: Valuation
      ensures !Satisfies(v, cnf, assumps)
    {
      assert !Satisfies(v, cnf, crits);
    }
  }
}
