/** Queries over two time frames, as the engines put them to the SAT solver
    (src/pme/ic3/transition_relation_solver.cpp,
    src/pme/engine/transition_relation.cpp:363-429, src/pme/id.cpp:43-93). */
module StepQueries {
  import opened Ids
  import opened SatQueries
  import opened SatAdaptors
  import opened TransitionRelations
  import opened Unrollings
  import opened NetworkProofs
  import CoreAdaptors

  /** A literal of the first or the second time frame, or an activation literal. */
  datatype Term = Now(lit: ID) | Next(lit: ID) | On(k: nat) | Off(k: nat)

  type TermClause = seq<Term>

  /** acts is the set of activation variables that are true. */
  predicate TermHolds(v: Valuation, w: Valuation, acts: set<nat>, t: Term) {
    match t
    case Now(lit) => Holds(v, lit)
    case Next(lit) => Holds(w, lit)
    case On(k) => k in acts
    case Off(k) => k !in acts
  }

  predicate SomeHolds(v: Valuation, w: Valuation, acts: set<nat>, cls: TermClause) {
    exists t | t in cls :: TermHolds(v, w, acts, t)
  }

  predicate AllHold(v: Valuation, w: Valuation, acts: set<nat>, terms: set<Term>) {
    forall t | t in terms :: TermHolds(v, w, acts, t)
  }

  /** A step of the circuit that satisfies the clauses and the assumptions. */
  predicate Answers(tr: TransitionRelation, clauses: set<TermClause>, assumps: set<Term>, v: Valuation, w: Valuation,
                    acts: set<nat>) {
    tr.Step(v, w) && (forall cls | cls in clauses :: SomeHolds(v, w, acts, cls)) && AllHold(v, w, acts, assumps)
  }

  ghost predicate NoAnswer(tr: TransitionRelation, clauses: set<TermClause>, assumps: set<Term>) {
    forall v: Valuation, w: Valuation, acts: set<nat> :: !Answers(tr, clauses, assumps, v, w, acts)
  }

  // ----- terms for clauses and cubes -----

  function NowClause(cls: Clause): TermClause {
    seq(|cls|, i requires 0 <= i < |cls| => Now(cls[i]))
  }

  function NextClause(cls: Clause): TermClause {
    seq(|cls|, i requires 0 <= i < |cls| => Next(cls[i]))
  }

  function NowAll(lits: set<ID>): set<Term> {
    set lit | lit in lits :: Now(lit)
  }

  function NextAll(lits: set<ID>): set<Term> {
    set lit | lit in lits :: Next(lit)
  }

  function OnAll(acts: set<nat>): set<Term> {
    set k | k in acts :: On(k)
  }

  function OffAll(acts: set<nat>): set<Term> {
    set k | k in acts :: Off(k)
  }

  lemma NowClauseHolds(v: Valuation, w: Valuation, acts: set<nat>, cls: Clause)
    ensures SomeHolds(v, w, acts, NowClause(cls)) <==> SatClause(v, cls)
  {
    var terms := NowClause(cls);
    if SomeHolds(v, w, acts, terms) {
      var i :| 0 <= i < |terms| && TermHolds(v, w, acts, terms[i]);
      assert cls[i] in cls;
    }
    if SatClause(v, cls) {
      var i :| 0 <= i < |cls| && Holds(v, cls[i]);
      assert terms[i] in terms;
    }
  }

  lemma NextClauseHolds(v: Valuation, w: Valuation, acts: set<nat>, cls: Clause)
    ensures SomeHolds(v, w, acts, NextClause(cls)) <==> SatClause(w, cls)
  {
    var terms := NextClause(cls);
    if SomeHolds(v, w, acts, terms) {
      var i :| 0 <= i < |terms| && TermHolds(v, w, acts, terms[i]);
      assert cls[i] in cls;
    }
    if SatClause(w, cls) {
      var i :| 0 <= i < |cls| && Holds(w, cls[i]);
      assert terms[i] in terms;
    }
  }

  lemma OrTermHolds(v: Valuation, w: Valuation, acts: set<nat>, cls: TermClause, t: Term)
    ensures SomeHolds(v, w, acts, cls + [t]) <==> SomeHolds(v, w, acts, cls) || TermHolds(v, w, acts, t)
  {
    assert forall s :: s in cls + [t] <==> s in cls || s == t;
  }

  lemma UnionHolds(v: Valuation, w: Valuation, acts: set<nat>, a: set<Term>, b: set<Term>)
    ensures AllHold(v, w, acts, a + b) <==> AllHold(v, w, acts, a) && AllHold(v, w, acts, b)
  {
  }

  lemma NowAllHold(v: Valuation, w: Valuation, acts: set<nat>, lits: set<ID>)
    ensures AllHold(v, w, acts, NowAll(lits)) <==> SatAll(v, lits)
  {
    assert forall lit | lit in lits :: Now(lit) in NowAll(lits);
  }

  lemma NextAllHold(v: Valuation, w: Valuation, acts: set<nat>, lits: set<ID>)
    ensures AllHold(v, w, acts, NextAll(lits)) <==> SatAll(w, lits)
  {
    assert forall lit | lit in lits :: Next(lit) in NextAll(lits);
  }

  lemma OnAllHold(v: Valuation, w: Valuation, acts: set<nat>, ks: set<nat>)
    ensures AllHold(v, w, acts, OnAll(ks)) <==> ks <= acts
  {
    assert forall k | k in ks :: On(k) in OnAll(ks);
  }

  lemma OffAllHold(v: Valuation, w: Valuation, acts: set<nat>, ks: set<nat>)
    ensures AllHold(v, w, acts, OffAll(ks)) <==> ks !! acts
  {
    assert forall k | k in ks :: Off(k) in OffAll(ks);
  }

  // ----- variables of the query -----

  /** The primed variables, and the first of the activation variables. */
  datatype Numbering = Numbering(copies: Copies, base: ID)

  ghost predicate NumberingOk(tr: TransitionRelation, n: Numbering) {
    && tr.WellFormed() && CopiesOk(tr, n.copies) && n.base % 2 == 0 && MIN_ID <= n.base
    && (forall x | x in tr.Vars() :: x < n.base) && forall x | x in n.copies.Values :: x < n.base
  }

  /** prime: a variable of the next time frame is shifted past all the others. */
  method Number(tr: TransitionRelation) returns (n: Numbering)
    requires tr.WellFormed()
    ensures NumberingOk(tr, n)
  {
    var top := CoreAdaptors.CountVars(tr.Vars());
    n := Shifted(tr.Vars(), 2 * top);
    forall x | x in tr.Vars()
      ensures x < 2 * top
    {
      assert x / 2 < top && x % 2 == 0;
    }
    ShiftedOk(tr, 2 * top);
  }

  function Shifted(vars: set<ID>, shift: nat): Numbering {
    Numbering(map x | x in vars :: x + shift, 2 * shift + MIN_ID)
  }

  lemma ShiftedOk(tr: TransitionRelation, shift: nat)
    requires tr.WellFormed() && shift % 2 == 0 && forall x | x in tr.Vars() :: x < shift
    ensures NumberingOk(tr, Shifted(tr.Vars(), shift))
  {
    var m := Shifted(tr.Vars(), shift).copies;
    assert m.Keys == tr.Vars();
    forall x | x in m
      ensures CopyOk(tr, m[x]) && m[x] == x + shift && m[x] < 2 * shift + MIN_ID
    {
      assert m[x] !in tr.Vars();
    }
  }

  /** A variable that the circuit does not have is false in every time frame;
      the constants are not primed. */
  function Known(tr: TransitionRelation, lit: ID): ID {
    if Strip(lit) in tr.Vars() then lit else if IsNegated(lit) then ID_TRUE else ID_FALSE
  }

  function ActVar(n: Numbering, k: nat): ID {
    n.base + 2 * k
  }

  function Code(tr: TransitionRelation, n: Numbering, t: Term): ID {
    match t
    case Now(lit) => Known(tr, lit)
    case Next(lit) => PrimedLit(n.copies, Known(tr, lit))
    case On(k) => ActVar(n, k)
    case Off(k) => Negate(ActVar(n, k))
  }

  function CodeClause(tr: TransitionRelation, n: Numbering, cls: TermClause): Clause {
    seq(|cls|, i requires 0 <= i < |cls| => Code(tr, n, cls[i]))
  }

  function ActsOf(n: Numbering, u: Valuation): set<nat> {
    set x | x in u && n.base <= x && x % 2 == 0 :: (x - n.base) / 2
  }

  lemma ActIs(n: Numbering, u: Valuation, k: nat)
    requires n.base % 2 == 0
    ensures k in ActsOf(n, u) <==> ActVar(n, k) in u
  {
    if ActVar(n, k) in u {
      assert (ActVar(n, k) - n.base) / 2 == k;
    }
  }

  // ----- what the codes mean -----

  lemma KnownHolds(tr: TransitionRelation, v: Valuation, lit: ID)
    requires tr.PlainVars() && v <= tr.Vars()
    ensures Plain(tr, Known(tr, lit)) && Holds(v, Known(tr, lit)) == Holds(v, lit)
  {
    assert ID_FALSE !in tr.Vars();
  }

  lemma CodeHolds(tr: TransitionRelation, n: Numbering, u: Valuation, t: Term)
    requires NumberingOk(tr, n) && ID_FALSE !in u
    ensures Holds(u, Code(tr, n, t)) == TermHolds(First(tr, u), Second(n.copies, u), ActsOf(n, u), t)
  {
    match t {
      case Now(lit) =>
        KnownHolds(tr, First(tr, u), lit);
        FirstHolds(tr, u, Known(tr, lit));
      case Next(lit) =>
        KnownHolds(tr, Second(n.copies, u), lit);
        SecondHolds(tr, n.copies, u, Known(tr, lit));
      case On(k) =>
        ActIs(n, u, k);
      case Off(k) =>
        ActIs(n, u, k);
        NegateFlips(u, ActVar(n, k));
    }
  }

  lemma CodeClauseHolds(tr: TransitionRelation, n: Numbering, u: Valuation, cls: TermClause)
    requires NumberingOk(tr, n) && ID_FALSE !in u
    ensures SatClause(u, CodeClause(tr, n, cls)) <==> SomeHolds(First(tr, u), Second(n.copies, u), ActsOf(n, u), cls)
  {
    var code := CodeClause(tr, n, cls);
    forall i | 0 <= i < |cls|
      ensures Holds(u, code[i]) == TermHolds(First(tr, u), Second(n.copies, u), ActsOf(n, u), cls[i])
    {
      CodeHolds(tr, n, u, cls[i]);
    }
    if SatClause(u, code) {
      var lit :| lit in code && Holds(u, lit);
      var i :| 0 <= i < |code| && code[i] == lit;
      assert cls[i] in cls;
    }
    if SomeHolds(First(tr, u), Second(n.copies, u), ActsOf(n, u), cls) {
      var t :| t in cls && TermHolds(First(tr, u), Second(n.copies, u), ActsOf(n, u), t);
      var i :| 0 <= i < |cls| && cls[i] == t;
      assert code[i] in code;
    }
  }

  /** The clauses, in some order. */
  predicate Coded(tr: TransitionRelation, n: Numbering, clauses: set<TermClause>, cnf: seq<Clause>) {
    && (forall cls | cls in clauses :: CodeClause(tr, n, cls) in cnf)
    && forall code | code in cnf :: exists cls :: cls in clauses && CodeClause(tr, n, cls) == code
  }

  method CodeAll(tr: TransitionRelation, n: Numbering, clauses: set<TermClause>) returns (cnf: seq<Clause>)
    ensures Coded(tr, n, clauses, cnf)
  {
    cnf := [];
    var rest := clauses;
    while rest != {}
      invariant rest <= clauses && Coded(tr, n, clauses - rest, cnf)
      decreases rest
    {
      var cls :| cls in rest;
      CodeNext(tr, n, clauses - rest, cnf, cls);
      assert clauses - (rest - {cls}) == clauses - rest + {cls};
      cnf := cnf + [CodeClause(tr, n, cls)];
      rest := rest - {cls};
    }
    assert clauses - rest == clauses;
  }

  lemma CodeNext(tr: TransitionRelation, n: Numbering, clauses: set<TermClause>, cnf: seq<Clause>, cls: TermClause)
    requires Coded(tr, n, clauses, cnf)
    ensures Coded(tr, n, clauses + {cls}, cnf + [CodeClause(tr, n, cls)])
  {
    var more := clauses + {cls};
    forall code | code in cnf + [CodeClause(tr, n, cls)]
      ensures exists d :: d in more && CodeClause(tr, n, d) == code
    {
      if code in cnf {
        var d :| d in clauses && CodeClause(tr, n, d) == code;
        assert d in more;
      } else {
        assert cls in more;
      }
    }
  }

  lemma CodedMeans(tr: TransitionRelation, n: Numbering, clauses: set<TermClause>, cnf: seq<Clause>, u: Valuation)
    requires NumberingOk(tr, n) && ID_FALSE !in u && Coded(tr, n, clauses, cnf)
    ensures Models(u, cnf)
       <==> forall cls | cls in clauses :: SomeHolds(First(tr, u), Second(n.copies, u), ActsOf(n, u), cls)
  {
    if Models(u, cnf) {
      forall cls | cls in clauses
        ensures SomeHolds(First(tr, u), Second(n.copies, u), ActsOf(n, u), cls)
      {
        CodeClauseHolds(tr, n, u, cls);
      }
    } else {
      var code :| code in cnf && !SatClause(u, code);
      var cls :| cls in clauses && CodeClause(tr, n, cls) == code;
      CodeClauseHolds(tr, n, u, cls);
    }
  }

  /** All that the solver is told. */
  function QueryCnf(tr: TransitionRelation, n: Numbering, cnf: seq<Clause>): seq<Clause> {
    [[ID_TRUE]] + Unrolled(tr, n.copies) + cnf
  }

  lemma QueryMeans(tr: TransitionRelation, n: Numbering, clauses: set<TermClause>, cnf: seq<Clause>, u: Valuation)
    requires NumberingOk(tr, n) && Coded(tr, n, clauses, cnf)
    ensures Models(u, QueryCnf(tr, n, cnf)) <==>
      && ID_FALSE !in u && tr.Step(First(tr, u), Second(n.copies, u))
      && forall cls | cls in clauses :: SomeHolds(First(tr, u), Second(n.copies, u), ActsOf(n, u), cls)
  {
    ModelsConcat(u, [[ID_TRUE]], Unrolled(tr, n.copies));
    ModelsConcat(u, [[ID_TRUE]] + Unrolled(tr, n.copies), cnf);
    TrueMeans(u);
    if ID_FALSE !in u {
      UnrolledMeans(tr, n.copies, u);
      CodedMeans(tr, n, clauses, cnf, u);
    }
  }

  lemma TrueMeans(u: Valuation)
    ensures Models(u, [[ID_TRUE]]) <==> ID_FALSE !in u
  {
    OneLiteral(u, ID_TRUE);
    assert [ID_TRUE] in [[ID_TRUE]];
  }

  function Codes(tr: TransitionRelation, n: Numbering, terms: set<Term>): set<ID> {
    set t | t in terms :: Code(tr, n, t)
  }

  lemma CodesMean(tr: TransitionRelation, n: Numbering, terms: set<Term>, u: Valuation)
    requires NumberingOk(tr, n) && ID_FALSE !in u
    ensures SatAll(u, Codes(tr, n, terms)) <==> AllHold(First(tr, u), Second(n.copies, u), ActsOf(n, u), terms)
  {
    forall t | t in terms
      ensures Code(tr, n, t) in Codes(tr, n, terms)
      ensures Holds(u, Code(tr, n, t)) == TermHolds(First(tr, u), Second(n.copies, u), ActsOf(n, u), t)
    {
      CodeHolds(tr, n, u, t);
    }
  }

  // ----- the answers -----

  lemma ModelAnswers(tr: TransitionRelation, n: Numbering, clauses: set<TermClause>, cnf: seq<Clause>, assumps: set<Term>,
                     u: Valuation)
    requires NumberingOk(tr, n) && Coded(tr, n, clauses, cnf)
    requires Satisfies(u, QueryCnf(tr, n, cnf), Codes(tr, n, assumps))
    ensures Answers(tr, clauses, assumps, First(tr, u), Second(n.copies, u), ActsOf(n, u))
  {
    QueryMeans(tr, n, clauses, cnf, u);
    CodesMean(tr, n, assumps, u);
  }

  function ActVars(n: Numbering, acts: set<nat>): Valuation {
    set k | k in acts :: ActVar(n, k)
  }

  lemma ActVarIs(n: Numbering, acts: set<nat>, k: nat)
    ensures ActVar(n, k) in ActVars(n, acts) <==> k in acts
  {
    if ActVar(n, k) in ActVars(n, acts) {
      var j :| j in acts && ActVar(n, j) == ActVar(n, k);
      assert j == k;
    }
  }

  /** The valuation for two frames and the chosen activation variables. */
  lemma OneValuation(tr: TransitionRelation, n: Numbering, v: Valuation, w: Valuation, acts: set<nat>) returns (u: Valuation)
    requires NumberingOk(tr, n) && v <= tr.Vars() && w <= tr.Vars()
    ensures First(tr, u) == v && Second(n.copies, u) == w && ActsOf(n, u) == acts && ID_FALSE !in u
  {
    var frames := Joined(n.copies, v, w);
    u := frames + ActVars(n, acts);
    JoinedFrames(tr, n.copies, v, w, ActVars(n, acts));
    JoinedBelow(tr, n, v, w);
    forall k: nat
      ensures k in ActsOf(n, u) <==> k in acts
    {
      ActIs(n, u, k);
      ActVarIs(n, acts, k);
      assert ActVar(n, k) !in frames;
    }
    assert ID_FALSE !in frames;
  }

  lemma JoinedBelow(tr: TransitionRelation, n: Numbering, v: Valuation, w: Valuation)
    requires NumberingOk(tr, n) && v <= tr.Vars() && w <= tr.Vars()
    ensures forall x | x in Joined(n.copies, v, w) :: MIN_ID <= x < n.base
  {
    forall x | x in Joined(n.copies, v, w)
      ensures MIN_ID <= x < n.base
    {
      if x !in v {
        var y :| y in n.copies && y in w && n.copies[y] == x;
        assert CopyOk(tr, n.copies[y]) && n.copies[y] in n.copies.Values;
      }
    }
  }

  lemma AnswerModels(tr: TransitionRelation, n: Numbering, clauses: set<TermClause>, cnf: seq<Clause>, assumps: set<Term>,
                     v: Valuation, w: Valuation, acts: set<nat>) returns (u: Valuation)
    requires NumberingOk(tr, n) && Coded(tr, n, clauses, cnf) && Answers(tr, clauses, assumps, v, w, acts)
    ensures Satisfies(u, QueryCnf(tr, n, cnf), Codes(tr, n, assumps))
  {
    u := OneValuation(tr, n, v, w, acts);
    QueryMeans(tr, n, clauses, cnf, u);
    CodesMean(tr, n, assumps, u);
  }

  lemma UnsatAnswers(tr: TransitionRelation, n: Numbering, clauses: set<TermClause>, cnf: seq<Clause>, assumps: set<Term>,
                     core: set<Term>, crits: set<ID>)
    requires NumberingOk(tr, n) && Coded(tr, n, clauses, cnf)
    requires crits <= Codes(tr, n, assumps) && Unsat(QueryCnf(tr, n, cnf), crits)
    requires core == set t | t in assumps && Code(tr, n, t) in crits
    ensures NoAnswer(tr, clauses, core)
  {
    CodesOf(tr, n, assumps, core, crits);
    forall v: Valuation, w: Valuation, acts: set<nat> | Answers(tr, clauses, core, v, w, acts)
      ensures false
    {
      var u := AnswerModels(tr, n, clauses, cnf, core, v, w, acts);
    }
  }

  lemma CodesOf(tr: TransitionRelation, n: Numbering, assumps: set<Term>, core: set<Term>, crits: set<ID>)
    requires crits <= Codes(tr, n, assumps) && core == set t | t in assumps && Code(tr, n, t) in crits
    ensures Codes(tr, n, core) == crits
  {
    forall lit | lit in crits
      ensures lit in Codes(tr, n, core)
    {
      assert lit in Codes(tr, n, assumps);
      var t :| t in assumps && Code(tr, n, t) == lit;
      assert t in core && Code(tr, n, t) in Codes(tr, n, core);
    }
  }

  /** Either a step that meets all of it, or assumptions that no step meets. */
  method Ask(tr: TransitionRelation, clauses: set<TermClause>, assumps: set<Term>)
    returns (sat: bool, v: Valuation, w: Valuation, acts: set<nat>, core: set<Term>)
    requires tr.WellFormed()
    ensures sat ==> Answers(tr, clauses, assumps, v, w, acts)
    ensures !sat ==> core <= assumps && NoAnswer(tr, clauses, core)
  {
    var n := Number(tr);
    var cnf := CodeAll(tr, n, clauses);
    var solver := new SatAdaptor();
    solver.AddClauses(Unrolled(tr, n.copies));
    solver.AddClauses(cnf);
    var crits;
    sat, crits := solver.Solve(Codes(tr, n, assumps));
    v, w, acts, core := {}, {}, {}, {};
    if sat {
      ModelAnswers(tr, n, clauses, cnf, assumps, solver.model);
      v, w, acts := First(tr, solver.model), Second(n.copies, solver.model), ActsOf(n, solver.model);
    } else {
      core := set t | t in assumps && Code(tr, n, t) in crits;
      UnsatAnswers(tr, n, clauses, cnf, assumps, core, crits);
    }
  }
}
