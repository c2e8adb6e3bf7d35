/** Two time frames of a circuit as clauses
    (src/pme/engine/transition_relation.cpp:363-429). */
module Unrollings {
  import opened Ids
  import opened TransitionRelations
  import opened NetworkProofs

  /** The copy of each variable in the next time frame. */
  type Copies = map<ID, ID>

  function PrimedLit(m: Copies, lit: ID): ID {
    if Strip(lit) in m then (if IsNegated(lit) then Negate(m[Strip(lit)]) else m[Strip(lit)]) else lit
  }

  function PrimedClause(m: Copies, cls: Clause): (r: Clause)
    ensures |r| == |cls| && forall i | 0 <= i < |cls| :: r[i] == PrimedLit(m, cls[i])
  {
    if cls == [] then [] else PrimedClause(m, cls[..|cls| - 1]) + [PrimedLit(m, cls[|cls| - 1])]
  }

  function PrimedCnf(m: Copies, cnf: seq<Clause>): (r: seq<Clause>)
    ensures |r| == |cnf| && forall i | 0 <= i < |cnf| :: r[i] == PrimedClause(m, cnf[i])
  {
    if cnf == [] then [] else PrimedCnf(m, cnf[..|cnf| - 1]) + [PrimedClause(m, cnf[|cnf| - 1])]
  }

  function AndClauses(g: AndGate): seq<Clause> {
    [[Negate(g.lhs), g.rhs0], [Negate(g.lhs), g.rhs1], [g.lhs, Negate(g.rhs0), Negate(g.rhs1)]]
  }

  /** toCNF */
  function GatesCnf(gates: seq<AndGate>): seq<Clause> {
    if gates == [] then [] else GatesCnf(gates[..|gates| - 1]) + AndClauses(gates[|gates| - 1])
  }

  /** The latch takes the value of its next-state literal. */
  function LatchClauses(m: Copies, latch: Latch): seq<Clause> {
    [[Negate(latch.next), PrimedLit(m, latch.id)], [latch.next, Negate(PrimedLit(m, latch.id))]]
  }

  function LatchesCnf(m: Copies, latches: seq<Latch>): seq<Clause> {
    if latches == [] then [] else LatchesCnf(m, latches[..|latches| - 1]) + LatchClauses(m, latches[|latches| - 1])
  }

  function Unrolled(tr: TransitionRelation, m: Copies): seq<Clause> {
    GatesCnf(tr.gates) + PrimedCnf(m, GatesCnf(tr.gates)) + LatchesCnf(m, tr.latches)
  }

  // ----- reading the two frames off a valuation -----

  ghost predicate CopiesOk(tr: TransitionRelation, m: Copies) {
    && m.Keys == tr.Vars() && (forall x | x in m :: CopyOk(tr, m[x]))
    && forall x, y | x in m && y in m && x != y :: m[x] != m[y]
  }

  predicate CopyOk(tr: TransitionRelation, y: ID) {
    MIN_ID <= y && !IsNegated(y) && y !in tr.Vars()
  }

  function First(tr: TransitionRelation, u: Valuation): Valuation {
    u * tr.Vars()
  }

  function Second(m: Copies, u: Valuation): Valuation {
    set x | x in m && m[x] in u
  }

  /** The literal is over variables of the circuit, or a constant. */
  predicate Plain(tr: TransitionRelation, lit: ID) {
    Strip(lit) in tr.Vars() || Strip(lit) == ID_FALSE
  }

  predicate PlainClause(tr: TransitionRelation, cls: Clause) {
    forall lit | lit in cls :: Plain(tr, lit)
  }

  predicate PlainCnf(tr: TransitionRelation, cnf: seq<Clause>) {
    forall cls | cls in cnf :: PlainClause(tr, cls)
  }

  lemma FirstHolds(tr: TransitionRelation, u: Valuation, lit: ID)
    requires ID_FALSE !in u && Plain(tr, lit)
    ensures Holds(First(tr, u), lit) == Holds(u, lit)
  {
  }

  lemma SecondHolds(tr: TransitionRelation, m: Copies, u: Valuation, lit: ID)
    requires tr.PlainVars() && CopiesOk(tr, m) && ID_FALSE !in u && Plain(tr, lit)
    ensures Holds(u, PrimedLit(m, lit)) == Holds(Second(m, u), lit)
  {
    if Strip(lit) in m {
      assert CopyOk(tr, m[Strip(lit)]);
    } else {
      assert Strip(lit) == ID_FALSE && ID_FALSE !in Second(m, u);
    }
  }

  lemma FirstSat(tr: TransitionRelation, u: Valuation, cls: Clause)
    requires ID_FALSE !in u && PlainClause(tr, cls)
    ensures SatClause(First(tr, u), cls) <==> SatClause(u, cls)
  {
    forall lit | lit in cls
      ensures Holds(First(tr, u), lit) == Holds(u, lit)
    {
      FirstHolds(tr, u, lit);
    }
  }

  lemma SecondSat(tr: TransitionRelation, m: Copies, u: Valuation, cls: Clause)
    requires tr.PlainVars() && CopiesOk(tr, m) && ID_FALSE !in u && PlainClause(tr, cls)
    ensures SatClause(u, PrimedClause(m, cls)) <==> SatClause(Second(m, u), cls)
  {
    var primed := PrimedClause(m, cls);
    forall i | 0 <= i < |cls|
      ensures Holds(u, primed[i]) == Holds(Second(m, u), cls[i])
    {
      assert cls[i] in cls;
      SecondHolds(tr, m, u, cls[i]);
    }
    if SatClause(u, primed) {
      var lit :| lit in primed && Holds(u, lit);
      var i :| 0 <= i < |primed| && primed[i] == lit;
      assert cls[i] in cls;
    }
    if SatClause(Second(m, u), cls) {
      var lit :| lit in cls && Holds(Second(m, u), lit);
      var i :| 0 <= i < |cls| && cls[i] == lit;
      assert primed[i] in primed;
    }
  }

  lemma PlainNegate(tr: TransitionRelation, lit: ID)
    ensures Plain(tr, Negate(lit)) <==> Plain(tr, lit)
  {
    assert Strip(Negate(lit)) == Strip(lit);
  }

  lemma PlainNegated(tr: TransitionRelation, cls: Clause)
    requires PlainClause(tr, cls)
    ensures PlainClause(tr, NegateVec(cls))
  {
    var neg := NegateVec(cls);
    forall lit | lit in neg
      ensures Plain(tr, lit)
    {
      var i :| 0 <= i < |neg| && neg[i] == lit;
      assert cls[i] in cls && lit == Negate(cls[i]);
      PlainNegate(tr, cls[i]);
    }
  }

  lemma NegatedClause(v: Valuation, cls: Clause)
    ensures SatCube(v, NegateVec(cls)) <==> !SatClause(v, cls)
  {
    var neg := NegateVec(cls);
    forall i | 0 <= i < |cls|
      ensures Holds(v, neg[i]) == !Holds(v, cls[i]) && neg[i] in neg && cls[i] in cls
    {
      NegateFlips(v, cls[i]);
    }
    if !SatClause(v, cls) {
      forall lit | lit in neg
        ensures Holds(v, lit)
      {
        var i :| 0 <= i < |neg| && neg[i] == lit;
      }
    }
  }

  lemma SecondCube(tr: TransitionRelation, m: Copies, u: Valuation, cube: Cube)
    requires tr.PlainVars() && CopiesOk(tr, m) && ID_FALSE !in u && PlainClause(tr, cube)
    ensures SatCube(u, PrimedClause(m, cube)) <==> SatCube(Second(m, u), cube)
  {
    var primed := PrimedClause(m, cube);
    forall i | 0 <= i < |cube|
      ensures Holds(u, primed[i]) == Holds(Second(m, u), cube[i]) && primed[i] in primed
    {
      assert cube[i] in cube;
      SecondHolds(tr, m, u, cube[i]);
    }
    if SatCube(Second(m, u), cube) {
      forall lit | lit in primed
        ensures Holds(u, lit)
      {
        var i :| 0 <= i < |primed| && primed[i] == lit;
        assert cube[i] in cube;
      }
    }
  }

  lemma FirstModels(tr: TransitionRelation, u: Valuation, cnf: seq<Clause>)
    requires ID_FALSE !in u && PlainCnf(tr, cnf)
    ensures Models(First(tr, u), cnf) <==> Models(u, cnf)
  {
    forall cls | cls in cnf
      ensures SatClause(First(tr, u), cls) <==> SatClause(u, cls)
    {
      FirstSat(tr, u, cls);
    }
  }

  lemma SecondModels(tr: TransitionRelation, m: Copies, u: Valuation, cnf: seq<Clause>)
    requires tr.PlainVars() && CopiesOk(tr, m) && ID_FALSE !in u && PlainCnf(tr, cnf)
    ensures Models(u, PrimedCnf(m, cnf)) <==> Models(Second(m, u), cnf)
  {
    var primed := PrimedCnf(m, cnf);
    forall i | 0 <= i < |cnf|
      ensures SatClause(u, primed[i]) <==> SatClause(Second(m, u), cnf[i])
    {
      assert cnf[i] in cnf;
      SecondSat(tr, m, u, cnf[i]);
    }
    if Models(u, primed) {
      forall cls | cls in cnf
        ensures SatClause(Second(m, u), cls)
      {
        var i :| 0 <= i < |cnf| && cnf[i] == cls;
        assert primed[i] in primed;
      }
    }
    if Models(Second(m, u), cnf) {
      forall cls | cls in primed
        ensures SatClause(u, cls)
      {
        var i :| 0 <= i < |primed| && primed[i] == cls;
        assert cnf[i] in cnf;
      }
    }
  }

  // ----- gates -----

  predicate AndHolds(v: Valuation, g: AndGate) {
    Holds(v, g.lhs) <==> Holds(v, g.rhs0) && Holds(v, g.rhs1)
  }

  lemma AndMeans(v: Valuation, g: AndGate)
    ensures Models(v, AndClauses(g)) <==> AndHolds(v, g)
  {
    var cnf := AndClauses(g);
    TwoLiterals(v, Negate(g.lhs), g.rhs0);
    TwoLiterals(v, Negate(g.lhs), g.rhs1);
    ThreeLiterals(v, g.lhs, Negate(g.rhs0), Negate(g.rhs1));
    NegateFlips(v, g.lhs);
    NegateFlips(v, g.rhs0);
    NegateFlips(v, g.rhs1);
    assert cnf[0] in cnf && cnf[1] in cnf && cnf[2] in cnf;
  }

  lemma {:induction false} GatesMean(v: Valuation, gates: seq<AndGate>)
    ensures Models(v, GatesCnf(gates)) <==> forall g | g in gates :: AndHolds(v, g)
  {
    if gates != [] {
      var less, g := gates[..|gates| - 1], gates[|gates| - 1];
      GatesMean(v, less);
      AndMeans(v, g);
      ModelsConcat(v, GatesCnf(less), AndClauses(g));
      assert forall h :: h in gates <==> h in less || h == g by {
        assert gates == less + [g];
      }
    }
  }

  lemma PlainGates(tr: TransitionRelation, g: AndGate)
    requires tr.WellFormed() && g in tr.gates
    ensures Plain(tr, g.lhs) && Plain(tr, g.rhs0) && Plain(tr, g.rhs1) && !IsNegated(g.lhs)
  {
    var i :| 0 <= i < |tr.gates| && tr.gates[i] == g;
    assert Reads(tr.gates[i], tr.Before(i));
    BeforeKnown(tr, i, Strip(g.rhs0));
    BeforeKnown(tr, i, Strip(g.rhs1));
    assert g.lhs in tr.Vars();
  }

  lemma BeforeKnown(tr: TransitionRelation, n: nat, x: ID)
    requires n <= |tr.gates| && x in tr.Before(n)
    ensures x in tr.Vars() || x == ID_FALSE
  {
    if x in Outputs(tr.gates[..n]) {
      var g :| g in tr.gates[..n] && g.lhs == x;
      assert g in tr.gates;
    }
  }

  lemma {:induction false} PlainGatesCnf(tr: TransitionRelation, gates: seq<AndGate>)
    requires forall g | g in gates :: Plain(tr, g.lhs) && Plain(tr, g.rhs0) && Plain(tr, g.rhs1)
    ensures PlainCnf(tr, GatesCnf(gates))
  {
    if gates != [] {
      var less, g := gates[..|gates| - 1], gates[|gates| - 1];
      PlainGatesCnf(tr, less);
      PlainAnd(tr, g);
      forall cls | cls in GatesCnf(gates)
        ensures PlainClause(tr, cls)
      {
        assert cls in GatesCnf(less) || cls in AndClauses(g);
      }
    }
  }

  lemma PlainAnd(tr: TransitionRelation, g: AndGate)
    requires Plain(tr, g.lhs) && Plain(tr, g.rhs0) && Plain(tr, g.rhs1)
    ensures PlainCnf(tr, AndClauses(g))
  {
    assert Strip(Negate(g.lhs)) == Strip(g.lhs) && Strip(Negate(g.rhs0)) == Strip(g.rhs0);
    assert Strip(Negate(g.rhs1)) == Strip(g.rhs1);
  }

  lemma AllPlain(tr: TransitionRelation)
    requires tr.WellFormed()
    ensures PlainCnf(tr, GatesCnf(tr.gates))
  {
    forall g | g in tr.gates
      ensures Plain(tr, g.lhs) && Plain(tr, g.rhs0) && Plain(tr, g.rhs1)
    {
      PlainGates(tr, g);
    }
    PlainGatesCnf(tr, tr.gates);
  }

  lemma FrameMeans(tr: TransitionRelation, v: Valuation)
    requires tr.WellFormed() && v <= tr.Vars()
    ensures Models(v, GatesCnf(tr.gates)) <==> tr.Frame(v)
  {
    GatesMean(v, tr.gates);
    forall g | g in tr.gates
      ensures AndHolds(v, g) <==> Agrees(v, g)
    {
      PlainGates(tr, g);
    }
  }

  // ----- latches -----

  predicate LatchHolds(m: Copies, u: Valuation, latch: Latch) {
    Holds(u, PrimedLit(m, latch.id)) <==> Holds(u, latch.next)
  }

  lemma LatchMeans(m: Copies, u: Valuation, latch: Latch)
    ensures Models(u, LatchClauses(m, latch)) <==> LatchHolds(m, u, latch)
  {
    var cnf := LatchClauses(m, latch);
    var next := PrimedLit(m, latch.id);
    TwoLiterals(u, Negate(latch.next), next);
    TwoLiterals(u, latch.next, Negate(next));
    NegateFlips(u, latch.next);
    NegateFlips(u, next);
    assert cnf[0] in cnf && cnf[1] in cnf;
  }

  lemma {:induction false} LatchesMean(m: Copies, u: Valuation, latches: seq<Latch>)
    ensures Models(u, LatchesCnf(m, latches)) <==> forall latch | latch in latches :: LatchHolds(m, u, latch)
  {
    if latches != [] {
      var less, last := latches[..|latches| - 1], latches[|latches| - 1];
      LatchesMean(m, u, less);
      LatchMeans(m, u, last);
      ModelsConcat(u, LatchesCnf(m, less), LatchClauses(m, last));
      assert forall h :: h in latches <==> h in less || h == last by {
        assert latches == less + [last];
      }
    }
  }

  /** The second frame starts where the latches of the first lead. */
  lemma NextMeans(tr: TransitionRelation, m: Copies, u: Valuation)
    requires tr.WellFormed() && CopiesOk(tr, m) && ID_FALSE !in u
    ensures Models(u, LatchesCnf(m, tr.latches))
       <==> Second(m, u) * tr.LatchIDs() == tr.NextState(First(tr, u))
  {
    LatchesMean(m, u, tr.latches);
    forall latch | latch in tr.latches
      ensures LatchHolds(m, u, latch) <==> (latch.id in Second(m, u) <==> Holds(First(tr, u), latch.next))
    {
      OneLatch(tr, m, u, latch);
    }
    NextIs(tr, First(tr, u), Second(m, u));
  }

  lemma OneLatch(tr: TransitionRelation, m: Copies, u: Valuation, latch: Latch)
    requires tr.WellFormed() && CopiesOk(tr, m) && ID_FALSE !in u && latch in tr.latches
    ensures LatchHolds(m, u, latch) <==> (latch.id in Second(m, u) <==> Holds(First(tr, u), latch.next))
  {
    assert latch.id in tr.LatchIDs() && latch.id in tr.Vars();
    assert Strip(latch.next) in tr.Before(|tr.gates|);
    BeforeKnown(tr, |tr.gates|, Strip(latch.next));
    SecondHolds(tr, m, u, latch.id);
    FirstHolds(tr, u, latch.next);
  }

  lemma NextIs(tr: TransitionRelation, v: Valuation, w: Valuation)
    requires tr.LatchesDistinct()
    ensures w * tr.LatchIDs() == tr.NextState(v)
       <==> forall latch | latch in tr.latches :: latch.id in w <==> Holds(v, latch.next)
  {
    if w * tr.LatchIDs() == tr.NextState(v) {
      forall latch | latch in tr.latches
        ensures latch.id in w <==> Holds(v, latch.next)
      {
        assert latch.id in tr.LatchIDs();
        assert latch.id in w <==> latch.id in tr.NextState(v);
        if latch.id in tr.NextState(v) {
          var other :| other in tr.latches && Holds(v, other.next) && other.id == latch.id;
          SameLatch(tr, latch, other);
        }
      }
    }
  }

  lemma SameLatch(tr: TransitionRelation, a: Latch, b: Latch)
    requires tr.LatchesDistinct() && a in tr.latches && b in tr.latches && a.id == b.id
    ensures a == b
  {
    var i :| 0 <= i < |tr.latches| && tr.latches[i] == a;
    var j :| 0 <= j < |tr.latches| && tr.latches[j] == b;
    assert i == j;
  }

  // ----- both frames -----

  /** The models of the clauses are the steps of the circuit. */
  lemma UnrolledMeans(tr: TransitionRelation, m: Copies, u: Valuation)
    requires tr.WellFormed() && CopiesOk(tr, m) && ID_FALSE !in u
    ensures Models(u, Unrolled(tr, m)) <==> tr.Step(First(tr, u), Second(m, u))
  {
    var cnf := GatesCnf(tr.gates);
    AllPlain(tr);
    FirstModels(tr, u, cnf);
    SecondModels(tr, m, u, cnf);
    FrameMeans(tr, First(tr, u));
    FrameMeans(tr, Second(m, u));
    NextMeans(tr, m, u);
    ModelsConcat(u, cnf, PrimedCnf(m, cnf));
    ModelsConcat(u, cnf + PrimedCnf(m, cnf), LatchesCnf(m, tr.latches));
  }

  /** Two frames as one valuation. */
  function Joined(m: Copies, v: Valuation, w: Valuation): Valuation {
    v + set x | x in m && x in w :: m[x]
  }

  lemma JoinedFrames(tr: TransitionRelation, m: Copies, v: Valuation, w: Valuation, more: Valuation)
    requires CopiesOk(tr, m) && v <= tr.Vars() && w <= tr.Vars()
    requires more !! tr.Vars() && more !! m.Values
    ensures First(tr, Joined(m, v, w) + more) == v && Second(m, Joined(m, v, w) + more) == w
  {
    var u := Joined(m, v, w) + more;
    forall x
      ensures x in First(tr, u) <==> x in v
    {
      if x in Joined(m, v, w) && x !in v {
        var y :| y in m && y in w && m[y] == x;
        assert CopyOk(tr, m[y]);
      }
    }
    forall x
      ensures x in Second(m, u) <==> x in w
    {
      if x in Second(m, u) {
        assert CopyOk(tr, m[x]) && m[x] in m.Values && m[x] !in v;
        var y :| y in m && y in w && m[y] == m[x];
        assert x == y;
      }
    }
  }
}
