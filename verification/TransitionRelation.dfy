/** And-inverter circuits and their executions (src/pme/engine/transition_relation.cpp).

    Gates are listed so that each reads inputs, latches and earlier gates. A
    frame is a valuation of one time step that agrees with every gate. */
module TransitionRelations {
  import opened Ids

  datatype AndGate = AndGate(lhs: ID, rhs0: ID, rhs1: ID)

  /** reset is ID_TRUE, ID_FALSE, or ID_NULL for an uninitialised latch. */
  datatype Latch = Latch(id: ID, next: ID, reset: ID)

  datatype TransitionRelation = TransitionRelation(inputs: set<ID>, latches: seq<Latch>, gates: seq<AndGate>, bad: ID)
  {
    function LatchIDs(): set<ID> {
      set latch | latch in latches :: latch.id
    }

    function GateIDs(): set<ID> {
      Outputs(gates)
    }

    function Leaves(): set<ID> {
      inputs + LatchIDs()
    }

    function Vars(): set<ID> {
      Leaves() + GateIDs()
    }

    /** What the first n gates may read. */
    function Before(n: nat): set<ID>
      requires n <= |gates|
    {
      Leaves() + {ID_FALSE} + Outputs(gates[..n])
    }

    predicate PlainVars() {
      forall id | id in Vars() :: MIN_ID <= id && !IsNegated(id)
    }

    /** Each gate writes a new variable and reads known ones. */
    predicate GatesInOrder() {
      forall i :: 0 <= i < |gates| ==> Reads(gates[i], Before(i))
    }

    predicate LatchesDistinct() {
      forall i, j :: 0 <= i < j < |latches| ==> latches[i].id != latches[j].id
    }

    predicate LatchesKnown() {
      forall latch | latch in latches :: Strip(latch.next) in Before(|gates|)
    }

    predicate WellFormed() {
      PlainVars() && inputs !! LatchIDs() && GatesInOrder() && LatchesDistinct() && LatchesKnown()
    }

    /** The valuation agrees with every gate. */
    predicate Frame(v: Valuation) {
      && v <= Vars()
      && forall gate | gate in gates :: Agrees(v, gate)
    }

    /** The values the latches take one step after v. */
    function NextState(v: Valuation): set<ID> {
      set latch | latch in latches && Holds(v, latch.next) :: latch.id
    }

    predicate Step(v: Valuation, w: Valuation) {
      Frame(v) && Frame(w) && w * LatchIDs() == NextState(v)
    }

    /** Every latch with a reset value has it; the others are free. */
    predicate Starts(v: Valuation) {
      forall latch | latch in latches :: StartsAt(latch, v)
    }

    /** The cubes that no initial state satisfies, one per initialised latch. */
    function ResetCubes(): seq<Cube> {
      ResetCubesOf(latches)
    }
  }

  predicate Reads(g: AndGate, known: set<ID>) {
    g.lhs !in known && Strip(g.rhs0) in known && Strip(g.rhs1) in known
  }

  function Outputs(gates: seq<AndGate>): set<ID> {
    set gate | gate in gates :: gate.lhs
  }

  function ResetCube(latch: Latch): seq<Cube> {
    if latch.reset == ID_TRUE then [[Negate(latch.id)]] else if latch.reset == ID_FALSE then [[latch.id]] else []
  }

  function ResetCubesOf(latches: seq<Latch>): seq<Cube> {
    if latches == [] then [] else ResetCube(latches[0]) + ResetCubesOf(latches[1..])
  }

  /** The literal is the opposite of the latch's reset value. */
  predicate ResetTo(latch: Latch, lit: ID) {
    (latch.reset == ID_TRUE && lit == Negate(latch.id)) || (latch.reset == ID_FALSE && lit == latch.id)
  }

  /** Reset cubes have one literal, of a latch with a reset value. */
  lemma {:induction false} ResetCubesShape(latches: seq<Latch>)
    ensures forall c | c in ResetCubesOf(latches) ::
      |c| == 1 && exists latch :: latch in latches && ResetTo(latch, c[0])
  {
    if latches != [] {
      var rest := latches[1..];
      ResetCubesShape(rest);
      forall c | c in ResetCubesOf(latches)
        ensures |c| == 1 && exists latch :: latch in latches && ResetTo(latch, c[0])
      {
        if c in ResetCubesOf(rest) {
          var latch :| latch in rest && ResetTo(latch, c[0]);
          assert latch in latches;
        } else {
          assert latches[0] in latches;
        }
      }
    }
  }

  predicate StartsAt(latch: Latch, v: Valuation) {
    (latch.reset == ID_TRUE ==> latch.id in v) && (latch.reset == ID_FALSE ==> latch.id !in v)
  }

  lemma ResetCubeExact(latch: Latch, v: Valuation)
    requires !IsNegated(latch.id)
    ensures (forall c | c in ResetCube(latch) :: !SatCube(v, c)) <==> StartsAt(latch, v)
  {
    OneCube(v, latch.id);
    OneCube(v, Negate(latch.id));
    if latch.reset == ID_TRUE {
      assert [Negate(latch.id)] in ResetCube(latch);
    } else if latch.reset == ID_FALSE {
      assert [latch.id] in ResetCube(latch);
    }
  }

  /** The reset cubes exclude exactly the states in which some latch does not have its
      reset value. */
  lemma {:induction false} ResetCubesExact(latches: seq<Latch>, v: Valuation)
    requires forall latch | latch in latches :: !IsNegated(latch.id)
    ensures (forall c | c in ResetCubesOf(latches) :: !SatCube(v, c)) <==> forall latch | latch in latches :: StartsAt(latch, v)
  {
    if latches != [] {
      var latch, rest := latches[0], latches[1..];
      ResetCubeExact(latch, v);
      ResetCubesExact(rest, v);
      assert forall other :: other in latches <==> other == latch || other in rest;
      assert forall c :: c in ResetCubesOf(latches) <==> c in ResetCube(latch) || c in ResetCubesOf(rest);
    }
  }

  lemma OneCube(v: Valuation, lit: ID)
    ensures SatCube(v, [lit]) <==> Holds(v, lit)
  {
    assert lit in [lit];
  }

  /** The initial states that the reset cubes leave are those of the circuit, as far
      as further cubes do not exclude them. */
  lemma InitExact(tr: TransitionRelation, init: set<Cube>, more: set<Cube>, v: Valuation)
    requires tr.WellFormed() && forall c :: c in init <==> c in tr.ResetCubes() || c in more
    ensures Init(tr, init, v) <==> tr.Frame(v) && tr.Starts(v) && forall c | c in more :: !SatCube(v, c)
  {
    forall latch | latch in tr.latches
      ensures !IsNegated(latch.id)
    {
      assert latch.id in tr.Vars();
    }
    ResetCubesExact(tr.latches, v);
    assert (forall c | c in init :: !SatCube(v, c)) <==>
      (forall c | c in ResetCubesOf(tr.latches) :: !SatCube(v, c)) && forall c | c in more :: !SatCube(v, c);
  }

  // ----- every assignment to inputs and latches has exactly one frame -----

  function Evaluate(leaf: set<ID>, gates: seq<AndGate>): Valuation {
    if gates == [] then leaf
    else
      var v := Evaluate(leaf, gates[..|gates|-1]);
      var g := gates[|gates|-1];
      if Holds(v, g.rhs0) && Holds(v, g.rhs1) then v + {g.lhs} else v
  }

  function Complete(tr: TransitionRelation, leaf: set<ID>): Valuation {
    Evaluate(leaf, tr.gates)
  }

  predicate Agrees(v: Valuation, g: AndGate) {
    g.lhs in v <==> Holds(v, g.rhs0) && Holds(v, g.rhs1)
  }

  /** v evaluates the first n gates on leaf. */
  ghost predicate Evaluated(tr: TransitionRelation, leaf: set<ID>, v: Valuation, n: nat)
    requires n <= |tr.gates|
  {
    && v <= tr.Before(n) - {ID_FALSE} && v * tr.Leaves() == leaf
    && forall i :: 0 <= i < n ==> Agrees(v, tr.gates[i])
  }

  lemma {:induction false} EvaluatePrefix(tr: TransitionRelation, leaf: set<ID>, n: nat)
    requires tr.WellFormed() && leaf <= tr.Leaves() && n <= |tr.gates|
    ensures Evaluated(tr, leaf, Evaluate(leaf, tr.gates[..n]), n)
  {
    if n == 0 {
      assert leaf * tr.Leaves() == leaf;
      assert ID_FALSE !in tr.Vars();
    } else {
      EvaluatePrefix(tr, leaf, n - 1);
      var u, g := Evaluate(leaf, tr.gates[..n - 1]), tr.gates[n - 1];
      assert tr.gates[..n][..n - 1] == tr.gates[..n - 1];
      EvaluateStep(tr, leaf, u, n - 1);
    }
  }

  lemma EvaluateStep(tr: TransitionRelation, leaf: set<ID>, u: Valuation, n: nat)
    requires tr.WellFormed() && n < |tr.gates| && Evaluated(tr, leaf, u, n)
    ensures var g := tr.gates[n];
      Evaluated(tr, leaf, if Holds(u, g.rhs0) && Holds(u, g.rhs1) then u + {g.lhs} else u, n + 1)
  {
    var g := tr.gates[n];
    var v := if Holds(u, g.rhs0) && Holds(u, g.rhs1) then u + {g.lhs} else u;
    var before := tr.Before(n);
    assert g.lhs !in before && Strip(g.rhs0) in before && Strip(g.rhs1) in before;
    StepBounds(tr, leaf, u, v, n);
    forall i | 0 <= i < n + 1
      ensures Agrees(v, tr.gates[i])
    {
      if i < n {
        EarlierGate(tr, i, n);
        AgreesStill(u, v, tr.gates[i], g.lhs);
      } else {
        AgreesNow(u, v, g);
      }
    }
  }

  lemma StepBounds(tr: TransitionRelation, leaf: set<ID>, u: Valuation, v: Valuation, n: nat)
    requires n < |tr.gates| && tr.gates[n].lhs !in tr.Before(n) && (v == u || v == u + {tr.gates[n].lhs})
    requires u <= tr.Before(n) - {ID_FALSE} && u * tr.Leaves() == leaf
    ensures v <= tr.Before(n + 1) - {ID_FALSE} && v * tr.Leaves() == leaf
  {
    BeforeStep(tr, n);
    assert v * tr.Leaves() == u * tr.Leaves();
  }

  lemma AgreesStill(u: Valuation, v: Valuation, g: AndGate, lhs: ID)
    requires Agrees(u, g) && (v == u || v == u + {lhs})
    requires lhs != g.lhs && lhs != Strip(g.rhs0) && lhs != Strip(g.rhs1)
    ensures Agrees(v, g)
  {
  }

  lemma AgreesNow(u: Valuation, v: Valuation, g: AndGate)
    requires v == if Holds(u, g.rhs0) && Holds(u, g.rhs1) then u + {g.lhs} else u
    requires g.lhs !in u && g.lhs != Strip(g.rhs0) && g.lhs != Strip(g.rhs1)
    ensures Agrees(v, g)
  {
  }

  /** What an earlier gate mentions is not the output of a later one. */
  lemma EarlierGate(tr: TransitionRelation, i: nat, n: nat)
    requires tr.WellFormed() && i < n < |tr.gates|
    ensures var g := tr.gates[i];
      var lhs := tr.gates[n].lhs;
      lhs != g.lhs && lhs != Strip(g.rhs0) && lhs != Strip(g.rhs1)
  {
    BeforeGrows(tr, i, n);
    assert tr.gates[i] in tr.gates[..n];
    assert tr.gates[i].lhs in tr.Before(n);
  }

  lemma OutputsStep(gates: seq<AndGate>, n: nat)
    requires n < |gates|
    ensures Outputs(gates[..n + 1]) == Outputs(gates[..n]) + {gates[n].lhs}
  {
    assert gates[..n + 1] == gates[..n] + [gates[n]];
  }

  lemma BeforeStep(tr: TransitionRelation, n: nat)
    requires n < |tr.gates| && tr.gates[n].lhs !in tr.Before(n)
    ensures tr.Before(n + 1) == tr.Before(n) + {tr.gates[n].lhs}
    ensures tr.gates[n].lhs != ID_FALSE
  {
    OutputsStep(tr.gates, n);
  }

  lemma BeforeGrows(tr: TransitionRelation, i: nat, n: nat)
    requires i <= n <= |tr.gates|
    ensures tr.Before(i) <= tr.Before(n)
  {
    assert tr.gates[..i] <= tr.gates[..n];
    assert forall gate :: gate in tr.gates[..i] ==> gate in tr.gates[..n];
  }

  lemma CompleteIsFrame(tr: TransitionRelation, leaf: set<ID>)
    requires tr.WellFormed() && leaf <= tr.Leaves()
    ensures tr.Frame(Complete(tr, leaf))
    ensures Complete(tr, leaf) * tr.Leaves() == leaf
  {
    EvaluatePrefix(tr, leaf, |tr.gates|);
    assert tr.gates[..|tr.gates|] == tr.gates;
  }

  /** Two frames with the same inputs and latches are the same. */
  lemma FrameUnique(tr: TransitionRelation, v: Valuation, w: Valuation)
    requires tr.WellFormed() && tr.Frame(v) && tr.Frame(w)
    requires v * tr.Leaves() == w * tr.Leaves()
    ensures v == w
  {
    FrameUniquePrefix(tr, v, w, |tr.gates|);
    assert tr.gates[..|tr.gates|] == tr.gates;
    forall x | x in tr.Vars()
      ensures x in v <==> x in w
    {
      assert x in tr.Before(|tr.gates|);
    }
  }

  ghost predicate Same(v: Valuation, w: Valuation, vars: set<ID>) {
    forall x | x in vars :: x in v <==> x in w
  }

  lemma {:induction false} FrameUniquePrefix(tr: TransitionRelation, v: Valuation, w: Valuation, n: nat)
    requires tr.WellFormed() && tr.Frame(v) && tr.Frame(w) && n <= |tr.gates|
    requires v * tr.Leaves() == w * tr.Leaves()
    ensures Same(v, w, tr.Before(n))
  {
    if n == 0 {
      SameBeforeGates(tr, v, w);
    } else {
      FrameUniquePrefix(tr, v, w, n - 1);
      SameGate(tr, v, w, n - 1);
    }
  }

  lemma SameBeforeGates(tr: TransitionRelation, v: Valuation, w: Valuation)
    requires tr.WellFormed() && v <= tr.Vars() && w <= tr.Vars()
    requires v * tr.Leaves() == w * tr.Leaves()
    ensures Same(v, w, tr.Before(0))
  {
    forall x | x in tr.Before(0)
      ensures x in v <==> x in w
    {
      assert x in tr.Leaves() ==> (x in v <==> x in v * tr.Leaves()) && (x in w <==> x in w * tr.Leaves());
      assert ID_FALSE !in v && ID_FALSE !in w;
    }
  }

  lemma SameGate(tr: TransitionRelation, v: Valuation, w: Valuation, n: nat)
    requires tr.WellFormed() && n < |tr.gates| && Same(v, w, tr.Before(n))
    requires Agrees(v, tr.gates[n]) && Agrees(w, tr.gates[n])
    ensures Same(v, w, tr.Before(n + 1))
  {
    BeforeStep(tr, n);
    SameStep(v, w, tr.Before(n), tr.gates[n]);
  }

  lemma SameStep(v: Valuation, w: Valuation, vars: set<ID>, g: AndGate)
    requires Same(v, w, vars) && Strip(g.rhs0) in vars && Strip(g.rhs1) in vars
    requires Agrees(v, g) && Agrees(w, g)
    ensures Same(v, w, vars + {g.lhs})
  {
    assert Holds(v, g.rhs0) == Holds(w, g.rhs0) && Holds(v, g.rhs1) == Holds(w, g.rhs1);
  }

  /** The frame with the latches of v and the given inputs. */
  function WithInputs(tr: TransitionRelation, v: Valuation, inputs: set<ID>): Valuation {
    Complete(tr, v * tr.LatchIDs() + inputs)
  }

  lemma WithInputsIsFrame(tr: TransitionRelation, v: Valuation, inputs: set<ID>)
    requires tr.WellFormed() && inputs <= tr.inputs
    ensures var w := WithInputs(tr, v, inputs);
      tr.Frame(w) && w * tr.LatchIDs() == v * tr.LatchIDs() && w * tr.inputs == inputs
  {
    var leaf := v * tr.LatchIDs() + inputs;
    CompleteIsFrame(tr, leaf);
    var w := WithInputs(tr, v, inputs);
    forall x | x in tr.Leaves()
      ensures x in w <==> x in leaf
    {
      assert x in w <==> x in w * tr.Leaves();
    }
  }

  /** A successor may have any inputs. */
  lemma StepAnyInputs(tr: TransitionRelation, v: Valuation, inputs: set<ID>) returns (w: Valuation)
    requires tr.WellFormed() && tr.Frame(v) && inputs <= tr.inputs
    ensures tr.Step(v, w) && w * tr.inputs == inputs
  {
    var next := tr.NextState(v);
    WithInputsIsFrame(tr, next, inputs);
    w := WithInputs(tr, next, inputs);
    assert next * tr.LatchIDs() == next;
  }

  // ----- reachability -----

  ghost predicate Init(tr: TransitionRelation, initCubes: set<Cube>, v: Valuation) {
    tr.Frame(v) && forall c | c in initCubes :: !SatCube(v, c)
  }

  /** v is reached after exactly n steps. */
  ghost predicate ReachedIn(tr: TransitionRelation, initCubes: set<Cube>, v: Valuation, n: nat)
    decreases n
  {
    if n == 0 then Init(tr, initCubes, v)
    else exists u: Valuation :: ReachedIn(tr, initCubes, u, n - 1) && tr.Step(u, v)
  }

  predicate OverLatches(tr: TransitionRelation, cube: Cube) {
    forall lit | lit in cube :: Strip(lit) in tr.LatchIDs()
  }

  /** Only the latches decide a cube over latches. */
  lemma LatchesDecide(tr: TransitionRelation, v: Valuation, w: Valuation, cube: Cube)
    requires OverLatches(tr, cube) && v * tr.LatchIDs() == w * tr.LatchIDs()
    ensures SatCube(v, cube) == SatCube(w, cube)
  {
    forall lit | lit in cube
      ensures Holds(v, lit) == Holds(w, lit)
    {
      assert Strip(lit) in v <==> Strip(lit) in v * tr.LatchIDs();
      assert Strip(lit) in w <==> Strip(lit) in w * tr.LatchIDs();
    }
  }
}
