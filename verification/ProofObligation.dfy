/** Proof obligations: their order, the executions they stand for, and why
    working them off ends (src/pme/ic3/ic3_solver.cpp:31-88, 257-334). */
module ProofObligations {
  import opened Collections
  import opened Ids
  import opened Cubes
  import opened TransitionRelations
  import opened InductiveTraces
  import opened TraceInvariants
  import opened FrameSolvers
  import opened UnsatCoreLifters
  import opened Generalizations

  /** The parent is a position in the pool, which lists obligations in order of
      creation. */
  datatype ProofObligation = ProofObligation(level: nat, cti: Cube, concreteState: Cube, inputs: set<ID>, mayDegree: nat,
                                             parent: Option<nat>)

  type Pool = seq<ProofObligation>

  datatype CexStep = CexStep(inputs: set<ID>, state: Cube)

  // ----- the order of the queue -----

  predicate CubeLess(a: Cube, b: Cube) {
    if b == [] then false
    else if a == [] then true
    else a[0] < b[0] || (a[0] == b[0] && CubeLess(a[1..], b[1..]))
  }

  /** a is taken from the queue before b. */
  predicate Before(a: ProofObligation, b: ProofObligation) {
    if a.level != b.level then a.level < b.level
    else if |a.cti| != |b.cti| then |a.cti| < |b.cti|
    else if a.mayDegree != b.mayDegree then a.mayDegree < b.mayDegree
    else CubeLess(a.cti, b.cti)
  }

  lemma {:induction false} CubeLessTransitive(a: Cube, b: Cube, c: Cube)
    requires CubeLess(a, b) && CubeLess(b, c)
    ensures CubeLess(a, c)
  {
    if a != [] && a[0] == b[0] == c[0] {
      CubeLessTransitive(a[1..], b[1..], c[1..]);
    }
  }

  lemma BeforeTransitive(a: ProofObligation, b: ProofObligation, c: ProofObligation)
    requires Before(a, b) && Before(b, c)
    ensures Before(a, c)
  {
    if a.level == c.level && |a.cti| == |c.cti| && a.mayDegree == c.mayDegree {
      CubeLessTransitive(a.cti, b.cti, c.cti);
    }
  }

  lemma {:induction false} CubeLessIrreflexive(a: Cube)
    ensures !CubeLess(a, a)
  {
    if a != [] {
      CubeLessIrreflexive(a[1..]);
    }
  }

  /** The first difference of the lists is at k, and a is smaller there. */
  predicate SmallerAt(a: seq<nat>, b: seq<nat>, k: nat) {
    k < |a| && k < |b| && a[..k] == b[..k] && a[k] < b[k]
  }

  /** The order of cubes is that of their lists of literals. */
  lemma {:induction false} CubeLessExactly(a: Cube, b: Cube)
    ensures CubeLess(a, b) <==> a < b || exists k: nat :: SmallerAt(a, b, k)
  {
    if a != [] && b != [] {
      if a[0] == b[0] {
        var a', b' := a[1..], b[1..];
        CubeLessExactly(a', b');
        assert a == [a[0]] + a' && b == [b[0]] + b';
        if k: nat :| SmallerAt(a', b', k) {
          assert a[..k + 1] == [a[0]] + a'[..k] && b[..k + 1] == [b[0]] + b'[..k];
          assert SmallerAt(a, b, k + 1);
        }
        if k: nat :| SmallerAt(a, b, k) {
          assert a'[..k - 1] == a[..k][1..] && b'[..k - 1] == b[..k][1..];
          assert SmallerAt(a', b', k - 1);
        }
      } else {
        assert SmallerAt(a, b, 0) <==> a[0] < b[0];
        if k: nat :| SmallerAt(a, b, k) {
          assert k > 0 ==> a[..k][0] == b[..k][0];
        }
      }
    }
  }

  /** What the order of the queue compares, most important first. */
  function QueueKey(o: ProofObligation): seq<nat> {
    [o.level, |o.cti|, o.mayDegree] + o.cti
  }

  lemma SameKeys(a: ProofObligation, b: ProofObligation)
    requires a.level == b.level && |a.cti| == |b.cti| && a.mayDegree == b.mayDegree
    ensures CubeLess(a.cti, b.cti) <==> exists k: nat :: SmallerAt(QueueKey(a), QueueKey(b), k)
  {
    var x, y := QueueKey(a), QueueKey(b);
    CubeLessExactly(a.cti, b.cti);
    if k: nat :| SmallerAt(a.cti, b.cti, k) {
      assert x[..k + 3] == x[..3] + a.cti[..k] && y[..k + 3] == y[..3] + b.cti[..k];
      assert SmallerAt(x, y, k + 3);
    }
    if k: nat :| SmallerAt(x, y, k) {
      assert a.cti[..k - 3] == x[..k][3..] && b.cti[..k - 3] == y[..k][3..];
      assert SmallerAt(a.cti, b.cti, k - 3);
    }
  }

  lemma FirstDifference(x: seq<nat>, y: seq<nat>, d: nat)
    requires d < |x| && d < |y| && x[d] != y[d] && forall i | 0 <= i < d :: x[i] == y[i]
    ensures x[d] < y[d] <==> exists k: nat :: SmallerAt(x, y, k)
  {
    assert x[..d] == y[..d];
    if x[d] < y[d] {
      assert SmallerAt(x, y, d);
    }
    if k: nat :| SmallerAt(x, y, k) {
      assert k > d ==> x[..k][d] == y[..k][d];
    }
  }

  /** Obligations come out by level, then by size, then by degree, then by their
      literals. */
  lemma BeforeExactly(a: ProofObligation, b: ProofObligation)
    ensures Before(a, b) <==> exists k: nat :: SmallerAt(QueueKey(a), QueueKey(b), k)
  {
    if a.level == b.level && |a.cti| == |b.cti| && a.mayDegree == b.mayDegree {
      SameKeys(a, b);
    } else {
      FirstDifference(QueueKey(a), QueueKey(b), if a.level != b.level then 0 else if |a.cti| != |b.cti| then 1 else 2);
    }
  }

  // ----- executions -----

  /** The states of o with its inputs step into the cube succ. */
  ghost predicate StepsInto(tr: TransitionRelation, inf: set<Cube>, o: ProofObligation, succ: Cube) {
    exists v, w :: o.inputs == LiteralsOf(tr.inputs, v) && Leads(tr, inf, o.cti, o.inputs, LiteralsOf(tr.inputs, w), succ)
  }

  /** The first obligation is the target; every other one steps into its parent. */
  ghost predicate Linked(tr: TransitionRelation, inf: set<Cube>, pool: Pool, i: nat)
    requires i < |pool|
  {
    match pool[i].parent
    case None => i == 0
    case Some(p) => p < i && OverLatches(tr, pool[i].cti) && StepsInto(tr, inf, pool[i], pool[p].cti)
  }

  ghost predicate AllLinked(tr: TransitionRelation, inf: set<Cube>, pool: Pool) {
    forall i | 0 <= i < |pool| :: Linked(tr, inf, pool, i)
  }

  /** The steps from an obligation to the target. */
  function Chain(pool: Pool, i: nat): (cex: seq<CexStep>)
    requires i < |pool|
    ensures cex != [] && cex[0] == CexStep(pool[i].inputs, pool[i].concreteState)
  {
    [CexStep(pool[i].inputs, pool[i].concreteState)] +
    if pool[i].parent.Some? && pool[i].parent.value < i then Chain(pool, pool[i].parent.value) else []
  }

  lemma {:induction false} Associates(a: seq<CexStep>, b: seq<CexStep>, c: seq<CexStep>)
    ensures a + (b + c) == (a + b) + c
  {
  }

  lemma {:induction false} ChainNext(pool: Pool, i: nat, before: seq<CexStep>)
    requires i < |pool| && pool[i].parent.Some? && pool[i].parent.value < i
    ensures var step := [CexStep(pool[i].inputs, pool[i].concreteState)];
      before + Chain(pool, i) == (before + step) + Chain(pool, pool[i].parent.value)
  {
    var step := [CexStep(pool[i].inputs, pool[i].concreteState)];
    Associates(before, step, Chain(pool, pool[i].parent.value));
  }

  ghost predicate InitOverLatches(tr: TransitionRelation, init: set<Cube>) {
    forall c | c in init :: OverLatches(tr, c)
  }

  /** The inputs of the last state of an execution are free. */
  lemma ReachedAnyInputs(tr: TransitionRelation, init: set<Cube>, v: Valuation, n: nat, inputs: set<ID>)
    requires tr.WellFormed() && InitOverLatches(tr, init) && ReachedIn(tr, init, v, n) && inputs <= tr.inputs
    ensures ReachedIn(tr, init, WithInputs(tr, v, inputs), n)
  {
    var x := WithInputs(tr, v, inputs);
    WithInputsIsFrame(tr, v, inputs);
    if n == 0 {
      forall c | c in init
        ensures !SatCube(x, c)
      {
        LatchesDecide(tr, v, x, c);
      }
    } else {
      var u: Valuation :| ReachedIn(tr, init, u, n - 1) && tr.Step(u, v);
      assert tr.Step(u, x);
    }
  }

  lemma SatLiterals(vars: set<ID>, v: Valuation, x: Valuation)
    requires x * vars == v * vars && forall y | y in vars :: !IsNegated(y)
    ensures SatAll(x, LiteralsOf(vars, v))
  {
    forall y | y in vars
      ensures y in x <==> y in v
    {
      assert y in x <==> y in x * vars;
      assert y in v <==> y in v * vars;
    }
  }

  lemma InputsPlain(tr: TransitionRelation)
    requires tr.WellFormed()
    ensures forall y | y in tr.inputs :: !IsNegated(y)
  {
    assert tr.inputs <= tr.Vars();
  }

  /** One step by the inputs of an obligation and these of the next time frame. */
  lemma ReachedBy(tr: TransitionRelation, init: set<Cube>, inf: set<Cube>, o: ProofObligation, a: Valuation, b: Valuation,
                  succ: Cube, v: Valuation, n: nat) returns (x: Valuation, w: Valuation)
    requires tr.WellFormed() && InitOverLatches(tr, init)
    requires forall x, j: nat | ReachedIn(tr, init, x, j) :: Avoids(x, inf)
    requires OverLatches(tr, o.cti) && o.inputs == LiteralsOf(tr.inputs, a)
    requires Leads(tr, inf, o.cti, o.inputs, LiteralsOf(tr.inputs, b), succ)
    requires ReachedIn(tr, init, v, n) && SatCube(v, o.cti)
    ensures ReachedIn(tr, init, x, n) && SameState(tr, v, x) && SatCube(x, o.cti) && SatAll(x, o.inputs)
    ensures tr.Step(x, w) && ReachedIn(tr, init, w, n + 1) && SatCube(w, succ) && SatAll(w, LiteralsOf(tr.inputs, b))
  {
    var inp := a * tr.inputs;
    WithInputsIsFrame(tr, v, inp);
    ReachedAnyInputs(tr, init, v, n, inp);
    x := WithInputs(tr, v, inp);
    w := StepAnyInputs(tr, x, b * tr.inputs);
    InputsPlain(tr);
    LatchesDecide(tr, v, x, o.cti);
    SatLiterals(tr.inputs, a, x);
    SatLiterals(tr.inputs, b, w);
  }

  /** One step along the chain: the state, with the obligation's inputs, steps into
      the parent. */
  lemma ParentReached(tr: TransitionRelation, init: set<Cube>, inf: set<Cube>, o: ProofObligation, succ: Cube, v: Valuation, n: nat)
    returns (x: Valuation, w: Valuation)
    requires tr.WellFormed() && InitOverLatches(tr, init)
    requires forall x, j: nat | ReachedIn(tr, init, x, j) :: Avoids(x, inf)
    requires OverLatches(tr, o.cti) && StepsInto(tr, inf, o, succ)
    requires ReachedIn(tr, init, v, n) && SatCube(v, o.cti)
    ensures ReachedIn(tr, init, x, n) && SameState(tr, v, x) && SatCube(x, o.cti) && SatAll(x, o.inputs)
    ensures tr.Step(x, w) && ReachedIn(tr, init, w, n + 1) && SatCube(w, succ)
  {
    var a, b :| o.inputs == LiteralsOf(tr.inputs, a) && Leads(tr, inf, o.cti, o.inputs, LiteralsOf(tr.inputs, b), succ);
    x, w := ReachedBy(tr, init, inf, o, a, b, succ, v, n);
  }

  // ----- replaying a counterexample -----

  predicate SameState(tr: TransitionRelation, v: Valuation, w: Valuation) {
    v * tr.LatchIDs() == w * tr.LatchIDs()
  }

  /** From v the inputs of one step after another lead into the cube; those of the
      last step do not matter. */
  ghost predicate Driven(tr: TransitionRelation, v: Valuation, cex: seq<CexStep>, c: Cube)
    decreases |cex|
  {
    if |cex| <= 1 then SatCube(v, c)
    else SatAll(v, cex[0].inputs) && exists w :: tr.Step(v, w) && Driven(tr, w, cex[1..], c)
  }

  /** The first state of the counterexample is initial, and its inputs lead into the
      cube. */
  ghost predicate Replays(tr: TransitionRelation, init: set<Cube>, c: Cube, cex: seq<CexStep>) {
    cex != [] && exists v :: Init(tr, init, v) && StateOf(tr, v) == cex[0].state && Driven(tr, v, cex, c)
  }

  /** State and inputs of the step determine that the cube is met. */
  ghost predicate Forced(tr: TransitionRelation, step: CexStep, c: Cube) {
    forall v | tr.Frame(v) && SatCube(v, step.state) && SatAll(v, step.inputs) :: SatCube(v, c)
  }

  lemma StateForces(tr: TransitionRelation, v: Valuation, step: CexStep, c: Cube)
    requires tr.WellFormed() && tr.Frame(v) && SatCube(v, c)
    requires step.state == StateOf(tr, v) && step.inputs == LiteralsOf(tr.inputs, v)
    ensures Forced(tr, step, c)
  {
    forall x | tr.Frame(x) && SatCube(x, step.state) && SatAll(x, step.inputs)
      ensures SatCube(x, c)
    {
      StateLiterals(tr, v);
      assert SatAll(x, Lits(step.state));
      LatchesPlain(tr);
      InputsPlain(tr);
      SameLiterals(tr.LatchIDs(), v, x);
      SameLiterals(tr.inputs, v, x);
      SameLeaves(tr, v, x);
      FrameUnique(tr, v, x);
    }
  }

  lemma {:induction false} DrivenReaches(tr: TransitionRelation, init: set<Cube>, v: Valuation, n: nat, cex: seq<CexStep>, c: Cube)
    requires ReachedIn(tr, init, v, n) && cex != [] && Driven(tr, v, cex, c)
    ensures CubeReached(tr, init, c, n + |cex| - 1)
    decreases |cex|
  {
    if |cex| > 1 {
      var w :| tr.Step(v, w) && Driven(tr, w, cex[1..], c);
      DrivenReaches(tr, init, w, n + 1, cex[1..], c);
    }
  }

  /** A counterexample that replays stands for an execution of its length. */
  lemma ReplayReaches(tr: TransitionRelation, init: set<Cube>, c: Cube, cex: seq<CexStep>)
    requires Replays(tr, init, c, cex)
    ensures CubeReached(tr, init, c, |cex| - 1)
  {
    var v :| Init(tr, init, v) && StateOf(tr, v) == cex[0].state && Driven(tr, v, cex, c);
    assert ReachedIn(tr, init, v, 0);
    DrivenReaches(tr, init, v, 0, cex, c);
  }

  lemma SameStateOf(tr: TransitionRelation, v: Valuation, w: Valuation)
    requires SameState(tr, v, w)
    ensures StateOf(tr, v) == StateOf(tr, w)
  {
    forall i | 0 <= i < |tr.latches|
      ensures tr.latches[i].id in v <==> tr.latches[i].id in w
    {
      assert tr.latches[i].id in tr.LatchIDs();
      assert tr.latches[i].id in v <==> tr.latches[i].id in v * tr.LatchIDs();
      assert tr.latches[i].id in w <==> tr.latches[i].id in w * tr.LatchIDs();
    }
  }

  /** Obligations found later, and inputs filled in, leave the links alone. */
  lemma LinkedGrows(tr: TransitionRelation, inf: set<Cube>, pool: Pool, o: ProofObligation)
    requires AllLinked(tr, inf, pool) && pool != []
    requires o.parent.Some? && o.parent.value < |pool| && OverLatches(tr, o.cti)
    requires StepsInto(tr, inf, o, pool[o.parent.value].cti)
    ensures AllLinked(tr, inf, pool + [o])
  {
    forall i | 0 <= i < |pool| + 1
      ensures Linked(tr, inf, pool + [o], i)
    {
      if i < |pool| {
        assert Linked(tr, inf, pool, i);
      }
    }
  }

  /** A change of level, or of the target's inputs, keeps the links. */
  lemma LinkedUpdate(tr: TransitionRelation, inf: set<Cube>, pool: Pool, i: nat, o: ProofObligation)
    requires AllLinked(tr, inf, pool) && i < |pool|
    requires o.cti == pool[i].cti && o.parent == pool[i].parent && (o.inputs == pool[i].inputs || o.parent.None?)
    ensures AllLinked(tr, inf, pool[i := o])
  {
    var after := pool[i := o];
    forall j | 0 <= j < |after|
      ensures Linked(tr, inf, after, j)
    {
      assert Linked(tr, inf, pool, j);
      if j == i && o.parent.Some? {
        var p := o.parent.value;
        var v, w :| pool[i].inputs == LiteralsOf(tr.inputs, v)
                 && Leads(tr, inf, pool[i].cti, pool[i].inputs, LiteralsOf(tr.inputs, w), pool[p].cti);
        assert StepsInto(tr, inf, o, pool[p].cti);
      }
    }
  }

  // ----- what each obligation knows -----

  /** Levels stay within the bound; level 0 means an initial state; and a level says
      how long its cube is known unreachable. */
  ghost predicate Justified(tr: TransitionRelation, init: set<Cube>, lits: set<ID>, top: nat, o: ProofObligation) {
    && o.cti != [] && Ascending(o.cti) && Lits(o.cti) <= lits && o.level <= top
    && (o.level == 0 ==> exists v :: Init(tr, init, v) && SatCube(v, o.cti) && StateOf(tr, v) == o.concreteState)
    && (o.level > 0 ==> Out(tr, init, o.cti, Fin(o.level - 1)))
  }

  ghost predicate AllJustified(tr: TransitionRelation, init: set<Cube>, lits: set<ID>, top: nat, pool: Pool) {
    forall i | 0 <= i < |pool| :: Justified(tr, init, lits, top, pool[i])
  }

  lemma NotOut(tr: TransitionRelation, init: set<Cube>, c: Cube, k: nat, w: Valuation, n: nat)
    requires ReachedIn(tr, init, w, n) && n <= k && SatCube(w, c)
    ensures !Out(tr, init, c, Fin(k))
  {
    assert Le(Fin(n), Fin(k));
  }

  /** If the cube is out of reach for k steps, so is a cube all of whose
      states step into it, for k - 1 steps. */
  lemma PredecessorOut(tr: TransitionRelation, init: set<Cube>, inf: set<Cube>, o: ProofObligation, succ: Cube, k: nat)
    requires tr.WellFormed() && InitOverLatches(tr, init)
    requires forall x, j: nat | ReachedIn(tr, init, x, j) :: Avoids(x, inf)
    requires OverLatches(tr, o.cti) && StepsInto(tr, inf, o, succ)
    requires k > 0 && Out(tr, init, succ, Fin(k))
    ensures Out(tr, init, o.cti, Fin(k - 1))
  {
    forall v, n: nat | ReachedIn(tr, init, v, n) && n <= k - 1
      ensures !SatCube(v, o.cti)
    {
      if SatCube(v, o.cti) {
        var next: nat := n + 1;
        var x, w := ParentReached(tr, init, inf, o, succ, v, n);
        NotOut(tr, init, succ, k, w, next);
      }
    }
  }

  // ----- termination -----

  /** Some lemma at or above the level subsumes the cube. */
  ghost predicate Subsumed(m: Trace, c: Cube, level: nat) {
    exists d :: d in m && Le(Fin(level), m[d]) && SubCube(d, c)
  }

  /** The cubes not yet blocked at their levels. */
  ghost function Open(m: Trace, cubes: set<Cube>, top: nat): set<(Cube, nat)> {
    set c, level | c in cubes && 1 <= level <= top && !Subsumed(m, c, level) :: (c, level)
  }

  lemma RaiseSubsumes(m: Trace, t: Cube, level: nat, c: Cube, at: nat)
    requires t in m ==> Le(m[t], Fin(level))
    requires Subsumed(m, c, at)
    ensures Subsumed(m[t := Fin(level)], c, at)
  {
    var d :| d in m && Le(Fin(at), m[d]) && SubCube(d, c);
    assert d in m[t := Fin(level)] && Le(Fin(at), m[t := Fin(level)][d]);
  }

  /** Blocking a cube that was open leaves strictly fewer open. */
  lemma OpenShrinks(m: Trace, cubes: set<Cube>, top: nat, s: Cube, t: Cube, level: nat)
    requires s in cubes && 1 <= level <= top && !Subsumed(m, s, level) && SubCube(t, s)
    requires t in m ==> Le(m[t], Fin(level))
    ensures |Open(m[t := Fin(level)], cubes, top)| < |Open(m, cubes, top)|
  {
    var m' := m[t := Fin(level)];
    assert Subsumed(m', s, level) by {
      assert t in m' && Le(Fin(level), m'[t]) && SubCube(t, s);
    }
    forall x | x in Open(m', cubes, top)
      ensures x in Open(m, cubes, top) && x != (s, level)
    {
      if Subsumed(m, x.0, x.1) {
        RaiseSubsumes(m, t, level, x.0, x.1);
      }
    }
    assert (s, level) in Open(m, cubes, top);
    StrictlySmaller(Open(m', cubes, top), Open(m, cubes, top), (s, level));
  }

  /** A cube with a state in the frame is not subsumed by the frame. */
  lemma StateNotSubsumed(m: Trace, c: Cube, level: nat, v: Valuation)
    requires Avoids(v, FrameCubes(m, Fin(level))) && SatCube(v, c)
    ensures !Subsumed(m, c, level)
  {
    if Subsumed(m, c, level) {
      var d :| d in m && Le(Fin(level), m[d]) && SubCube(d, c);
      SubCubeWeaker(v, d, c);
    }
  }

  // ----- the loop of recursiveBlock -----

  /** The newest obligation is queued below all others and is still open. */
  ghost predicate FreshOk(m: Trace, pool: Pool, q: set<nat>)
    requires pool != [] && forall j | j in q :: j < |pool|
  {
    var last := |pool| - 1;
    && last in q
    && (forall j | j in q && j != last :: pool[j].level > pool[last].level)
    && (pool[last].level > 0 ==> !Subsumed(m, pool[last].cti, pool[last].level))
  }

  ghost predicate QueueOk(m: Trace, target: Cube, top: nat, pool: Pool, q: set<nat>, newest: bool) {
    && pool != [] && pool[0].cti == target && pool[0].level == top && pool[0].parent.None?
    && (forall j | j in q :: j < |pool|)
    && (0 in q || Subsumed(m, target, top))
    && (newest ==> FreshOk(m, pool, q))
  }

  /** An obligation found blocked by a known lemma is dropped. */
  lemma AfterSubsumed(m: Trace, target: Cube, top: nat, pool: Pool, q: set<nat>, newest: bool, i: nat)
    requires QueueOk(m, target, top, pool, q, newest) && i in q && pool[i].level > 0
    requires forall j | j in q :: pool[i].level <= pool[j].level
    requires Subsumed(m, pool[i].cti, pool[i].level)
    ensures !newest && QueueOk(m, target, top, pool, q - {i}, false)
  {
  }

  /** A blocked obligation comes back one level up, unless it is at the top. */
  function Promote(pool: Pool, i: nat, top: nat): Pool
    requires i < |pool|
  {
    if pool[i].level < top then pool[i := pool[i].(level := pool[i].level + 1)] else pool
  }

  function Requeue(pool: Pool, q: set<nat>, i: nat, top: nat): set<nat>
    requires i < |pool|
  {
    if pool[i].level < top then q else q - {i}
  }

  lemma AfterBlocked(m: Trace, target: Cube, top: nat, pool: Pool, q: set<nat>, newest: bool, i: nat, t: Cube)
    requires QueueOk(m, target, top, pool, q, newest) && i in q && 0 < pool[i].level <= top
    requires SubCube(t, pool[i].cti) && (t in m ==> Le(m[t], Fin(pool[i].level)))
    ensures QueueOk(m[t := Fin(pool[i].level)], target, top, Promote(pool, i, top), Requeue(pool, q, i, top), false)
  {
    var m' := m[t := Fin(pool[i].level)];
    if 0 !in q {
      RaiseSubsumes(m, t, pool[i].level, target, top);
    } else if i == 0 {
      assert t in m' && Le(Fin(top), m'[t]) && SubCube(t, target);
    }
  }

  lemma BlockedJustified(tr: TransitionRelation, init: set<Cube>, lits: set<ID>, top: nat, pool: Pool, i: nat, t: Cube)
    requires AllJustified(tr, init, lits, top, pool) && i < |pool| && pool[i].level > 0
    requires SubCube(t, pool[i].cti) && Out(tr, init, t, Fin(pool[i].level))
    ensures AllJustified(tr, init, lits, top, Promote(pool, i, top))
  {
    OutOfSubCube(tr, init, t, pool[i].cti, Fin(pool[i].level));
  }

  lemma OutOfSubCube(tr: TransitionRelation, init: set<Cube>, t: Cube, s: Cube, level: Level)
    requires SubCube(t, s) && Out(tr, init, t, level)
    ensures Out(tr, init, s, level)
  {
    forall v, n: nat | ReachedIn(tr, init, v, n) && Le(Fin(n), level)
      ensures !SatCube(v, s)
    {
      if SatCube(v, s) {
        SubCubeWeaker(v, t, s);
      }
    }
  }

  /** A predecessor was found: it is queued below, and the obligation stays. */
  function Extend(pool: Pool, i: nat, pinp: set<ID>, o: ProofObligation): Pool
    requires i < |pool|
  {
    pool[i := if pool[i].inputs == {} then pool[i].(inputs := pinp) else pool[i]] + [o]
  }

  lemma AfterPredecessor(m: Trace, target: Cube, top: nat, pool: Pool, q: set<nat>, newest: bool, i: nat,
                         pinp: set<ID>, o: ProofObligation)
    requires QueueOk(m, target, top, pool, q, newest) && i in q && pool[i].level > 0
    requires forall j | j in q :: pool[i].level <= pool[j].level
    requires o.level == pool[i].level - 1 && (o.level > 0 ==> !Subsumed(m, o.cti, o.level))
    ensures QueueOk(m, target, top, Extend(pool, i, pinp, o), q + {|pool|}, true)
  {
  }

  lemma PredecessorLinked(tr: TransitionRelation, inf: set<Cube>, pool: Pool, i: nat, pinp: set<ID>, o: ProofObligation)
    requires AllLinked(tr, inf, pool) && i < |pool|
    requires pool[i].inputs == {} ==> pool[i].parent.None? || pinp == {}
    requires o.parent == Some(i) && OverLatches(tr, o.cti) && StepsInto(tr, inf, o, pool[i].cti)
    ensures AllLinked(tr, inf, Extend(pool, i, pinp, o))
  {
    var filled := if pool[i].inputs == {} then pool[i].(inputs := pinp) else pool[i];
    LinkedUpdate(tr, inf, pool, i, filled);
    LinkedGrows(tr, inf, pool[i := filled], o);
  }

  // ----- what the solver maintains -----

  /** The literals that cubes are made of. */
  function Universe(tr: TransitionRelation): set<ID> {
    tr.LatchIDs() + (set x | x in tr.LatchIDs() :: Negate(x)) + {tr.bad}
  }

  lemma LatchCubesInUniverse(tr: TransitionRelation, c: Cube)
    requires OverLatches(tr, c) && forall x | x in tr.LatchIDs() :: !IsNegated(x)
    ensures Lits(c) <= Universe(tr)
  {
    forall lit | lit in c
      ensures lit in Universe(tr)
    {
      assert Strip(lit) in tr.LatchIDs();
      assert lit == Strip(lit) || lit == Negate(Strip(lit));
    }
  }

  lemma LatchesPlain(tr: TransitionRelation)
    requires tr.WellFormed()
    ensures forall x | x in tr.LatchIDs() :: !IsNegated(x)
  {
    assert tr.LatchIDs() <= tr.Vars();
  }

  ghost predicate SolverInvariant(tr: TransitionRelation, init: set<Cube>, m: Trace, tainted: set<Cube>) {
    && tr.WellFormed() && tr.latches != [] && InitOverLatches(tr, init)
    && TraceOk(tr, init, m, tainted) && ShapeOk(m, Universe(tr))
  }

  /** The same, kept folded: the argument n does not matter. */
  ghost predicate FoldedInvariant(tr: TransitionRelation, init: set<Cube>, m: Trace, tainted: set<Cube>, n: nat) {
    if n == 0 then SolverInvariant(tr, init, m, tainted) else FoldedInvariant(tr, init, m, tainted, n - 1)
  }

  ghost predicate SolverOk(tr: TransitionRelation, init: set<Cube>, m: Trace, tainted: set<Cube>) {
    FoldedInvariant(tr, init, m, tainted, |tr.latches|)
  }

  lemma {:induction false} UnfoldInvariant(tr: TransitionRelation, init: set<Cube>, m: Trace, tainted: set<Cube>, n: nat)
    ensures FoldedInvariant(tr, init, m, tainted, n) <==> SolverInvariant(tr, init, m, tainted)
  {
    if n > 0 {
      UnfoldInvariant(tr, init, m, tainted, n - 1);
    }
  }

  lemma SolverOkIs(tr: TransitionRelation, init: set<Cube>, m: Trace, tainted: set<Cube>)
    ensures SolverOk(tr, init, m, tainted) <==> SolverInvariant(tr, init, m, tainted)
  {
    UnfoldInvariant(tr, init, m, tainted, |tr.latches|);
  }

  lemma CircuitKnown(tr: TransitionRelation, init: set<Cube>, m: Trace, tainted: set<Cube>)
    requires SolverOk(tr, init, m, tainted)
    ensures tr.WellFormed()
  {
    SolverOkIs(tr, init, m, tainted);
  }

  function Taint(tainted: set<Cube>, c: Cube, clean: bool): set<Cube> {
    if clean then tainted - {c} else tainted + {c}
  }

  lemma ShapeAdd(m: Trace, lits: set<ID>, c: Cube, level: Level)
    requires ShapeOk(m, lits) && c != [] && Ascending(c) && Lits(c) <= lits
    ensures ShapeOk(m[c := level], lits)
  {
  }

  lemma LemmaShape(tr: TransitionRelation, init: set<Cube>, m: Trace, tainted: set<Cube>)
    requires SolverOk(tr, init, m, tainted)
    ensures ShapeOk(m, Universe(tr))
  {
    SolverOkIs(tr, init, m, tainted);
  }

  lemma PromoteSolverOk(tr: TransitionRelation, init: set<Cube>, m: Trace, tainted: set<Cube>, k: nat)
    requires SolverOk(tr, init, m, tainted) && k > 0 && forall c | c in m :: m[c] != Fin(k)
    ensures SolverOk(tr, init, Promoted(m, k), tainted)
    ensures forall c | c in Promoted(m, k) && Promoted(m, k)[c].Fin? :: Promoted(m, k)[c].k < k
  {
    SolverOkIs(tr, init, m, tainted);
    SolverOkIs(tr, init, Promoted(m, k), tainted);
    PromoteOk(tr, init, m, tainted, k);
  }

  lemma PushSolverOk(tr: TransitionRelation, init: set<Cube>, m: Trace, tainted: set<Cube>, c: Cube, k: nat)
    requires SolverOk(tr, init, m, tainted) && c in m && m[c] == Fin(k)
    requires Consecution(tr, FrameCubes(m, Fin(k)), c, c)
    ensures SolverOk(tr, init, m[c := Fin(k + 1)], tainted - {c})
    ensures Raised(m, m[c := Fin(k + 1)])
  {
    SolverOkIs(tr, init, m, tainted);
    SolverOkIs(tr, init, m[c := Fin(k + 1)], tainted - {c});
    PushOk(tr, init, m, tainted, c, k);
  }

  lemma AddSolverOk(tr: TransitionRelation, init: set<Cube>, m: Trace, tainted: set<Cube>, c: Cube, k: nat, clean: bool)
    requires SolverOk(tr, init, m, tainted) && k > 0 && Blocks(tr, init, FrameCubes(m, Fin(k - 1)), c, clean)
    requires (c in m ==> Le(m[c], Fin(k))) && Lits(c) <= Universe(tr)
    ensures SolverOk(tr, init, m[c := Fin(k)], Taint(tainted, c, clean))
    ensures FrameCubes(m[c := Fin(k)], Inf) == FrameCubes(m, Inf)
  {
    SolverOkIs(tr, init, m, tainted);
    SolverOkIs(tr, init, m[c := Fin(k)], Taint(tainted, c, clean));
    BlockedLemmaOk(tr, init, m, tainted, k, c, clean);
    ShapeAdd(m, Universe(tr), c, Fin(k));
  }

  lemma RaisedPromoted(before: Trace, m: Trace, k: nat)
    requires Raised(before, m)
    ensures Raised(before, Promoted(m, k))
  {
  }

  lemma ShapeRestricted(m: Trace, lits: set<ID>, cubes: set<Cube>)
    requires ShapeOk(m, lits) && forall c | c in cubes :: c != [] && Ascending(c) && Lits(c) <= lits
    ensures ShapeOk(Restricted(m, cubes), lits)
  {
  }

  // ----- the three ways an obligation ends -----

  lemma InfReached(tr: TransitionRelation, init: set<Cube>, m: Trace, tainted: set<Cube>)
    requires SolverOk(tr, init, m, tainted)
    ensures forall x, j: nat | ReachedIn(tr, init, x, j) :: Avoids(x, FrameCubes(m, Inf))
  {
    SolverOkIs(tr, init, m, tainted);
    forall x, j: nat | ReachedIn(tr, init, x, j)
      ensures Avoids(x, FrameCubes(m, Inf))
    {
      InfHolds(tr, init, m, x, j);
    }
  }

  lemma ParentContinues(tr: TransitionRelation, init: set<Cube>, m: Trace, tainted: set<Cube>, o: ProofObligation, succ: Cube,
                           v: Valuation, n: nat) returns (x: Valuation, w: Valuation)
    requires SolverOk(tr, init, m, tainted)
    requires OverLatches(tr, o.cti) && StepsInto(tr, FrameCubes(m, Inf), o, succ)
    requires ReachedIn(tr, init, v, n) && SatCube(v, o.cti)
    ensures ReachedIn(tr, init, x, n) && SameState(tr, v, x) && SatCube(x, o.cti) && SatAll(x, o.inputs)
    ensures tr.Step(x, w) && ReachedIn(tr, init, w, n + 1) && SatCube(w, succ)
  {
    SolverOkIs(tr, init, m, tainted);
    InfReached(tr, init, m, tainted);
    x, w := ParentReached(tr, init, FrameCubes(m, Inf), o, succ, v, n);
  }

  /** From any state of an obligation that an execution reaches, the inputs along
      the chain of parents lead to the target. */
  lemma {:induction false} ChainReaches(tr: TransitionRelation, init: set<Cube>, m: Trace, tainted: set<Cube>, pool: Pool, i: nat,
                                        v: Valuation, n: nat) returns (x: Valuation)
    requires SolverOk(tr, init, m, tainted)
    requires i < |pool| && AllLinked(tr, FrameCubes(m, Inf), pool)
    requires ReachedIn(tr, init, v, n) && SatCube(v, pool[i].cti)
    ensures ReachedIn(tr, init, x, n) && SameState(tr, v, x)
    ensures Driven(tr, x, Chain(pool, i), pool[0].cti)
    decreases i
  {
    assert Linked(tr, FrameCubes(m, Inf), pool, i);
    if pool[i].parent.None? {
      x := v;
    } else {
      var p, w := pool[i].parent.value, {};
      x, w := ParentContinues(tr, init, m, tainted, pool[i], pool[p].cti, v, n);
      var y := ChainReaches(tr, init, m, tainted, pool, p, w, n + 1);
      assert tr.Step(x, y);
      assert Chain(pool, i)[1..] == Chain(pool, p);
    }
  }

  /** An execution of n steps ends in the cube. */
  ghost predicate CubeReached(tr: TransitionRelation, init: set<Cube>, c: Cube, n: nat) {
    exists w :: ReachedIn(tr, init, w, n) && SatCube(w, c)
  }

  /** The chain of an obligation at level 0 is a counterexample that replays. */
  lemma LevelZeroReplays(tr: TransitionRelation, init: set<Cube>, m: Trace, tainted: set<Cube>, lits: set<ID>, top: nat,
                         pool: Pool, i: nat)
    requires SolverOk(tr, init, m, tainted)
    requires i < |pool| && AllLinked(tr, FrameCubes(m, Inf), pool)
    requires Justified(tr, init, lits, top, pool[i]) && pool[i].level == 0
    ensures Replays(tr, init, pool[0].cti, Chain(pool, i))
  {
    var v :| Init(tr, init, v) && SatCube(v, pool[i].cti) && StateOf(tr, v) == pool[i].concreteState;
    assert ReachedIn(tr, init, v, 0);
    var x := ChainReaches(tr, init, m, tainted, pool, i, v, 0);
    SameStateOf(tr, v, x);
  }

  /** No cube above level 0 meets the initial states. */
  lemma AboveInitiated(tr: TransitionRelation, init: set<Cube>, lits: set<ID>, top: nat, o: ProofObligation)
    requires Justified(tr, init, lits, top, o) && o.level > 0
    ensures Initiated(tr, init, o.cti)
  {
    forall v | Init(tr, init, v)
      ensures !SatCube(v, o.cti)
    {
      assert ReachedIn(tr, init, v, 0);
      assert Le(Fin(0), Fin(o.level - 1));
    }
  }

  /** The obligation made of a lifted predecessor. */
  lemma PredecessorJustified(tr: TransitionRelation, init: set<Cube>, m: Trace, tainted: set<Cube>, top: nat,
                          o: ProofObligation, succ: ProofObligation, v: Valuation)
    requires SolverOk(tr, init, m, tainted)
    requires Justified(tr, init, Universe(tr), top, succ) && succ.level > 0 && o.level == succ.level - 1
    requires o.cti != [] && Ascending(o.cti) && OverLatches(tr, o.cti) && SatCube(v, o.cti)
    requires tr.Frame(v) && Avoids(v, FrameCubes(m, Fin(o.level)))
    requires StepsInto(tr, FrameCubes(m, Inf), o, succ.cti) && o.concreteState == StateOf(tr, v)
    ensures Justified(tr, init, Universe(tr), top, o)
  {
    SolverOkIs(tr, init, m, tainted);
    LatchesPlain(tr);
    LatchCubesInUniverse(tr, o.cti);
    if o.level == 0 {
      ZeroFrameIsInit(tr, init, m, v);
    } else {
      InfReached(tr, init, m, tainted);
      PredecessorOut(tr, init, FrameCubes(m, Inf), o, succ.cti, o.level);
    }
  }

  lemma NoInputsNoLiterals(tr: TransitionRelation, inf: set<Cube>, pool: Pool, i: nat, w: Valuation)
    requires AllLinked(tr, inf, pool) && i < |pool| && pool[i].inputs == {}
    ensures pool[i].parent.None? || LiteralsOf(tr.inputs, w) == {}
  {
    assert Linked(tr, inf, pool, i);
    if pool[i].parent.Some? {
      var a, b :| pool[i].inputs == LiteralsOf(tr.inputs, a)
               && Leads(tr, inf, pool[i].cti, pool[i].inputs, LiteralsOf(tr.inputs, b), pool[pool[i].parent.value].cti);
      NoLiterals(tr.inputs, a);
      NoLiterals(tr.inputs, w);
    }
  }

  lemma NoLiterals(vars: set<ID>, v: Valuation)
    ensures LiteralsOf(vars, v) == {} <==> vars == {}
  {
    if x :| x in vars {
      assert (if x in v then x else Negate(x)) in LiteralsOf(vars, v);
    }
  }

  /** A lemma that blocks an open cube was not in the trace at a higher level. */
  lemma BlockingIsNew(m: Trace, s: Cube, level: nat, t: Cube)
    requires !Subsumed(m, s, level) && SubCube(t, s)
    ensures t in m ==> Le(m[t], Fin(level))
  {
    assert t in m && Le(Fin(level), m[t]) && SubCube(t, s) ==> Subsumed(m, s, level);
  }

  /** All that recursiveBlock maintains between two obligations. */
  ghost predicate WorkState(tr: TransitionRelation, init: set<Cube>, m: Trace, tainted: set<Cube>, target: Cube, top: nat,
                            pool: Pool, q: set<nat>, newest: bool) {
    && SolverOk(tr, init, m, tainted) && QueueOk(m, target, top, pool, q, newest)
    && AllLinked(tr, FrameCubes(m, Inf), pool)
    && AllJustified(tr, init, Universe(tr), top, pool)
  }

  /** The same, kept folded: the argument n does not matter. */
  ghost predicate FoldedWork(tr: TransitionRelation, init: set<Cube>, m: Trace, tainted: set<Cube>, target: Cube, top: nat,
                             pool: Pool, q: set<nat>, newest: bool, n: nat)
    decreases n
  {
    if n == 0 then WorkState(tr, init, m, tainted, target, top, pool, q, newest)
    else FoldedWork(tr, init, m, tainted, target, top, pool, q, newest, n - 1)
  }

  ghost predicate WorkOk(tr: TransitionRelation, init: set<Cube>, m: Trace, tainted: set<Cube>, target: Cube, top: nat,
                         pool: Pool, q: set<nat>, newest: bool) {
    FoldedWork(tr, init, m, tainted, target, top, pool, q, newest, |tr.latches|)
  }

  lemma {:induction false} UnfoldWork(tr: TransitionRelation, init: set<Cube>, m: Trace, tainted: set<Cube>, target: Cube,
                                      top: nat, pool: Pool, q: set<nat>, newest: bool, n: nat)
    ensures FoldedWork(tr, init, m, tainted, target, top, pool, q, newest, n)
       <==> WorkState(tr, init, m, tainted, target, top, pool, q, newest)
    decreases n
  {
    if n > 0 {
      UnfoldWork(tr, init, m, tainted, target, top, pool, q, newest, n - 1);
    }
  }

  lemma WorkOkIs(tr: TransitionRelation, init: set<Cube>, m: Trace, tainted: set<Cube>, target: Cube, top: nat,
                 pool: Pool, q: set<nat>, newest: bool)
    ensures WorkOk(tr, init, m, tainted, target, top, pool, q, newest)
       <==> WorkState(tr, init, m, tainted, target, top, pool, q, newest)
  {
    UnfoldWork(tr, init, m, tainted, target, top, pool, q, newest, |tr.latches|);
  }

  /** What the loop needs to know about the queue and the obligation taken. */
  lemma WorkFacts(tr: TransitionRelation, init: set<Cube>, m: Trace, tainted: set<Cube>, target: Cube, top: nat,
                  pool: Pool, q: set<nat>, newest: bool)
    requires WorkOk(tr, init, m, tainted, target, top, pool, q, newest)
    ensures pool != [] && forall j | j in q :: j < |pool|
    ensures SolverOk(tr, init, m, tainted)
    ensures q == {} ==> Subsumed(m, target, top)
    ensures newest ==> forall j | j in q && j != |pool| - 1 :: pool[j].level > pool[|pool| - 1].level
    ensures newest ==> |pool| - 1 in q
  {
    WorkOkIs(tr, init, m, tainted, target, top, pool, q, newest);
  }

  lemma StartOk(tr: TransitionRelation, init: set<Cube>, m: Trace, tainted: set<Cube>, target: Cube, top: nat)
    requires SolverOk(tr, init, m, tainted) && top > 0
    requires target != [] && Ascending(target) && Lits(target) <= Universe(tr)
    requires Out(tr, init, target, Fin(top - 1))
    ensures WorkOk(tr, init, m, tainted, target, top, [ProofObligation(top, target, [], {}, 0, None)], {0}, false)
  {
    WorkOkIs(tr, init, m, tainted, target, top, [ProofObligation(top, target, [], {}, 0, None)], {0}, false);
  }

  lemma DroppedOk(tr: TransitionRelation, init: set<Cube>, m: Trace, tainted: set<Cube>, target: Cube, top: nat, pool: Pool,
                  q: set<nat>, newest: bool, i: nat)
    requires WorkOk(tr, init, m, tainted, target, top, pool, q, newest) && i in q && i < |pool| && pool[i].level > 0
    requires forall j | j in q :: j < |pool| && pool[i].level <= pool[j].level
    requires Subsumed(m, pool[i].cti, pool[i].level)
    ensures !newest && WorkOk(tr, init, m, tainted, target, top, pool, q - {i}, false)
  {
    WorkOkIs(tr, init, m, tainted, target, top, pool, q, newest);
    AfterSubsumed(m, target, top, pool, q, newest, i);
    WorkOkIs(tr, init, m, tainted, target, top, pool, q - {i}, false);
  }

  lemma LearnedOk(tr: TransitionRelation, init: set<Cube>, m: Trace, tainted: set<Cube>, target: Cube, top: nat, pool: Pool,
                  q: set<nat>, newest: bool, i: nat, t: Cube, clean: bool)
    requires WorkOk(tr, init, m, tainted, target, top, pool, q, newest) && i in q && i < |pool|
    requires 0 < pool[i].level && SubCube(t, pool[i].cti) && !Subsumed(m, pool[i].cti, pool[i].level)
    requires Blocks(tr, init, FrameCubes(m, Fin(pool[i].level - 1)), t, clean)
    ensures Lits(t) <= Universe(tr) && (t in m ==> Le(m[t], Fin(pool[i].level)))
    ensures var m' := m[t := Fin(pool[i].level)];
      && WorkOk(tr, init, m', Taint(tainted, t, clean), target, top, Promote(pool, i, top), Requeue(pool, q, i, top), false)
      && |Open(m', AllCubes(Universe(tr)), top)| < |Open(m, AllCubes(Universe(tr)), top)|
  {
    WorkOkIs(tr, init, m, tainted, target, top, pool, q, newest);
    var level := pool[i].level;
    assert Justified(tr, init, Universe(tr), top, pool[i]);
    SubCubeLits(t, pool[i].cti);
    BlockingIsNew(m, pool[i].cti, level, t);
    AddSolverOk(tr, init, m, tainted, t, level, clean);
    AfterBlocked(m, target, top, pool, q, newest, i, t);
    LearnedPool(tr, init, m, tainted, top, pool, i, t, clean);
    InAllCubes(pool[i].cti, Universe(tr));
    OpenShrinks(m, AllCubes(Universe(tr)), top, pool[i].cti, t, level);
    WorkOkIs(tr, init, m[t := Fin(level)], Taint(tainted, t, clean), target, top, Promote(pool, i, top),
             Requeue(pool, q, i, top), false);
  }

  lemma LearnedPool(tr: TransitionRelation, init: set<Cube>, m: Trace, tainted: set<Cube>, top: nat, pool: Pool, i: nat,
                    t: Cube, clean: bool)
    requires SolverOk(tr, init, m, tainted) && i < |pool| && AllLinked(tr, FrameCubes(m, Inf), pool)
    requires AllJustified(tr, init, Universe(tr), top, pool)
    requires 0 < pool[i].level && SubCube(t, pool[i].cti)
    requires Blocks(tr, init, FrameCubes(m, Fin(pool[i].level - 1)), t, clean)
    ensures AllLinked(tr, FrameCubes(m, Inf), Promote(pool, i, top))
    ensures AllJustified(tr, init, Universe(tr), top, Promote(pool, i, top))
  {
    var level := pool[i].level;
    if level < top {
      LinkedUpdate(tr, FrameCubes(m, Inf), pool, i, pool[i].(level := level + 1));
    }
    SolverOkIs(tr, init, m, tainted);
    FrameContains(tr, init, m, level - 1);
    BlocksOut(tr, init, FrameCubes(m, Fin(level - 1)), level, t, clean);
    BlockedJustified(tr, init, Universe(tr), top, pool, i, t);
  }

  lemma QueuedOk(tr: TransitionRelation, init: set<Cube>, m: Trace, tainted: set<Cube>, target: Cube, top: nat, pool: Pool,
                 q: set<nat>, newest: bool, i: nat, o: ProofObligation, pinp: set<ID>, v: Valuation, w: Valuation)
    requires WorkOk(tr, init, m, tainted, target, top, pool, q, newest) && i in q && i < |pool|
    requires pool[i].level > 0 && forall j | j in q :: j < |pool| && pool[i].level <= pool[j].level
    requires o.cti != [] && Ascending(o.cti) && OverLatches(tr, o.cti) && SatCube(v, o.cti)
    requires o.level == pool[i].level - 1 && o.parent == Some(i)
    requires tr.Frame(v) && Avoids(v, FrameCubes(m, Fin(o.level))) && o.concreteState == StateOf(tr, v)
    requires o.inputs == LiteralsOf(tr.inputs, v) && pinp == LiteralsOf(tr.inputs, w)
    requires Leads(tr, FrameCubes(m, Inf), o.cti, o.inputs, pinp, pool[i].cti)
    ensures WorkOk(tr, init, m, tainted, target, top, Extend(pool, i, pinp, o), q + {|pool|}, true)
  {
    WorkOkIs(tr, init, m, tainted, target, top, pool, q, newest);
    StateNotSubsumed(m, o.cti, o.level, v);
    AfterPredecessor(m, target, top, pool, q, newest, i, pinp, o);
    QueuedPool(tr, init, m, tainted, top, pool, i, o, pinp, v, w);
    WorkOkIs(tr, init, m, tainted, target, top, Extend(pool, i, pinp, o), q + {|pool|}, true);
  }

  lemma QueuedPool(tr: TransitionRelation, init: set<Cube>, m: Trace, tainted: set<Cube>, top: nat, pool: Pool, i: nat,
                   o: ProofObligation, pinp: set<ID>, v: Valuation, w: Valuation)
    requires SolverOk(tr, init, m, tainted) && i < |pool| && AllLinked(tr, FrameCubes(m, Inf), pool)
    requires AllJustified(tr, init, Universe(tr), top, pool)
    requires pool[i].level > 0 && o.cti != [] && Ascending(o.cti) && OverLatches(tr, o.cti) && SatCube(v, o.cti)
    requires o.level == pool[i].level - 1 && o.parent == Some(i)
    requires tr.Frame(v) && Avoids(v, FrameCubes(m, Fin(o.level))) && o.concreteState == StateOf(tr, v)
    requires o.inputs == LiteralsOf(tr.inputs, v) && pinp == LiteralsOf(tr.inputs, w)
    requires Leads(tr, FrameCubes(m, Inf), o.cti, o.inputs, pinp, pool[i].cti)
    ensures AllLinked(tr, FrameCubes(m, Inf), Extend(pool, i, pinp, o))
    ensures AllJustified(tr, init, Universe(tr), top, Extend(pool, i, pinp, o))
  {
    var inf := FrameCubes(m, Inf);
    assert StepsInto(tr, inf, o, pool[i].cti);
    assert Justified(tr, init, Universe(tr), top, pool[i]);
    PredecessorJustified(tr, init, m, tainted, top, o, pool[i], v);
    if pool[i].inputs == {} {
      NoInputsNoLiterals(tr, inf, pool, i, w);
    }
    PredecessorLinked(tr, inf, pool, i, pinp, o);
    ExtendJustified(tr, init, Universe(tr), top, pool, i, pinp, o);
  }

  /** The assertions of initiate and reinitiate do not fail. */
  lemma ObligationInitiated(tr: TransitionRelation, init: set<Cube>, m: Trace, tainted: set<Cube>, target: Cube, top: nat,
                            pool: Pool, q: set<nat>, newest: bool, i: nat)
    requires WorkOk(tr, init, m, tainted, target, top, pool, q, newest) && i < |pool| && pool[i].level > 0
    ensures Initiated(tr, init, pool[i].cti)
  {
    WorkOkIs(tr, init, m, tainted, target, top, pool, q, newest);
    AboveInitiated(tr, init, Universe(tr), top, pool[i]);
  }

  /** An obligation at level 0 gives a counterexample: its chain. */
  lemma ExecutionExists(tr: TransitionRelation, init: set<Cube>, m: Trace, tainted: set<Cube>, target: Cube, top: nat,
                        pool: Pool, q: set<nat>, newest: bool, i: nat)
    requires WorkOk(tr, init, m, tainted, target, top, pool, q, newest) && i < |pool| && pool[i].level == 0
    ensures AllLinked(tr, FrameCubes(m, Inf), pool)
    ensures Replays(tr, init, target, Chain(pool, i))
  {
    WorkOkIs(tr, init, m, tainted, target, top, pool, q, newest);
    assert Justified(tr, init, Universe(tr), top, pool[i]);
    LevelZeroReplays(tr, init, m, tainted, Universe(tr), top, pool, i);
  }

  lemma ObligationShape(tr: TransitionRelation, init: set<Cube>, m: Trace, tainted: set<Cube>, target: Cube, top: nat,
                        pool: Pool, q: set<nat>, newest: bool, i: nat)
    requires WorkOk(tr, init, m, tainted, target, top, pool, q, newest) && i < |pool|
    ensures pool[i].cti != [] && Ascending(pool[i].cti) && SolverOk(tr, init, m, tainted)
  {
    WorkOkIs(tr, init, m, tainted, target, top, pool, q, newest);
    assert Justified(tr, init, Universe(tr), top, pool[i]);
  }

  lemma ExtendJustified(tr: TransitionRelation, init: set<Cube>, lits: set<ID>, top: nat, pool: Pool, i: nat,
                     pinp: set<ID>, o: ProofObligation)
    requires AllJustified(tr, init, lits, top, pool) && i < |pool| && Justified(tr, init, lits, top, o)
    ensures AllJustified(tr, init, lits, top, Extend(pool, i, pinp, o))
  {
    var after := Extend(pool, i, pinp, o);
    forall j | 0 <= j < |after|
      ensures Justified(tr, init, lits, top, after[j])
    {
      assert j < |pool| ==> Justified(tr, init, lits, top, pool[j]);
    }
  }

  lemma SubCubeLits(a: Cube, b: Cube)
    requires SubCube(a, b)
    ensures Lits(a) <= Lits(b)
  {
  }
}
