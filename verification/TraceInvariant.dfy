/** What the trace of IC3 promises about reachable states, and why every
    operation on the trace keeps the promise (src/pme/ic3/ic3_solver.cpp). */
module TraceInvariants {
  import opened Ids
  import opened Cubes
  import opened TransitionRelations
  import opened InductiveTraces

  /** The state satisfies the clauses that negate the cubes. */
  ghost predicate Avoids(v: Valuation, cubes: set<Cube>) {
    forall c | c in cubes :: !SatCube(v, c)
  }

  /** One step from a state of the frame does not enter the cube. */
  ghost predicate Supported(tr: TransitionRelation, f: set<Cube>, c: Cube) {
    forall v, w | tr.Step(v, w) && Avoids(v, f) :: !SatCube(w, c)
  }

  /** The consecution query for c, answered with the core r. */
  ghost predicate Consecution(tr: TransitionRelation, f: set<Cube>, c: Cube, r: Cube) {
    forall v, w | tr.Step(v, w) && Avoids(v, f) && !SatCube(v, c) :: !SatCube(w, r)
  }

  /** No state that the level speaks about is in the cube. */
  ghost predicate Out(tr: TransitionRelation, init: set<Cube>, c: Cube, level: Level) {
    forall v, n: nat | ReachedIn(tr, init, v, n) && Le(Fin(n), level) :: !SatCube(v, c)
  }

  /** No initial state is in the cube. */
  ghost predicate Initiated(tr: TransitionRelation, init: set<Cube>, c: Cube) {
    c != [] && forall v | Init(tr, init, v) :: !SatCube(v, c)
  }

  /** The frame that supports the lemmas of a level. */
  function Support(level: Level): Level {
    if level.Inf? || level.k == 0 then level else Fin(level.k - 1)
  }

  /** Every lemma is a sorted cube over the given literals. */
  ghost predicate ShapeOk(m: Trace, lits: set<ID>) {
    forall c | c in m :: c != [] && Ascending(c) && Lits(c) <= lits
  }

  ghost predicate InitOk(tr: TransitionRelation, init: set<Cube>, m: Trace) {
    init <= m.Keys && forall c | c in m :: Initiated(tr, init, c)
  }

  ghost predicate DeltaOk(tr: TransitionRelation, m: Trace, tainted: set<Cube>) {
    forall c | c in m && c !in tainted && m[c] != Fin(0) :: Supported(tr, FrameCubes(m, Support(m[c])), c)
  }

  /** No state of the frame enters the cube in one step from outside it, nor from an
      initial state. */
  ghost predicate Shields(tr: TransitionRelation, init: set<Cube>, f: set<Cube>, core: Cube) {
    forall v, w | tr.Step(v, w) && Avoids(v, f) && (Init(tr, init, v) || !SatCube(v, core)) :: !SatCube(w, core)
  }

  /** Some part of the cube is shielded; so, while the frame holds, it is out of reach
      from the first step on. */
  ghost predicate Shielded(tr: TransitionRelation, init: set<Cube>, f: set<Cube>, c: Cube) {
    exists core :: SubCube(core, c) && Shields(tr, init, f, core)
  }

  ghost predicate ShieldedOk(tr: TransitionRelation, init: set<Cube>, m: Trace) {
    forall c | c in m && m[c] != Fin(0) :: Shielded(tr, init, FrameCubes(m, Support(m[c])), c)
  }

  ghost predicate BoundedOk(tr: TransitionRelation, init: set<Cube>, m: Trace) {
    forall c | c in m :: Out(tr, init, c, m[c])
  }

  /** No lemma of the infinity frame lacks support. */
  ghost predicate Sound(m: Trace, tainted: set<Cube>) {
    tainted !! FrameCubes(m, Inf)
  }

  /** Each lemma holds in the initial states; each untainted one is supported by the
      frame below it, and each one at all is shielded; and the frame at k contains
      every state reached in at most k steps. */
  ghost predicate TraceOk(tr: TransitionRelation, init: set<Cube>, m: Trace, tainted: set<Cube>) {
    && InitOk(tr, init, m)
    && DeltaOk(tr, m, tainted)
    && ShieldedOk(tr, init, m)
    && BoundedOk(tr, init, m)
  }

  lemma FrameHolds(tr: TransitionRelation, init: set<Cube>, m: Trace, v: Valuation, n: nat, k: nat)
    requires BoundedOk(tr, init, m) && ReachedIn(tr, init, v, n) && n <= k
    ensures Avoids(v, FrameCubes(m, Fin(k)))
  {
    forall c | c in FrameCubes(m, Fin(k))
      ensures !SatCube(v, c)
    {
      assert Out(tr, init, c, m[c]);
      assert Le(Fin(n), m[c]);
    }
  }

  lemma InfHolds(tr: TransitionRelation, init: set<Cube>, m: Trace, v: Valuation, n: nat)
    requires BoundedOk(tr, init, m) && ReachedIn(tr, init, v, n)
    ensures Avoids(v, FrameCubes(m, Inf))
  {
    forall c | c in FrameCubes(m, Inf)
      ensures !SatCube(v, c)
    {
      assert Out(tr, init, c, m[c]);
      assert Le(Fin(n), m[c]);
    }
  }

  /** A lemma may only move up, so full frames only grow. */
  lemma RaiseGrows(m: Trace, c: Cube, level: Level, at: Level)
    requires c in m ==> Le(m[c], level)
    ensures FrameCubes(m, at) <= FrameCubes(m[c := level], at)
  {
  }

  lemma SupportedByMore(tr: TransitionRelation, f: set<Cube>, g: set<Cube>, c: Cube)
    requires Supported(tr, f, c) && f <= g
    ensures Supported(tr, g, c)
  {
    forall v, w | tr.Step(v, w) && Avoids(v, g)
      ensures !SatCube(w, c)
    {
      assert Avoids(v, f);
    }
  }

  lemma ShieldedByMore(tr: TransitionRelation, init: set<Cube>, f: set<Cube>, fewer: set<Cube>, g: set<Cube>, c: Cube)
    requires Shielded(tr, init, f, c) && f <= g && init <= fewer
    ensures Shielded(tr, fewer, g, c)
  {
    var core :| SubCube(core, c) && Shields(tr, init, f, core);
    forall v, w | tr.Step(v, w) && Avoids(v, g) && (Init(tr, fewer, v) || !SatCube(v, core))
      ensures !SatCube(w, core)
    {
      assert Avoids(v, f);
      assert Init(tr, fewer, v) ==> Init(tr, init, v);
    }
    assert Shields(tr, fewer, g, core);
  }

  /** A cube that is inductive relative to the frame shields itself. */
  lemma InductiveShields(tr: TransitionRelation, init: set<Cube>, f: set<Cube>, q: Cube, core: Cube, r: Cube)
    requires Consecution(tr, f, q, core) && Initiated(tr, init, q) && SubCube(core, q) && SubCube(core, r)
    ensures Shielded(tr, init, f, r)
  {
    forall v, w | tr.Step(v, w) && Avoids(v, f) && (Init(tr, init, v) || !SatCube(v, core))
      ensures !SatCube(w, core)
    {
      if SatCube(v, q) {
        SubCubeWeaker(v, core, q);
      }
    }
    assert Shields(tr, init, f, core);
  }

  /** The frame contains every state reached in at most n steps. */
  ghost predicate Contains(tr: TransitionRelation, init: set<Cube>, f: set<Cube>, n: nat) {
    forall v, j: nat | ReachedIn(tr, init, v, j) && j <= n :: Avoids(v, f)
  }

  lemma FrameContains(tr: TransitionRelation, init: set<Cube>, m: Trace, k: nat)
    requires BoundedOk(tr, init, m)
    ensures Contains(tr, init, FrameCubes(m, Fin(k)), k)
  {
    forall v, j: nat | ReachedIn(tr, init, v, j) && j <= k
      ensures Avoids(v, FrameCubes(m, Fin(k)))
    {
      FrameHolds(tr, init, m, v, j, k);
    }
  }

  /** A cube without initial states that the frame below level k shields is out of
      reach for k steps. */
  lemma ShieldedOut(tr: TransitionRelation, init: set<Cube>, f: set<Cube>, k: nat, r: Cube)
    requires k > 0 && Contains(tr, init, f, k - 1) && Initiated(tr, init, r) && Shielded(tr, init, f, r)
    ensures Out(tr, init, r, Fin(k))
  {
    var core :| SubCube(core, r) && Shields(tr, init, f, core);
    forall v, n: nat | ReachedIn(tr, init, v, n) && n <= k
      ensures !SatCube(v, r)
    {
      CoreUnreached(tr, init, f, k, core, v, n);
      if n > 0 && SatCube(v, r) {
        SubCubeWeaker(v, core, r);
      }
    }
  }

  lemma {:induction false} CoreUnreached(tr: TransitionRelation, init: set<Cube>, f: set<Cube>, k: nat, core: Cube,
                                         v: Valuation, n: nat)
    requires k > 0 && Contains(tr, init, f, k - 1) && n <= k && ReachedIn(tr, init, v, n)
    requires Shields(tr, init, f, core)
    ensures n > 0 ==> !SatCube(v, core)
    decreases n
  {
    if n > 0 {
      var u: Valuation :| ReachedIn(tr, init, u, n - 1) && tr.Step(u, v);
      CoreUnreached(tr, init, f, k, core, u, n - 1);
    }
  }

  /** A cube q with no initial state, blocked by F_{k-1} with a core of q:
      every initiated cube r that contains the core is out of reach for k
      steps, whether or not r is part of q. */
  lemma BlockedOut(tr: TransitionRelation, init: set<Cube>, f: set<Cube>, k: nat, q: Cube, core: Cube, r: Cube)
    requires k > 0 && Contains(tr, init, f, k - 1)
    requires Consecution(tr, f, q, core) && Initiated(tr, init, q) && SubCube(core, q)
    requires Initiated(tr, init, r) && SubCube(core, r)
    ensures Out(tr, init, r, Fin(k))
  {
    InductiveShields(tr, init, f, q, core, r);
    ShieldedOut(tr, init, f, k, r);
  }

  /** Inside the queried cube, the result is supported once it is a lemma. */
  lemma BlockedSupported(tr: TransitionRelation, m: Trace, k: nat, q: Cube, core: Cube, r: Cube)
    requires k > 0 && Consecution(tr, FrameCubes(m, Fin(k - 1)), q, core)
    requires SubCube(core, r) && SubCube(r, q)
    requires r in m ==> Le(m[r], Fin(k))
    ensures Supported(tr, FrameCubes(m[r := Fin(k)], Fin(k - 1)), r)
  {
    var m' := m[r := Fin(k)];
    RaiseGrows(m, r, Fin(k), Fin(k - 1));
    forall v, w | tr.Step(v, w) && Avoids(v, FrameCubes(m', Fin(k - 1)))
      ensures !SatCube(w, r)
    {
      assert r in FrameCubes(m', Fin(k - 1));
      assert Avoids(v, FrameCubes(m, Fin(k - 1)));
      if SatCube(v, q) {
        SubCubeWeaker(v, r, q);
      }
      if SatCube(w, r) {
        SubCubeWeaker(w, core, r);
      }
    }
  }

  /** Adding or raising one lemma. */
  lemma AddOk(tr: TransitionRelation, init: set<Cube>, m: Trace, tainted: set<Cube>, c: Cube, k: nat, clean: bool)
    requires TraceOk(tr, init, m, tainted) && k > 0
    requires c in m ==> Le(m[c], Fin(k))
    requires Initiated(tr, init, c) && Shielded(tr, init, FrameCubes(m, Fin(k - 1)), c)
    requires clean ==> Supported(tr, FrameCubes(m[c := Fin(k)], Fin(k - 1)), c)
    ensures FrameCubes(m[c := Fin(k)], Inf) == FrameCubes(m, Inf)
    ensures TraceOk(tr, init, m[c := Fin(k)], if clean then tainted - {c} else tainted + {c})
  {
    var m' := m[c := Fin(k)];
    var tainted' := if clean then tainted - {c} else tainted + {c};
    AddDelta(tr, m, tainted, c, k, clean);
    AddShielded(tr, init, m, c, k);
    FrameContains(tr, init, m, k - 1);
    ShieldedOut(tr, init, FrameCubes(m, Fin(k - 1)), k, c);
    assert c !in FrameCubes(m', Inf) && c !in FrameCubes(m, Inf);
  }

  lemma AddDelta(tr: TransitionRelation, m: Trace, tainted: set<Cube>, c: Cube, k: nat, clean: bool)
    requires DeltaOk(tr, m, tainted) && k > 0 && (c in m ==> Le(m[c], Fin(k)))
    requires clean ==> Supported(tr, FrameCubes(m[c := Fin(k)], Fin(k - 1)), c)
    ensures DeltaOk(tr, m[c := Fin(k)], if clean then tainted - {c} else tainted + {c})
  {
    var m' := m[c := Fin(k)];
    var tainted' := if clean then tainted - {c} else tainted + {c};
    forall d | d in m' && d !in tainted' && m'[d] != Fin(0)
      ensures Supported(tr, FrameCubes(m', Support(m'[d])), d)
    {
      if d != c {
        RaiseGrows(m, c, Fin(k), Support(m[d]));
        SupportedByMore(tr, FrameCubes(m, Support(m[d])), FrameCubes(m', Support(m[d])), d);
      }
    }
  }

  lemma AddShielded(tr: TransitionRelation, init: set<Cube>, m: Trace, c: Cube, k: nat)
    requires ShieldedOk(tr, init, m) && k > 0 && (c in m ==> Le(m[c], Fin(k)))
    requires Shielded(tr, init, FrameCubes(m, Fin(k - 1)), c)
    ensures ShieldedOk(tr, init, m[c := Fin(k)])
  {
    var m' := m[c := Fin(k)];
    forall d | d in m' && m'[d] != Fin(0)
      ensures Shielded(tr, init, FrameCubes(m', Support(m'[d])), d)
    {
      var at := if d == c then Fin(k - 1) else Support(m[d]);
      RaiseGrows(m, c, Fin(k), at);
      ShieldedByMore(tr, init, FrameCubes(m, at), init, FrameCubes(m', at), d);
    }
  }

  /** A lemma that passes consecution at its level moves up one level and loses
      its taint. */
  lemma PushOk(tr: TransitionRelation, init: set<Cube>, m: Trace, tainted: set<Cube>, c: Cube, k: nat)
    requires TraceOk(tr, init, m, tainted) && c in m && m[c] == Fin(k)
    requires Consecution(tr, FrameCubes(m, Fin(k)), c, c)
    ensures TraceOk(tr, init, m[c := Fin(k + 1)], tainted - {c})
    ensures FrameCubes(m[c := Fin(k + 1)], Inf) == FrameCubes(m, Inf)
  {
    InductiveShields(tr, init, FrameCubes(m, Fin(k)), c, c, c);
    BlockedSupported(tr, m, k + 1, c, c, c);
    AddOk(tr, init, m, tainted, c, k + 1, true);
  }

  /** All lemmas at or above level k become infinity lemmas. */
  function Promoted(m: Trace, k: nat): Trace {
    map c | c in m :: if Le(Fin(k), m[c]) then Inf else m[c]
  }

  lemma PromotedFrames(m: Trace, k: nat, at: Level)
    requires at == Inf || (at.Fin? && at.k <= k)
    ensures FrameCubes(Promoted(m, k), at) == FrameCubes(m, if at == Inf then Fin(k) else at)
  {
  }

  /** Below an empty frame, the frame supports itself. */
  lemma EmptyFrameSupports(tr: TransitionRelation, m: Trace, tainted: set<Cube>, k: nat, c: Cube)
    requires DeltaOk(tr, m, tainted) && c in m && c !in tainted
    requires Le(Fin(k), m[c]) && forall d | d in m :: m[d] != Fin(k)
    ensures Supported(tr, FrameCubes(m, Fin(k)), c)
  {
    assert m[c] != Fin(k);
    SupportedByMore(tr, FrameCubes(m, Support(m[c])), FrameCubes(m, Fin(k)), c);
  }

  /** And every lemma above it is shielded by it. */
  lemma EmptyFrameShields(tr: TransitionRelation, init: set<Cube>, m: Trace, k: nat, c: Cube)
    requires ShieldedOk(tr, init, m) && k > 0 && c in m
    requires Le(Fin(k), m[c]) && forall d | d in m :: m[d] != Fin(k)
    ensures Shielded(tr, init, FrameCubes(m, Fin(k)), c)
  {
    assert m[c] != Fin(k);
    ShieldedByMore(tr, init, FrameCubes(m, Support(m[c])), init, FrameCubes(m, Fin(k)), c);
  }

  /** A frame that shields its own lemmas holds in every reachable state, though it
      need not be inductive. */
  lemma {:induction false} SelfShieldingHolds(tr: TransitionRelation, init: set<Cube>, f: set<Cube>, v: Valuation, n: nat)
    requires forall c | c in f :: Shielded(tr, init, f, c) && Initiated(tr, init, c)
    requires ReachedIn(tr, init, v, n)
    ensures Avoids(v, f)
    ensures n > 0 ==> forall core | Shields(tr, init, f, core) :: !SatCube(v, core)
    decreases n
  {
    if n > 0 {
      var u: Valuation :| ReachedIn(tr, init, u, n - 1) && tr.Step(u, v);
      SelfShieldingHolds(tr, init, f, u, n - 1);
      forall core | Shields(tr, init, f, core)
        ensures !SatCube(v, core)
      {
        assert n > 1 ==> !SatCube(u, core);
      }
      forall c | c in f
        ensures !SatCube(v, c)
      {
        var core :| SubCube(core, c) && Shields(tr, init, f, core);
        if SatCube(v, c) {
          SubCubeWeaker(v, core, c);
        }
      }
    }
  }

  /** Promotion past an empty frame keeps the promise. */
  lemma PromoteOk(tr: TransitionRelation, init: set<Cube>, m: Trace, tainted: set<Cube>, k: nat)
    requires TraceOk(tr, init, m, tainted) && k > 0
    requires forall c | c in m :: m[c] != Fin(k)
    ensures TraceOk(tr, init, Promoted(m, k), tainted)
  {
    var m' := Promoted(m, k);
    PromotedFrames(m, k, Inf);
    assert InitOk(tr, init, m') by {
      assert m'.Keys == m.Keys;
    }
    PromoteDelta(tr, m, tainted, k);
    PromoteShielded(tr, init, m, k);
    PromoteBounded(tr, init, m, tainted, k);
  }

  lemma PromoteShielded(tr: TransitionRelation, init: set<Cube>, m: Trace, k: nat)
    requires ShieldedOk(tr, init, m) && k > 0
    requires forall c | c in m :: m[c] != Fin(k)
    ensures ShieldedOk(tr, init, Promoted(m, k))
  {
    var m' := Promoted(m, k);
    forall c | c in m' && m'[c] != Fin(0)
      ensures Shielded(tr, init, FrameCubes(m', Support(m'[c])), c)
    {
      if Le(Fin(k), m[c]) {
        EmptyFrameShields(tr, init, m, k, c);
        PromotedFrames(m, k, Inf);
      } else {
        PromotedFrames(m, k, Support(m[c]));
      }
    }
  }

  lemma PromoteDelta(tr: TransitionRelation, m: Trace, tainted: set<Cube>, k: nat)
    requires DeltaOk(tr, m, tainted) && k > 0
    requires forall c | c in m :: m[c] != Fin(k)
    ensures DeltaOk(tr, Promoted(m, k), tainted)
  {
    var m' := Promoted(m, k);
    forall c | c in m' && c !in tainted && m'[c] != Fin(0)
      ensures Supported(tr, FrameCubes(m', Support(m'[c])), c)
    {
      if Le(Fin(k), m[c]) {
        EmptyFrameSupports(tr, m, tainted, k, c);
        PromotedFrames(m, k, Inf);
      } else {
        PromotedFrames(m, k, Support(m[c]));
      }
    }
  }

  lemma PromoteBounded(tr: TransitionRelation, init: set<Cube>, m: Trace, tainted: set<Cube>, k: nat)
    requires TraceOk(tr, init, m, tainted) && k > 0
    requires forall c | c in m :: m[c] != Fin(k)
    ensures BoundedOk(tr, init, Promoted(m, k))
  {
    var m' := Promoted(m, k);
    var f := FrameCubes(m, Fin(k));
    PromotedFrames(m, k, Inf);
    forall c | c in f
      ensures Shielded(tr, init, f, c) && Initiated(tr, init, c)
    {
      EmptyFrameShields(tr, init, m, k, c);
    }
    forall c | c in m'
      ensures Out(tr, init, c, m'[c])
    {
      if c in f {
        forall v, n: nat | ReachedIn(tr, init, v, n)
          ensures !SatCube(v, c)
        {
          SelfShieldingHolds(tr, init, f, v, n);
        }
      } else {
        assert Out(tr, init, c, m[c]);
      }
    }
  }

  /** No frame that meets the lemmas is in the cube. */
  ghost predicate Excludes(tr: TransitionRelation, f: set<Cube>, c: Cube) {
    forall v | tr.Frame(v) && Avoids(v, f) :: !SatCube(v, c)
  }

  /** Every lemma of the frame is inductive relative to it. */
  ghost predicate SelfSupporting(tr: TransitionRelation, f: set<Cube>) {
    forall c | c in f :: Supported(tr, f, c)
  }

  /** The infinity frame of a sound trace is an inductive invariant. */
  lemma InfinityInductive(tr: TransitionRelation, init: set<Cube>, m: Trace, tainted: set<Cube>)
    requires TraceOk(tr, init, m, tainted) && Sound(m, tainted)
    ensures SelfSupporting(tr, FrameCubes(m, Inf))
    ensures forall v | Init(tr, init, v) :: Avoids(v, FrameCubes(m, Inf))
    ensures forall v, w | tr.Step(v, w) && Avoids(v, FrameCubes(m, Inf)) :: Avoids(w, FrameCubes(m, Inf))
  {
    var f := FrameCubes(m, Inf);
    forall c | c in f
      ensures Supported(tr, f, c) && Initiated(tr, init, c)
    {
      assert m[c] == Inf && c !in tainted;
    }
  }

  // ----- restricting the initial states -----

  lemma {:induction false} FewerReached(tr: TransitionRelation, init: set<Cube>, more: set<Cube>, v: Valuation, n: nat)
    requires init <= more && ReachedIn(tr, more, v, n)
    ensures ReachedIn(tr, init, v, n)
    decreases n
  {
    if n > 0 {
      var u: Valuation :| ReachedIn(tr, more, u, n - 1) && tr.Step(u, v);
      FewerReached(tr, init, more, u, n - 1);
    }
  }

  /** Extra initial-state constraints enter at level 0 unless already known. */
  function Restricted(m: Trace, cubes: set<Cube>): Trace {
    map c | c in m.Keys + cubes :: if c in m then m[c] else Fin(0)
  }

  lemma RestrictOk(tr: TransitionRelation, init: set<Cube>, m: Trace, tainted: set<Cube>, cubes: set<Cube>)
    requires TraceOk(tr, init, m, tainted)
    requires forall c | c in cubes :: c != []
    ensures TraceOk(tr, init + cubes, Restricted(m, cubes), tainted)
  {
    var m', init' := Restricted(m, cubes), init + cubes;
    forall c | c in m'
      ensures Initiated(tr, init', c)
    {
      if c in m {
        assert Initiated(tr, init, c);
        forall v | Init(tr, init', v)
          ensures !SatCube(v, c)
        {
          assert Init(tr, init, v);
        }
      }
    }
    forall c | c in m' && c !in tainted && m'[c] != Fin(0)
      ensures Supported(tr, FrameCubes(m', Support(m'[c])), c)
    {
      SupportedByMore(tr, FrameCubes(m, Support(m[c])), FrameCubes(m', Support(m[c])), c);
    }
    forall c | c in m' && m'[c] != Fin(0)
      ensures Shielded(tr, init', FrameCubes(m', Support(m'[c])), c)
    {
      ShieldedByMore(tr, init, FrameCubes(m, Support(m[c])), init', FrameCubes(m', Support(m[c])), c);
    }
    RestrictBounded(tr, init, m, cubes);
  }

  lemma RestrictBounded(tr: TransitionRelation, init: set<Cube>, m: Trace, cubes: set<Cube>)
    requires BoundedOk(tr, init, m)
    ensures BoundedOk(tr, init + cubes, Restricted(m, cubes))
  {
    var m', init' := Restricted(m, cubes), init + cubes;
    forall c | c in m'
      ensures Out(tr, init', c, m'[c])
    {
      forall v, n: nat | ReachedIn(tr, init', v, n) && Le(Fin(n), m'[c])
        ensures !SatCube(v, c)
      {
        if c in m {
          FewerReached(tr, init, init', v, n);
          assert Out(tr, init, c, m[c]);
        } else {
          assert Init(tr, init', v);
        }
      }
    }
  }

  // ----- pushing and promoting, one lemma at a time -----

  /** m came from the trace before by moving lemmas up only. */
  ghost predicate Raised(before: Trace, m: Trace) {
    forall c | c in before :: c in m && Le(before[c], m[c])
  }

  /** The lemmas above level i are at infinity; the others that moved were at
      level k or above. */
  ghost predicate Promoting(before: Trace, m: Trace, k: nat, i: int) {
    && m.Keys == before.Keys
    && forall c | c in before :: PromotingOne(before[c], m[c], k, i)
  }

  predicate PromotingOne(was: Level, now: Level, k: nat, i: int) {
    && (now == was || now == Inf)
    && (was == Inf || was.k > i ==> now == Inf)
    && (now == Inf ==> Le(Fin(k), was))
  }

  lemma PromoteOne(before: Trace, m: Trace, k: nat, i: int, c: Cube)
    requires Promoting(before, m, k, i) && k <= i && c in m && m[c].Fin? && m[c].k == i
    ensures Promoting(before, m[c := Inf], k, i)
  {
  }

  lemma PromoteNext(before: Trace, m: Trace, k: nat, i: int)
    requires Promoting(before, m, k, i) && forall c | c in m :: m[c].Inf? || m[c].k != i
    ensures Promoting(before, m, k, i - 1)
  {
  }

  lemma PromoteDone(before: Trace, m: Trace, k: nat)
    requires Promoting(before, m, k, k - 1)
    ensures m == Promoted(before, k)
  {
    forall c | c in before
      ensures m[c] == Promoted(before, k)[c]
    {
      assert PromotingOne(before[c], m[c], k, k - 1);
    }
  }

  // ----- verdicts -----

  /** The clauses hold at first, are kept by every step, and rule the literal
      out. */
  ghost predicate InductiveProof(tr: TransitionRelation, init: set<Cube>, bad: ID, proof: seq<Clause>) {
    && (forall v | Init(tr, init, v) :: Models(v, proof))
    && (forall v, w | tr.Step(v, w) && Models(v, proof) :: Models(w, proof))
    && (forall v | tr.Frame(v) && Models(v, proof) :: !Holds(v, bad))
  }

  /** Some execution of n steps ends in a frame where the literal is true. */
  ghost predicate ReachesIn(tr: TransitionRelation, init: set<Cube>, bad: ID, n: nat) {
    exists w :: ReachedIn(tr, init, w, n) && Holds(w, bad)
  }

  ghost predicate CanReach(tr: TransitionRelation, init: set<Cube>, bad: ID) {
    exists n: nat :: ReachesIn(tr, init, bad, n)
  }

  lemma {:induction false} ProofHolds(tr: TransitionRelation, init: set<Cube>, bad: ID, proof: seq<Clause>, v: Valuation, n: nat)
    requires InductiveProof(tr, init, bad, proof) && ReachedIn(tr, init, v, n)
    ensures Models(v, proof) && !Holds(v, bad)
    decreases n
  {
    if n > 0 {
      var u: Valuation :| ReachedIn(tr, init, u, n - 1) && tr.Step(u, v);
      ProofHolds(tr, init, bad, proof, u, n - 1);
    }
  }

  /** A proof rules out every execution to the bad literal. */
  lemma ProofMeansSafe(tr: TransitionRelation, init: set<Cube>, bad: ID, proof: seq<Clause>)
    requires InductiveProof(tr, init, bad, proof)
    ensures !CanReach(tr, init, bad)
  {
    forall n: nat, w | ReachedIn(tr, init, w, n)
      ensures !Holds(w, bad)
    {
      ProofHolds(tr, init, bad, proof, w, n);
    }
  }
}
