/** What blocking and generalising a cube establishes
    (src/pme/ic3/ic3_solver.cpp:385-543). */
module Generalizations {
  import opened Ids
  import opened Cubes
  import opened TransitionRelations
  import opened InductiveTraces
  import opened TraceInvariants

  /** s is fit to be a lemma above the frame f: it excludes the initial states, and f
      shields it. A clean s is inductive relative to f. */
  ghost predicate Blocks(tr: TransitionRelation, init: set<Cube>, f: set<Cube>, s: Cube, clean: bool) {
    && Ascending(s) && Initiated(tr, init, s)
    && (clean ==> Consecution(tr, f, s, s))
    && Shielded(tr, init, f, s)
  }

  /** So it excludes every state reached in at most k steps, if f contains all states
      reached in fewer. */
  lemma BlocksOut(tr: TransitionRelation, init: set<Cube>, f: set<Cube>, k: nat, s: Cube, clean: bool)
    requires k > 0 && Blocks(tr, init, f, s, clean) && Contains(tr, init, f, k - 1)
    ensures Out(tr, init, s, Fin(k))
  {
    ShieldedOut(tr, init, f, k, s);
  }

  /** Between a core and the cube it was extracted from, every cube is inductive
      relative to the frame. */
  lemma BetweenIsInductive(tr: TransitionRelation, f: set<Cube>, q: Cube, core: Cube, r: Cube)
    requires Consecution(tr, f, q, core) && SubCube(core, r) && SubCube(r, q)
    ensures Consecution(tr, f, r, r)
  {
    forall v, w | tr.Step(v, w) && Avoids(v, f) && !SatCube(v, r)
      ensures !SatCube(w, r)
    {
      if SatCube(v, q) {
        SubCubeWeaker(v, r, q);
      }
      if SatCube(w, r) {
        SubCubeWeaker(w, core, r);
      }
    }
  }

  /** block: the core of s, re-initiated against s itself. */
  lemma BlockStep(tr: TransitionRelation, init: set<Cube>, f: set<Cube>, s: Cube, core: Cube, r: Cube)
    requires Consecution(tr, f, s, core)
    requires SubCube(core, r) && SubCube(r, s) && Initiated(tr, init, r) && Ascending(r)
    ensures Blocks(tr, init, f, r, true)
  {
    BetweenIsInductive(tr, f, s, core, r);
    InductiveShields(tr, init, f, r, r, r);
  }

  // ----- what re-initiation returns -----

  /** The loop of reinitiate from position ti on: a literal that the core does not
      have is dropped if no initial state comes in. */
  ghost function Reinitiated(tr: TransitionRelation, init: set<Cube>, core: Cube, t: Cube, ti: nat): Cube
    requires ti <= |t|
    decreases |t| - ti
  {
    if ti == |t| then t
    else if t[ti] !in core && Initiated(tr, init, SubtractLit(t, ti)) then
      Reinitiated(tr, init, core, SubtractLit(t, ti), ti)
    else Reinitiated(tr, init, core, t, ti + 1)
  }

  /** initiate: the core itself if it excludes the initial states. */
  ghost function MadeInitiated(tr: TransitionRelation, init: set<Cube>, core: Cube, orig: Cube): Cube {
    if Initiated(tr, init, core) then core else Reinitiated(tr, init, core, orig, 0)
  }

  lemma {:induction false} ReinitiatedBetween(tr: TransitionRelation, init: set<Cube>, core: Cube, t: Cube, ti: nat)
    requires ti <= |t| && Ascending(t) && SubCube(core, t)
    ensures var r := Reinitiated(tr, init, core, t, ti);
      Ascending(r) && SubCube(core, r) && SubCube(r, t)
    decreases |t| - ti
  {
    if ti < |t| {
      if t[ti] !in core && Initiated(tr, init, SubtractLit(t, ti)) {
        SubtractKeeps(t, ti);
        forall lit | lit in core
          ensures lit in SubtractLit(t, ti)
        {
          assert lit in Lits(SubtractLit(t, ti));
        }
        ReinitiatedBetween(tr, init, core, SubtractLit(t, ti), ti);
      } else {
        ReinitiatedBetween(tr, init, core, t, ti + 1);
      }
    }
  }

  /** One step of generalizeIteration: q is s without lit, core a core of q, and
      r the core re-initiated against s, so lit may have come back. */
  lemma IterationStep(tr: TransitionRelation, init: set<Cube>, f: set<Cube>, s: Cube, lit: ID, q: Cube, core: Cube, r: Cube)
    requires Lits(q) == Lits(s) - {lit} && Initiated(tr, init, q)
    requires Consecution(tr, f, q, core) && SubCube(core, q)
    requires SubCube(core, r) && SubCube(r, s) && Initiated(tr, init, r) && Ascending(r)
    ensures Blocks(tr, init, f, r, lit !in r)
  {
    InductiveShields(tr, init, f, q, core, r);
    if lit !in r {
      forall x | x in r
        ensures x in q
      {
        assert x in Lits(s) && x in Lits(q);
      }
      BetweenIsInductive(tr, f, q, core, r);
    }
  }

  // ----- what block may return -----

  /** The loop of generalizeIteration at position i: without the literal there the
      cube admits an initial state, or is not blocked, or is replaced by a core
      that was re-initiated. */
  ghost predicate Tries(tr: TransitionRelation, init: set<Cube>, f: set<Cube>, repaired: bool,
                        t: Cube, i: nat, t': Cube, i': nat) {
    && i < |t| && |t| > 1
    && var copy := SubtractLit(t, i);
      if Initiated(tr, init, copy) && Consecution(tr, f, copy, copy) then
        exists core :: Answers(tr, f, copy, core) && t' == MadeInitiated(tr, init, core, if repaired then copy else t)
          && FirstAfter(t', t[i], i')
      else t' == t && i' == i + 1
  }

  /** The query may be answered with the core. */
  ghost predicate Answers(tr: TransitionRelation, f: set<Cube>, s: Cube, core: Cube) {
    Ascending(core) && SubCube(core, s) && Consecution(tr, f, s, core)
  }

  predicate FirstAfter(t: Cube, lit: ID, i: nat) {
    i <= |t| && (i < |t| ==> t[i] > lit) && forall j | 0 <= j < i :: t[j] <= lit
  }

  /** A cube, and the position of the literal to try next. */
  datatype Attempt = Attempt(cube: Cube, pos: nat)

  ghost predicate TriesNext(tr: TransitionRelation, init: set<Cube>, f: set<Cube>, repaired: bool, a: Attempt, b: Attempt) {
    Tries(tr, init, f, repaired, a.cube, a.pos, b.cube, b.pos)
  }

  /** Each attempt follows from the one before. */
  ghost predicate Tried(tr: TransitionRelation, init: set<Cube>, f: set<Cube>, repaired: bool, path: seq<Attempt>) {
    |path| > 0 && forall k | 1 <= k < |path| :: TriesNext(tr, init, f, repaired, path[k - 1], path[k])
  }

  ghost predicate TriedTo(tr: TransitionRelation, init: set<Cube>, f: set<Cube>, repaired: bool, s: Cube, path: seq<Attempt>) {
    && Tried(tr, init, f, repaired, path) && path[0] == Attempt(s, 0)
    && var last := path[|path| - 1];
      last.pos >= |last.cube| || |last.cube| <= 1
  }

  /** generalizeIteration may turn s into t. */
  ghost predicate OnePass(tr: TransitionRelation, init: set<Cube>, f: set<Cube>, repaired: bool, s: Cube, t: Cube) {
    exists path: seq<Attempt> :: TriedTo(tr, init, f, repaired, s, path) && path[|path| - 1].cube == t
  }

  /** Each cube comes from the one before in one pass. */
  ghost predicate Passed(tr: TransitionRelation, init: set<Cube>, f: set<Cube>, repaired: bool, path: seq<Cube>) {
    |path| > 0 && forall k | 1 <= k < |path| :: OnePass(tr, init, f, repaired, path[k - 1], path[k])
  }

  /** generalize may turn s into t: its last pass changed no size. */
  ghost predicate MayGeneralize(tr: TransitionRelation, init: set<Cube>, f: set<Cube>, repaired: bool, s: Cube, t: Cube) {
    exists path: seq<Cube> :: Passed(tr, init, f, repaired, path) && path[0] == s && Finished(path) && path[|path| - 1] == t
  }

  predicate Finished(path: seq<Cube>) {
    |path| > 1 && |path[|path| - 1]| == |path[|path| - 2]|
  }

  /** block may answer s with the lemma t. */
  ghost predicate MayBlock(tr: TransitionRelation, init: set<Cube>, f: set<Cube>, repaired: bool, s: Cube, t: Cube) {
    exists core :: Answers(tr, f, s, core) && MayGeneralize(tr, init, f, repaired, MadeInitiated(tr, init, core, s), t)
  }

  lemma TryNext(tr: TransitionRelation, init: set<Cube>, f: set<Cube>, repaired: bool, path: seq<Attempt>, a: Attempt)
    requires Tried(tr, init, f, repaired, path) && TriesNext(tr, init, f, repaired, path[|path| - 1], a)
    ensures Tried(tr, init, f, repaired, path + [a])
  {
    var more := path + [a];
    forall k | 1 <= k < |more|
      ensures TriesNext(tr, init, f, repaired, more[k - 1], more[k])
    {
      if k < |path| {
        assert more[k] == path[k];
      }
      assert more[k - 1] == path[k - 1];
    }
  }

  /** What a core excludes, the whole cube excludes. */
  lemma CoreBlocks(tr: TransitionRelation, f: set<Cube>, s: Cube, core: Cube)
    requires Answers(tr, f, s, core)
    ensures Consecution(tr, f, s, s)
  {
    forall v, w | tr.Step(v, w) && Avoids(v, f) && !SatCube(v, s)
      ensures !SatCube(w, s)
    {
      if SatCube(w, s) {
        SubCubeWeaker(w, core, s);
      }
    }
  }

  lemma PassNext(tr: TransitionRelation, init: set<Cube>, f: set<Cube>, repaired: bool, path: seq<Cube>, u: Cube)
    requires Passed(tr, init, f, repaired, path) && OnePass(tr, init, f, repaired, path[|path| - 1], u)
    ensures Passed(tr, init, f, repaired, path + [u])
    ensures |u| == |path[|path| - 1]| ==> MayGeneralize(tr, init, f, repaired, path[0], u)
  {
    var more := path + [u];
    forall k | 1 <= k < |more|
      ensures OnePass(tr, init, f, repaired, more[k - 1], more[k])
    {
      if k < |path| {
        assert more[k] == path[k];
      }
      assert more[k - 1] == path[k - 1];
    }
    assert more[|more| - 1] == u && more[|more| - 2] == path[|path| - 1];
  }

  /** A state of the frame in q but not satisfying lit that steps into r. */
  ghost predicate Escapes(tr: TransitionRelation, f: set<Cube>, q: Cube, lit: ID, r: Cube) {
    exists v, w :: tr.Step(v, w) && Avoids(v, f) && SatCube(v, q) && !Holds(v, lit) && SatCube(w, r)
  }

  /** Exactly when the generalised cube is inductive relative to the frame: what
      re-initiation makes of the core does not have the dropped literal, or its
      return does no harm. */
  lemma GeneralizeExact(tr: TransitionRelation, init: set<Cube>, f: set<Cube>, s: Cube, lit: ID, q: Cube, core: Cube)
    requires Ascending(s) && Lits(q) == Lits(s) - {lit} && SubCube(q, s)
    requires Consecution(tr, f, q, core) && SubCube(core, q)
    ensures var r := MadeInitiated(tr, init, core, s);
      Consecution(tr, f, r, r) <==> lit !in r || !Escapes(tr, f, q, lit, r)
  {
    var r := MadeInitiated(tr, init, core, s);
    ReinitiatedBetween(tr, init, core, s, 0);
    if lit in r && Escapes(tr, f, q, lit, r) {
      var v, w :| tr.Step(v, w) && Avoids(v, f) && SatCube(v, q) && !Holds(v, lit) && SatCube(w, r);
      assert !SatCube(v, r);
    } else {
      forall v, w | tr.Step(v, w) && Avoids(v, f) && !SatCube(v, r)
        ensures !SatCube(w, r)
      {
        if SatCube(w, r) {
          SubCubeWeaker(w, core, r);
          assert SatCube(v, q);
          AllButOne(v, s, lit, q, r);
        }
      }
    }
  }

  lemma AllButOne(v: Valuation, s: Cube, lit: ID, q: Cube, r: Cube)
    requires Lits(q) == Lits(s) - {lit} && SubCube(r, s)
    requires SatCube(v, q) && !SatCube(v, r)
    ensures lit in r && !Holds(v, lit)
  {
    var x :| x in r && !Holds(v, x);
    assert x in Lits(s);
    assert x in q ==> Holds(v, x);
    assert x in Lits(q) <==> x in q;
  }

  /** The trace that lemma r produces keeps its promise. */
  lemma BlockedLemmaOk(tr: TransitionRelation, init: set<Cube>, m: Trace, tainted: set<Cube>, k: nat, r: Cube, clean: bool)
    requires k > 0 && TraceOk(tr, init, m, tainted) && Blocks(tr, init, FrameCubes(m, Fin(k - 1)), r, clean)
    requires r in m ==> Le(m[r], Fin(k))
    ensures TraceOk(tr, init, m[r := Fin(k)], if clean then tainted - {r} else tainted + {r})
    ensures FrameCubes(m[r := Fin(k)], Inf) == FrameCubes(m, Inf)
  {
    if clean {
      BlockedSupported(tr, m, k, r, r, r);
    }
    AddOk(tr, init, m, tainted, r, k, clean);
  }

  // ----- re-initiation -----

  /** Some literals that no initial state satisfies together. */
  ghost predicate LitsInitiated(tr: TransitionRelation, init: set<Cube>, lits: set<ID>) {
    lits != {} && forall v | Init(tr, init, v) :: !SatAll(v, lits)
  }

  lemma InitiatedByLits(tr: TransitionRelation, init: set<Cube>, c: Cube)
    ensures Initiated(tr, init, c) <==> LitsInitiated(tr, init, Lits(c))
  {
    NoLits(c);
    forall v
      ensures SatCube(v, c) <==> SatAll(v, Lits(c))
    {
      assert forall lit :: lit in c <==> lit in Lits(c);
    }
  }

  lemma MoreLitsInitiated(tr: TransitionRelation, init: set<Cube>, lits: set<ID>, more: set<ID>)
    requires LitsInitiated(tr, init, lits) && lits <= more
    ensures LitsInitiated(tr, init, more)
  {
  }

  /** Without this literal the set would admit an initial state. */
  ghost predicate Needed(tr: TransitionRelation, init: set<Cube>, lits: set<ID>, lit: ID) {
    !LitsInitiated(tr, init, lits - {lit})
  }

  lemma StillNeeded(tr: TransitionRelation, init: set<Cube>, lits: set<ID>, fewer: set<ID>, lit: ID)
    requires Needed(tr, init, lits, lit) && fewer <= lits
    ensures Needed(tr, init, fewer, lit)
  {
    if LitsInitiated(tr, init, fewer - {lit}) {
      MoreLitsInitiated(tr, init, fewer - {lit}, lits - {lit});
    }
  }

  lemma ProperSub(s: Cube, orig: Cube)
    requires Ascending(s) && Ascending(orig) && SubCube(s, orig) && s != orig
    ensures |s| < |orig|
  {
    SubCubeSize(s, orig);
    if |s| == |orig| {
      LitsSize(s);
      LitsSize(orig);
      assert |Lits(orig)| == |Lits(s)| + |Lits(orig) - Lits(s)| by {
        assert Lits(orig) == Lits(s) + (Lits(orig) - Lits(s));
      }
      assert Lits(orig) - Lits(s) == {};
      AscendingUnique(s, orig);
    }
  }

  lemma ZeroFrameIsInit(tr: TransitionRelation, init: set<Cube>, m: Trace, v: Valuation)
    requires InitOk(tr, init, m)
    ensures tr.Frame(v) && Avoids(v, FrameCubes(m, Fin(0))) <==> Init(tr, init, v)
  {
    assert FrameCubes(m, Fin(0)) == m.Keys;
    if Init(tr, init, v) {
      forall c | c in m.Keys
        ensures !SatCube(v, c)
      {
        assert Initiated(tr, init, c);
      }
    }
  }

  /** s[..si] lies within t[..ti], and s[si..] within t[ti..]. */
  ghost predicate Matching(s: Cube, t: Cube, si: nat, ti: nat) {
    && si <= |s| && ti <= |t| && Ascending(s) && Ascending(t) && SubCube(s, t)
    && (forall i, j | 0 <= i < si && ti <= j < |t| :: s[i] < t[j])
    && (forall i, j | si <= i < |s| && 0 <= j < ti :: t[j] < s[i])
  }

  lemma MatchingOrdered(s: Cube, t: Cube, si: nat, ti: nat)
    requires Matching(s, t, si, ti) && ti < |t|
    ensures si == |s| || t[ti] <= s[si]
  {
    if si < |s| {
      assert s[si] in t;
      var j :| 0 <= j < |t| && t[j] == s[si];
    }
  }

  lemma MatchingBoth(s: Cube, t: Cube, si: nat, ti: nat)
    requires Matching(s, t, si, ti) && si < |s| && ti < |t| && s[si] == t[ti]
    ensures Matching(s, t, si + 1, ti + 1)
  {
  }

  /** A literal that does not match is not in s at all. */
  lemma MatchingMiss(s: Cube, t: Cube, si: nat, ti: nat)
    requires Matching(s, t, si, ti) && ti < |t| && (si < |s| ==> s[si] != t[ti])
    ensures t[ti] !in s && Matching(s, t, si, ti + 1)
  {
    MatchingOrdered(s, t, si, ti);
    forall i | 0 <= i < |s|
      ensures s[i] != t[ti]
    {
      if i >= si {
        assert s[si] <= s[i];
      }
    }
  }

  lemma MatchingDrop(s: Cube, t: Cube, si: nat, ti: nat)
    requires Matching(s, t, si, ti) && ti < |t| && t[ti] !in s
    ensures Matching(s, SubtractLit(t, ti), si, ti) && SubCube(SubtractLit(t, ti), t)
  {
    SubtractKeeps(t, ti);
    var c := SubtractLit(t, ti);
    forall lit | lit in s
      ensures lit in c
    {
      assert lit in Lits(t) - {t[ti]};
      assert lit in Lits(c);
    }
  }

  lemma DropKeepsNeeded(tr: TransitionRelation, init: set<Cube>, s: Cube, t: Cube, ti: nat)
    requires Ascending(t) && ti < |t|
    requires Settled(tr, init, s, t, ti)
    ensures Settled(tr, init, s, SubtractLit(t, ti), ti)
  {
    var c := SubtractLit(t, ti);
    SubtractKeeps(t, ti);
    forall j | 0 <= j < ti
      ensures c[j] in s || Needed(tr, init, Lits(c), c[j])
    {
      assert c[j] == t[j];
      if t[j] !in s {
        StillNeeded(tr, init, Lits(t), Lits(c), t[j]);
      }
    }
  }

  lemma UpperBoundAfterDrop(c: Cube, ti: nat, lit: ID, next: nat)
    requires ti <= |c| && (forall j | 0 <= j < ti :: c[j] < lit) && (forall j | ti <= j < |c| :: c[j] > lit)
    requires next <= |c| && (next < |c| ==> c[next] > lit) && forall j :: 0 <= j < next ==> c[j] <= lit
    ensures next == ti
  {
    assert ti < |c| ==> c[ti] > lit;
  }

  /** What is left to try shrinks, whatever the new cube is. */
  lemma RemainderShrinks(r: Cube, t: Cube, i: nat, next: nat)
    requires Ascending(r) && Ascending(t) && SubCube(r, t) && i < |t|
    requires next <= |r| && (next < |r| ==> r[next] > t[i])
    ensures |r| - next < |t| - i
  {
    var left, right := r[next..], t[i + 1..];
    forall j | 0 <= j < |left|
      ensures left[j] in right
    {
      assert r[next] <= r[next + j];
      assert r[next + j] in t;
      var n :| 0 <= n < |t| && t[n] == r[next + j];
      assert t[n] == right[n - i - 1];
    }
    SubCubeSize(left, right);
  }

  /** The loop of reinitiate: t[..ti] is settled, each literal being in s or
      indispensable. */
  ghost predicate Reinitiating(tr: TransitionRelation, init: set<Cube>, s: Cube, orig: Cube, t: Cube, si: nat, ti: nat) {
    && Matching(s, t, si, ti) && SubCube(t, orig) && Initiated(tr, init, t)
    && Settled(tr, init, s, t, ti)
  }

  ghost predicate Settled(tr: TransitionRelation, init: set<Cube>, s: Cube, t: Cube, n: nat)
    requires n <= |t|
  {
    forall j | 0 <= j < n :: t[j] in s || Needed(tr, init, Lits(t), t[j])
  }

  lemma ReinitiateMatch(tr: TransitionRelation, init: set<Cube>, s: Cube, orig: Cube, t: Cube, si: nat, ti: nat)
    requires Reinitiating(tr, init, s, orig, t, si, ti) && si < |s| && ti < |t| && s[si] == t[ti]
    ensures Reinitiating(tr, init, s, orig, t, si + 1, ti + 1)
    ensures Reinitiated(tr, init, s, t, ti + 1) == Reinitiated(tr, init, s, t, ti)
  {
    MatchingBoth(s, t, si, ti);
  }

  /** From positions si and ti on, the next n literals are the same. */
  ghost predicate Agree(s: Cube, t: Cube, si: nat, ti: nat, n: nat) {
    && si + n <= |s| && ti + n <= |t|
    && forall j | ti <= j < ti + n :: t[j] == s[si + (j - ti)]
  }

  lemma ReinitiateDrop(tr: TransitionRelation, init: set<Cube>, s: Cube, orig: Cube, t: Cube, si: nat, ti: nat)
    requires Reinitiating(tr, init, s, orig, t, si, ti) && ti < |t| && (si < |s| ==> s[si] != t[ti])
    requires Initiated(tr, init, SubtractLit(t, ti))
    ensures Reinitiating(tr, init, s, orig, SubtractLit(t, ti), si, ti)
  {
    MatchingMiss(s, t, si, ti);
    MatchingDrop(s, t, si, ti);
    DropKeepsNeeded(tr, init, s, t, ti);
  }

  lemma ReinitiateKeep(tr: TransitionRelation, init: set<Cube>, s: Cube, orig: Cube, t: Cube, si: nat, ti: nat)
    requires Reinitiating(tr, init, s, orig, t, si, ti) && ti < |t| && (si < |s| ==> s[si] != t[ti])
    requires !Initiated(tr, init, SubtractLit(t, ti))
    ensures Reinitiating(tr, init, s, orig, t, si, ti + 1)
  {
    MatchingMiss(s, t, si, ti);
    SubtractKeeps(t, ti);
    InitiatedByLits(tr, init, SubtractLit(t, ti));
  }

  /** The loop of reinitiate on its way to goal, kept folded: the argument n does
      not matter. */
  ghost predicate ReinitiateFolded(tr: TransitionRelation, init: set<Cube>, s: Cube, orig: Cube, t: Cube, si: nat, ti: nat,
                                   goal: Cube, n: nat)
    decreases n
  {
    if n == 0 then Reinitiating(tr, init, s, orig, t, si, ti) && Reinitiated(tr, init, s, t, ti) == goal
    else ReinitiateFolded(tr, init, s, orig, t, si, ti, goal, n - 1)
  }

  ghost predicate ReinitiateOk(tr: TransitionRelation, init: set<Cube>, s: Cube, orig: Cube, t: Cube, si: nat, ti: nat,
                               goal: Cube) {
    && si <= |s| && ti <= |t|
    && ReinitiateFolded(tr, init, s, orig, t, si, ti, goal, |orig|)
  }

  lemma {:induction false} ReinitiateUnfold(tr: TransitionRelation, init: set<Cube>, s: Cube, orig: Cube, t: Cube, si: nat,
                                            ti: nat, goal: Cube, n: nat)
    ensures ReinitiateFolded(tr, init, s, orig, t, si, ti, goal, n) <==>
      Reinitiating(tr, init, s, orig, t, si, ti) && Reinitiated(tr, init, s, t, ti) == goal
    decreases n
  {
    if n > 0 {
      ReinitiateUnfold(tr, init, s, orig, t, si, ti, goal, n - 1);
    }
  }

  lemma ReinitiateStarts(tr: TransitionRelation, init: set<Cube>, s: Cube, orig: Cube)
    requires Ascending(s) && Ascending(orig) && SubCube(s, orig) && Initiated(tr, init, orig)
    ensures ReinitiateOk(tr, init, s, orig, orig, 0, 0, Reinitiated(tr, init, s, orig, 0))
  {
    ReinitiateUnfold(tr, init, s, orig, orig, 0, 0, Reinitiated(tr, init, s, orig, 0), |orig|);
  }

  lemma ReinitiateOrdered(tr: TransitionRelation, init: set<Cube>, s: Cube, orig: Cube, t: Cube, si: nat, ti: nat, goal: Cube)
    requires ReinitiateOk(tr, init, s, orig, t, si, ti, goal) && ti < |t|
    ensures si == |s| || t[ti] <= s[si]
  {
    ReinitiateUnfold(tr, init, s, orig, t, si, ti, goal, |orig|);
    MatchingOrdered(s, t, si, ti);
  }

  lemma ReinitiateNext(tr: TransitionRelation, init: set<Cube>, s: Cube, orig: Cube, t: Cube, si: nat, ti: nat, goal: Cube)
    requires ReinitiateOk(tr, init, s, orig, t, si, ti, goal) && si < |s| && ti < |t| && s[si] == t[ti]
    ensures ReinitiateOk(tr, init, s, orig, t, si + 1, ti + 1, goal)
  {
    ReinitiateUnfold(tr, init, s, orig, t, si, ti, goal, |orig|);
    ReinitiateMatch(tr, init, s, orig, t, si, ti);
    ReinitiateUnfold(tr, init, s, orig, t, si + 1, ti + 1, goal, |orig|);
  }

  lemma {:induction false} ReinitiateSkips(tr: TransitionRelation, init: set<Cube>, s: Cube, orig: Cube, t: Cube, si: nat,
                                           ti: nat, n: nat, goal: Cube)
    requires ReinitiateOk(tr, init, s, orig, t, si, ti, goal) && Agree(s, t, si, ti, n)
    ensures ReinitiateOk(tr, init, s, orig, t, si + n, ti + n, goal)
    decreases n
  {
    if n > 0 {
      ReinitiateSkips(tr, init, s, orig, t, si, ti, n - 1, goal);
      ReinitiateNext(tr, init, s, orig, t, si + (n - 1), ti + (n - 1), goal);
    }
  }

  lemma ReinitiateEnds(tr: TransitionRelation, init: set<Cube>, s: Cube, orig: Cube, t: Cube, si: nat, goal: Cube)
    requires ReinitiateOk(tr, init, s, orig, t, si, |t|, goal)
    ensures t == goal && Ascending(t) && SubCube(s, t) && SubCube(t, orig) && Initiated(tr, init, t)
    ensures forall lit | lit in t && lit !in s :: Needed(tr, init, Lits(t), lit)
  {
    ReinitiateUnfold(tr, init, s, orig, t, si, |t|, goal, |orig|);
  }

  lemma DropBounds(t: Cube, ti: nat, next: nat)
    requires Ascending(t) && ti < |t|
    requires var c := SubtractLit(t, ti);
      next <= |c| && (next < |c| ==> c[next] > t[ti]) && forall j :: 0 <= j < next ==> c[j] <= t[ti]
    ensures next == ti
  {
    UpperBoundAfterDrop(SubtractLit(t, ti), ti, t[ti], next);
  }
}
