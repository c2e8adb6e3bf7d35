/** IC3 (src/pme/ic3/ic3_solver.cpp). */
module Ic3Solvers {
  import opened Pushings
  import opened Collections
  import opened Ids
  import opened Cubes
  import opened TransitionRelations
  import opened InductiveTraces
  import opened TraceInvariants
  import opened FrameSolvers
  import opened UnsatCoreLifters
  import opened Generalizations
  import opened ProofObligations
  import opened BlockRuns
  import opened Counterexamples

  /** Uninitiated is the failing assertion that the cube to re-initiate against
      excludes the initial states. */
  datatype BlockResult =
    | Blocked(level: nat, cti: Cube)
    | NotBlocked(cti: Cube, concreteState: Cube, inputs: set<ID>, primedInputs: set<ID>)
    | Uninitiated

  datatype SafetyResult = Safe(proof: seq<Clause>) | Unsafe(cex: seq<CexStep>)

  datatype RecBlockResult = AllBlocked | Reached(cex: seq<CexStep>)

  class Ic3Solver {
    const tr: TransitionRelation
    const trace: InductiveTrace
    /** Which cube a generalised core is re-initiated against: with false the one
        that still has the dropped literal, as in the source (line 453); with true
        the one that was queried, as in block. */
    const repaired: bool
    var cons: FrameSolver
    var lift: UnsatCoreLifter
    var initConstraints: seq<Cube>
    var obls: Pool
    /** The cubes that the initial states exclude. */
    ghost var init: set<Cube>
    /** The lemmas not known to be supported by the frame below. */
    ghost var tainted: set<Cube>

    /** No lemma of a repaired solver lacks support. */
    ghost predicate Clean()
      reads this
    {
      repaired ==> tainted == {}
    }

    /** The solvers look at this trace and know its lemmas. */
    ghost predicate Wired()
      reads this, trace, cons, lift
    {
      && cons.tr == tr && cons.trace == trace && cons.Valid()
      && lift.tr == tr && lift.trace == trace && lift.Valid()
    }

    constructor (tr: TransitionRelation, repaired: bool := false)
      requires tr.WellFormed() && tr.latches != []
      ensures this.tr == tr && this.repaired == repaired && Valid() && fresh(cons) && fresh(lift) && fresh(trace)
      ensures init == CubeSet(tr.ResetCubes()) && tainted == {} && initConstraints == []
      ensures forall v :: Init(tr, init, v) <==> tr.Frame(v) && tr.Starts(v)
    {
      this.tr, this.repaired := tr, repaired;
      var t := new InductiveTrace();
      trace := t;
      cons := new FrameSolver(tr, t);
      lift := new UnsatCoreLifter(tr, t);
      initConstraints, obls, init, tainted := [], [], {}, {};
      new;
      EmptySolverOk(tr);
      Initialize();
      InitIs(tr, [], init);
    }

    /** initialize: initial-state cubes not yet known enter at level 0, and the
        solvers start afresh. */
    method Initialize()
      requires trace.Valid() && SolverOk(tr, init, trace.levels, tainted) && Clean()
      requires ConstraintsOk(tr, initConstraints)
      modifies this, trace
      ensures Valid() && fresh(cons) && fresh(lift)
      ensures initConstraints == old(initConstraints) && tainted == old(tainted)
      ensures init == old(init) + CubeSet(tr.ResetCubes()) + CubeSet(initConstraints)
      ensures trace.levels == Restricted(old(trace.levels), CubeSet(tr.ResetCubes()) + CubeSet(initConstraints))
    {
      SolverOkIs(tr, init, trace.levels, tainted);
      ResetCubesOk(tr);
      AddInitCubes(tr.ResetCubes());
      AddInitCubes(initConstraints);
      RestrictedTwice(old(trace.levels), CubeSet(tr.ResetCubes()), CubeSet(initConstraints));
      cons := new FrameSolver(tr, trace);
      lift := new UnsatCoreLifter(tr, trace);
    }

    method AddInitCubes(cubes: seq<Cube>)
      requires trace.Valid() && SolverOk(tr, init, trace.levels, tainted) && ConstraintsOk(tr, cubes)
      modifies `init, trace
      ensures trace.Valid() && SolverOk(tr, init, trace.levels, tainted)
      ensures init == old(init) + CubeSet(cubes)
      ensures trace.levels == Restricted(old(trace.levels), CubeSet(cubes))
    {
      RestrictedNone(trace.levels);
      for i := 0 to |cubes|
        invariant trace.Valid() && SolverOk(tr, init, trace.levels, tainted)
        invariant init == old(init) + CubeSet(cubes[..i])
        invariant trace.levels == Restricted(old(trace.levels), CubeSet(cubes[..i]))
      {
        CubeSetNext(cubes, i);
        assert cubes[i] in cubes;
        RestrictedTwice(old(trace.levels), CubeSet(cubes[..i]), {cubes[i]});
        RestrictSolverOk(tr, init, trace.levels, tainted, cubes[i]);
        KnownCubes(trace);
        if cubes[i] !in trace.cubeToLemmaID {
          var id := trace.AddLemma(cubes[i], Fin(0));
        }
        init := init + {cubes[i]};
      }
      assert cubes[..|cubes|] == cubes;
    }

    /** initialStatesExpanded: forgets every lemma. */
    method InitialStatesExpanded()
      requires Valid()
      modifies this, trace
      ensures Valid() && fresh(cons) && fresh(lift)
      ensures initConstraints == old(initConstraints) && tainted == {}
      ensures init == CubeSet(tr.ResetCubes()) + CubeSet(initConstraints)
      ensures forall v :: Init(tr, init, v) <==> tr.Frame(v) && tr.Starts(v) && Avoids(v, CubeSet(initConstraints))
    {
      SolverOkIs(tr, init, trace.levels, tainted);
      trace.Clear();
      init, tainted := {}, {};
      EmptySolverOk(tr);
      Initialize();
      InitIs(tr, initConstraints, init);
    }

    /** initialStatesRestricted: keeps every lemma at its level. */
    method InitialStatesRestricted()
      requires Valid()
      modifies this, trace
      ensures Valid() && fresh(cons) && fresh(lift)
      ensures initConstraints == old(initConstraints) && tainted == old(tainted)
      ensures init == old(init) + CubeSet(tr.ResetCubes()) + CubeSet(initConstraints)
      ensures trace.levels == Restricted(old(trace.levels), CubeSet(tr.ResetCubes()) + CubeSet(initConstraints))
    {
      Initialize();
    }

    method ClearRestrictions()
      requires Valid()
      modifies `initConstraints
      ensures Valid() && initConstraints == []
    {
      initConstraints := [];
    }

    /** restrictInitialStates: a clause over latches that initial states must
        satisfy, effective from the next re-initialisation. */
    method RestrictInitialStates(cls: Clause)
      requires Valid() && cls != [] && OverLatches(tr, cls)
      modifies `initConstraints
      ensures Valid() && |initConstraints| == old(|initConstraints|) + 1
      ensures old(initConstraints) == initConstraints[..|initConstraints| - 1]
      ensures forall v :: SatCube(v, initConstraints[|initConstraints| - 1]) <==> !SatClause(v, cls)
    {
      var sorted := SortLits(set lit | lit in cls :: Negate(lit));
      NegatedClauseCube(tr, cls, sorted);
      initConstraints := initConstraints + [sorted];
    }

    // ----- blocking one cube -----

    method Initiation(s: Cube) returns (r: bool)
      requires Wired() && SolverOk(tr, init, trace.levels, tainted)
      modifies cons
      ensures Wired()
      ensures r <==> Initiated(tr, init, s)
    {
      if s == [] {
        return false;
      }
      SolverOkIs(tr, init, trace.levels, tainted);
      var sat, state, inputs, v := cons.Intersection(Fin(0), s);
      forall x
        ensures tr.Frame(x) && Avoids(x, FrameCubes(trace.levels, Fin(0))) <==> Init(tr, init, x)
      {
        ZeroFrameIsInit(tr, init, trace.levels, x);
      }
      r := !sat;
    }

    /** reinitiate: drops from orig what s does not have, as long as no initial
        state comes in. The result is a smallest such cube above s. */
    method Reinitiate(s: Cube, orig: Cube) returns (t: Cube)
      requires Wired() && SolverOk(tr, init, trace.levels, tainted)
      requires Ascending(s) && Ascending(orig) && SubCube(s, orig)
      requires Initiated(tr, init, orig)
      modifies cons
      ensures Wired()
      ensures Ascending(t) && SubCube(s, t) && SubCube(t, orig) && Initiated(tr, init, t)
      ensures forall lit | lit in t && lit !in s :: Needed(tr, init, Lits(t), lit)
      ensures t == Reinitiated(tr, init, s, orig, 0)
    {
      t := orig;
      var si: nat, ti: nat := 0, 0;
      ghost var goal := Reinitiated(tr, init, s, orig, 0);
      ReinitiateStarts(tr, init, s, orig);
      while ti < |t|
        invariant Wired() && ReinitiateOk(tr, init, s, orig, t, si, ti, goal)
        decreases |t| - ti
      {
        ReinitiateOrdered(tr, init, s, orig, t, si, ti, goal);
        assert si == |s| || t[ti] <= s[si];
        var si', ti' := SkipMatching(s, t, si, ti);
        ReinitiateSkips(tr, init, s, orig, t, si, ti, si' - si, goal);
        si, ti := si', ti';
        if ti == |t| {
          break;
        }
        t, ti := DropOrKeep(s, orig, t, si, ti, goal);
      }
      ReinitiateEnds(tr, init, s, orig, t, si, goal);
    }

    /** One literal that the core does not have. */
    method DropOrKeep(s: Cube, orig: Cube, t0: Cube, ghost si: nat, ti0: nat, ghost goal: Cube) returns (t: Cube, ti: nat)
      requires Wired() && SolverOk(tr, init, trace.levels, tainted)
      requires ReinitiateOk(tr, init, s, orig, t0, si, ti0, goal) && ti0 < |t0| && (si < |s| ==> s[si] != t0[ti0])
      modifies cons
      ensures Wired() && ReinitiateOk(tr, init, s, orig, t, si, ti, goal) && |t| - ti < |t0| - ti0
    {
      t, ti := t0, ti0;
      ReinitiateUnfold(tr, init, s, orig, t, si, ti, goal, |orig|);
      var lit := t[ti];
      var copy := SubtractLit(t, ti);
      var initiated := Initiation(copy);
      MatchingMiss(s, t, si, ti);
      if initiated {
        ReinitiateDrop(tr, init, s, orig, t, si, ti);
        var next := UpperBound(copy, lit);
        DropBounds(t, ti, next);
        t, ti := copy, next;
      } else {
        ReinitiateKeep(tr, init, s, orig, t, si, ti);
        ti := ti + 1;
      }
      ReinitiateUnfold(tr, init, s, orig, t, si, ti, goal, |orig|);
    }

    /** Advances both positions while the cubes agree. */
    static method SkipMatching(s: Cube, t: Cube, si0: nat, ti0: nat) returns (si: nat, ti: nat)
      requires si0 <= |s| && ti0 <= |t|
      ensures si0 <= si && ti == ti0 + (si - si0) && Agree(s, t, si0, ti0, si - si0)
      ensures si < |s| && ti < |t| ==> s[si] != t[ti]
    {
      si, ti := si0, ti0;
      while si < |s| && ti < |t| && s[si] == t[ti]
        invariant si0 <= si && ti == ti0 + (si - si0) && Agree(s, t, si0, ti0, si - si0)
      {
        si, ti := si + 1, ti + 1;
      }
    }

    /** initiate: leaves an initiated cube alone, and re-initiates any other
        against orig, which must itself be initiated. */
    method Initiate(s: Cube, orig: Cube) returns (t: Cube, ok: bool)
      requires Wired() && SolverOk(tr, init, trace.levels, tainted)
      requires Ascending(s) && Ascending(orig) && SubCube(s, orig)
      modifies cons
      ensures Wired()
      ensures ok ==> Ascending(t) && SubCube(s, t) && SubCube(t, orig) && Initiated(tr, init, t)
      ensures ok ==> t == MadeInitiated(tr, init, s, orig)
      ensures !ok ==> !Initiated(tr, init, orig)
    {
      t := s;
      ok := Initiation(s);
      if !ok {
        ok := Initiation(orig);
        if ok {
          ProperSub(s, orig);
          assert |s| < |orig|;
          t := Reinitiate(s, orig);
        }
      }
    }

    /** Tries to drop the literal at position i. The core is re-initiated against
        the cube that still has the literal, unless the solver is repaired. */
    method TryLiteral(t: Cube, i: nat, k: nat, ghost wasClean: bool) returns (t': Cube, i': nat, ghost clean: bool)
      requires Wired() && SolverOk(tr, init, trace.levels, tainted) && i < |t| && |t| > 1
      requires k > 0 && Blocks(tr, init, FrameCubes(trace.levels, Fin(k - 1)), t, wasClean)
      modifies cons
      ensures Wired() && SubCube(t', t) && i' <= |t'| && |t'| - i' < |t| - i
      ensures Blocks(tr, init, FrameCubes(trace.levels, Fin(k - 1)), t', clean) && (repaired && wasClean ==> clean)
      ensures Tries(tr, init, FrameCubes(trace.levels, Fin(k - 1)), repaired, t, i, t', i')
    {
      ghost var f := FrameCubes(trace.levels, Fin(k - 1));
      t', i', clean := t, i + 1, wasClean;
      var lit := t[i];
      SubtractKeeps(t, i);
      var copy := SubtractLit(t, i);
      var initiated := Initiation(copy);
      if initiated {
        var consecutive, pred, inp, pinp, core, v, w := cons.Consecution(Fin(k - 1), copy) by {
          CircuitKnown(tr, init, trace.levels, tainted);
        }
        if consecutive {
          var r, ok := Initiate(core, if repaired then copy else t);
          assert SubCube(r, copy) ==> lit !in r && SubCube(r, t);
          IterationStep(tr, init, f, t, lit, copy, core, r);
          var next := UpperBound(r, lit);
          RemainderShrinks(r, t, i, next);
          assert Answers(tr, f, copy, core);
          t', i', clean := r, next, lit !in r;
        }
      }
    }

    /** generalizeIteration: tries to drop each literal once. */
    method GeneralizeIteration(s: Cube, k: nat, ghost wasClean: bool) returns (t: Cube, ghost clean: bool)
      requires Wired() && SolverOk(tr, init, trace.levels, tainted)
      requires k > 0 && Blocks(tr, init, FrameCubes(trace.levels, Fin(k - 1)), s, wasClean)
      modifies cons
      ensures Wired()
      ensures SubCube(t, s) && Blocks(tr, init, FrameCubes(trace.levels, Fin(k - 1)), t, clean)
      ensures repaired && wasClean ==> clean
      ensures OnePass(tr, init, FrameCubes(trace.levels, Fin(k - 1)), repaired, s, t)
    {
      ghost var f := FrameCubes(trace.levels, Fin(k - 1));
      t, clean := s, wasClean;
      var i: nat := 0;
      ghost var path := [Attempt(s, 0)];
      while i < |t| && |t| > 1
        invariant Wired() && i <= |t| && SubCube(t, s) && Tried(tr, init, f, repaired, path)
        invariant path[0] == Attempt(s, 0) && path[|path| - 1] == Attempt(t, i)
        invariant Blocks(tr, init, f, t, clean) && (repaired && wasClean ==> clean)
        decreases |t| - i
      {
        t, i, clean := TryLiteral(t, i, k, clean);
        TryNext(tr, init, f, repaired, path, Attempt(t, i));
        path := path + [Attempt(t, i)];
      }
      assert TriedTo(tr, init, f, repaired, s, path);
    }

    /** generalize: repeats until nothing more can be dropped. */
    method Generalize(s: Cube, k: nat) returns (t: Cube, ghost clean: bool)
      requires Wired() && SolverOk(tr, init, trace.levels, tainted)
      requires k > 0 && Blocks(tr, init, FrameCubes(trace.levels, Fin(k - 1)), s, true)
      modifies cons
      ensures Wired()
      ensures SubCube(t, s) && Blocks(tr, init, FrameCubes(trace.levels, Fin(k - 1)), t, clean)
      ensures repaired ==> clean
      ensures MayGeneralize(tr, init, FrameCubes(trace.levels, Fin(k - 1)), repaired, s, t)
    {
      ghost var f := FrameCubes(trace.levels, Fin(k - 1));
      t, clean := s, true;
      ghost var path := [s];
      while true
        invariant Wired() && SubCube(t, s) && Blocks(tr, init, f, t, clean) && (repaired ==> clean)
        invariant Passed(tr, init, f, repaired, path) && path[0] == s && path[|path| - 1] == t
        decreases |t|
      {
        ghost var u := t;
        var oldSize := |t|;
        t, clean := GeneralizeIteration(t, k, clean);
        SubCubeSize(t, u);
        PassNext(tr, init, f, repaired, path, t);
        path := path + [t];
        if |t| == oldSize {
          return;
        }
      }
    }

    /** block: either a part of s that can be added as a lemma at this level, or
        a cube of states of the frame below that all step into s. */
    method Block(s: Cube, k: nat) returns (r: BlockResult, ghost clean: bool, ghost v: Valuation, ghost w: Valuation)
      requires Wired() && SolverOk(tr, init, trace.levels, tainted)
      requires Ascending(s) && s != []
      modifies cons, lift
      ensures Wired()
      ensures k == 0 ==> r == NotBlocked([], [], {}, {})
      ensures r.Blocked? ==> k > 0 && r.level == k && SubCube(r.cti, s)
      ensures r.Blocked? ==> Blocks(tr, init, FrameCubes(trace.levels, Fin(k - 1)), r.cti, clean)
      ensures r.Blocked? ==> MayBlock(tr, init, FrameCubes(trace.levels, Fin(k - 1)), repaired, s, r.cti)
      ensures repaired ==> clean
      ensures r.Uninitiated? ==> k > 0 && !Initiated(tr, init, s)
      ensures r.NotBlocked? && k > 0 ==>
        tr.Step(v, w) && Avoids(v, FrameCubes(trace.levels, Fin(k - 1))) && SatCube(v, r.cti) && SatCube(w, s)
      ensures r.NotBlocked? && k > 0 ==> r.cti != [] && Ascending(r.cti) && OverLatches(tr, r.cti)
      ensures r.NotBlocked? && k > 0 ==> r.concreteState == StateOf(tr, v)
      ensures r.NotBlocked? && k > 0 ==>
        r.inputs == LiteralsOf(tr.inputs, v) && r.primedInputs == LiteralsOf(tr.inputs, w)
      ensures r.NotBlocked? && k > 0 ==>
        Leads(tr, FrameCubes(trace.levels, Inf), r.cti, r.inputs, r.primedInputs, s)
    {
      clean, v, w := true, {}, {};
      if k == 0 {
        return NotBlocked([], [], {}, {}), true, {}, {};
      }
      var blocked, t, inp, pinp, core, x, y := cons.Consecution(Fin(k - 1), s) by {
        CircuitKnown(tr, init, trace.levels, tainted);
      }
      if blocked {
        var c, ok := Initiate(core, s);
        if !ok {
          r := Uninitiated;
          return;
        }
        BlockStep(tr, init, FrameCubes(trace.levels, Fin(k - 1)), s, core, c);
        var g, gclean := Generalize(c, k);
        clean := gclean;
        assert Answers(tr, FrameCubes(trace.levels, Fin(k - 1)), s, core);
        r := Blocked(k, g);
      } else {
        v, w := x, y;
        SolverOkIs(tr, init, trace.levels, tainted);
        var lifted := lift.Lift(t, s, inp, pinp, x, y);
        r := NotBlocked(lifted, t, inp, pinp);
      }
    }

    // ----- the trace -----

    ghost predicate Valid()
      reads this, trace, cons, lift
    {
      && Wired() && SolverOk(tr, init, trace.levels, tainted) && Clean()
      && ConstraintsOk(tr, initConstraints)
    }

    method AddLemma(c: Cube, k: nat, ghost clean: bool)
      requires Wired() && SolverOk(tr, init, trace.levels, tainted)
      requires k > 0 && Blocks(tr, init, FrameCubes(trace.levels, Fin(k - 1)), c, clean)
      requires (c in trace.levels ==> Le(trace.levels[c], Fin(k))) && Lits(c) <= Universe(tr)
      modifies `tainted, trace, cons
      ensures Wired() && SolverOk(tr, init, trace.levels, tainted)
      ensures trace.levels == old(trace.levels)[c := Fin(k)] && tainted == Taint(old(tainted), c, clean)
      ensures trace.NumFrames() == Grown(old(trace.NumFrames()), Fin(k))
    {
      ghost var before := trace.levels;
      var id := trace.AddLemma(c, Fin(k));
      LemmaLevel(trace, id);
      cons.AddLemma(id, before);
      AddSolverOk(tr, init, before, tainted, c, k, clean);
      tainted := Taint(tainted, c, clean);
    }

    /** pushLemma, as the solvers see it. */
    method PushLemma(id: LemmaID, level: Level)
      requires Wired() && id < |trace.lemmas| && Le(trace.lemmas[id].level, level)
      modifies trace, cons
      ensures Wired()
      ensures trace.levels == old(trace.levels[trace.lemmas[id].cube := level])
      ensures trace.lemmas == old(trace.lemmas[id := LemmaData(trace.lemmas[id].cube, level)])
      ensures Moved(old(trace.frames), trace.frames, id, old(trace.lemmas[id].level), level)
      ensures trace.NumFrames() == Grown(old(trace.NumFrames()), level)
    {
      ghost var before := trace.levels;
      LemmaLevel(trace, id);
      RaiseGrows(before, trace.lemmas[id].cube, level, Inf);
      trace.PushLemma(id, level);
      cons.AddLemma(id, before);
    }

    /** Is the cube subsumed by a lemma at this level? */
    method FrameBlocks(target: Cube, level: Level) returns (r: bool)
      requires Wired() && Ascending(target) && ShapeOk(trace.levels, Universe(tr))
      ensures r <==> exists c :: c in trace.levels && trace.levels[c] == level && SubCube(c, target)
    {
      var rest := trace.frames.At(level);
      FrameMembers(trace);
      while rest != {}
        invariant rest <= trace.frames.At(level)
        invariant forall id | id in trace.frames.At(level) && id !in rest :: !SubCube(trace.lemmas[id].cube, target)
        decreases rest
      {
        var id :| id in rest;
        MemberLevel(trace, id, level);
        var subsumed := Subsumes(trace.lemmas[id].cube, target);
        if subsumed {
          return true;
        }
        rest := rest - {id};
      }
      forall c | c in trace.levels && trace.levels[c] == level
        ensures !SubCube(c, target)
      {
        CubeIndexed(trace, c);
      }
      return false;
    }

    /** syntacticBlock: is the cube subsumed by the full frame at this level? */
    method SyntacticBlock(target: Cube, level: nat) returns (r: bool)
      requires Wired() && Ascending(target) && SolverOk(tr, init, trace.levels, tainted)
      ensures r <==> Subsumed(trace.levels, target, level)
    {
      LemmaShape(tr, init, trace.levels, tainted);
      var k := level;
      while k < trace.NumFrames()
        invariant level <= k
        invariant forall c | c in trace.levels && trace.levels[c].Fin? && level <= trace.levels[c].k < k :: !SubCube(c, target)
      {
        r := FrameBlocks(target, Fin(k));
        if r {
          return;
        }
        k := k + 1;
      }
      LevelsAreBelow(trace);
      r := FrameBlocks(target, Inf);
    }

    /** pushFrameToInf: at an empty frame, all lemmas above it go to infinity. */
    method PushFrameToInf(k: nat)
      requires Wired() && SolverOk(tr, init, trace.levels, tainted) && 0 < k < trace.NumFrames()
      requires forall c | c in trace.levels :: trace.levels[c] != Fin(k)
      requires k > 1 ==> trace.frames.At(Fin(k - 1)) != {}
      modifies trace, cons
      ensures Wired() && SolverOk(tr, init, trace.levels, tainted) && trace.levels == Promoted(old(trace.levels), k)
      ensures trace.NumFrames() == k
      ensures SameBelow(old(trace.frames), trace.frames, k)
    {
      PromoteSolverOk(tr, init, trace.levels, tainted, k);
      PromoteFrames(k);
      DropPromoted(k);
    }

    /** clearUnusedFrames, after which the frame below the empty one is last. */
    method DropPromoted(k: nat)
      requires Wired() && 0 < k <= trace.NumFrames()
      requires forall c | c in trace.levels && trace.levels[c].Fin? :: trace.levels[c].k < k
      requires k > 1 ==> trace.frames.At(Fin(k - 1)) != {}
      modifies trace`frames
      ensures Wired() && trace.NumFrames() == k
      ensures SameBelow(old(trace.frames), trace.frames, k)
    {
      FramesAbove(trace, k);
      trace.ClearUnusedFrames();
      TrimmedTo(old(trace.frames), trace.frames, k);
    }

    method PromoteFrames(k: nat)
      requires Wired() && 0 < k < trace.NumFrames()
      modifies trace, cons
      ensures Wired() && trace.levels == Promoted(old(trace.levels), k)
      ensures trace.NumFrames() == old(trace.NumFrames()) && SameBelow(old(trace.frames), trace.frames, k)
    {
      ghost var before, frames := trace.levels, trace.frames;
      var i := trace.NumFrames() - 1;
      LevelsAreBelow(trace);
      while i >= k
        invariant Wired() && k - 1 <= i < trace.NumFrames() && Promoting(before, trace.levels, k, i)
        invariant trace.NumFrames() == |frames.fin| && SameBelow(frames, trace.frames, k)
        decreases i
      {
        PromoteFrame(k, i, before, frames);
        PromoteNext(before, trace.levels, k, i);
        i := i - 1;
      }
      PromoteDone(before, trace.levels, k);
    }

    /** Moves the lemmas of one frame to infinity. */
    method PromoteFrame(k: nat, i: nat, ghost before: Trace, ghost frames: Frames)
      requires Wired() && 0 < k <= i < trace.NumFrames() && Promoting(before, trace.levels, k, i)
      requires trace.NumFrames() == |frames.fin| && SameBelow(frames, trace.frames, k)
      modifies trace, cons
      ensures Wired() && Promoting(before, trace.levels, k, i)
      ensures forall c | c in trace.levels :: trace.levels[c] != Fin(i)
      ensures trace.NumFrames() == |frames.fin| && SameBelow(frames, trace.frames, k)
    {
      var rest := trace.frames.At(Fin(i));
      while rest != {}
        invariant Wired() && Promoting(before, trace.levels, k, i) && trace.frames.At(Fin(i)) == rest
        invariant trace.NumFrames() == |frames.fin| && SameBelow(frames, trace.frames, k)
        decreases rest
      {
        var id :| id in rest;
        PromoteLemma(id, k, i, before, frames);
        rest := rest - {id};
      }
      FrameEmpty(trace, Fin(i));
    }

    method PromoteLemma(id: LemmaID, k: nat, i: nat, ghost before: Trace, ghost frames: Frames)
      requires Wired() && 0 < k <= i && Promoting(before, trace.levels, k, i) && SameBelow(frames, trace.frames, k)
      requires id in trace.frames.At(Fin(i))
      modifies trace, cons
      ensures Wired() && Promoting(before, trace.levels, k, i) && SameBelow(frames, trace.frames, k)
      ensures trace.frames.At(Fin(i)) == old(trace.frames.At(Fin(i))) - {id}
      ensures trace.NumFrames() == old(trace.NumFrames())
    {
      MemberLevel(trace, id, Fin(i));
      PromoteOne(before, trace.levels, k, i, trace.lemmas[id].cube);
      PushLemma(id, Inf);
      MovedToInf(frames, old(trace.frames), trace.frames, id, i, k);
    }

    /** pushLemmas: moves every lemma up that passes consecution, frame by frame,
        and promotes at the first frame that this leaves empty. */
    method PushLemmas()
      requires Wired() && SolverOk(tr, init, trace.levels, tainted)
      modifies `tainted, trace, cons
      ensures Wired() && SolverOk(tr, init, trace.levels, tainted)
      ensures Raised(old(trace.levels), trace.levels) && tainted <= old(tainted)
      ensures trace.levels == Pushed(tr, old(trace.levels), 1) && Stuck(tr, trace.levels)
      ensures Filled(trace.frames, trace.NumFrames())
      ensures old(trace.NumFrames() > 1 && trace.frames.At(Fin(1)) == {}) ==> trace.levels == Promoted(old(trace.levels), 1)
    {
      var k := 1;
      ghost var goal := PushesStart(tr, trace.levels);
      while k < trace.NumFrames()
        invariant 1 <= k && Wired() && SolverOk(tr, init, trace.levels, tainted)
        invariant PushesTo(tr, trace.levels, k, goal)
        invariant Raised(old(trace.levels), trace.levels) && tainted <= old(tainted)
        invariant Filled(trace.frames, k)
        invariant k == 1 ==> trace.levels == old(trace.levels) && trace.frames == old(trace.frames)
        invariant k > 1 ==> old(trace.frames.At(Fin(1))) != {}
        decreases |UpperIds(trace.lemmas, k)|
      {
        ghost var before := trace.levels;
        var emptied := PushFrame(k);
        PushesStep(tr, before, trace.levels, k, goal);
        FrameEmpty(trace, Fin(k));
        if emptied {
          RaisedPromoted(old(trace.levels), trace.levels, k);
          PushFrameToInf(k);
          return;
        }
        SomeAtLevel(trace, k);
        k := k + 1;
      }
      LevelsAreBelow(trace);
      PushesEnd(tr, trace.levels, k, goal);
    }

    /** One frame of pushLemmas: was every lemma pushed? */
    method PushFrame(k: nat) returns (emptied: bool)
      requires Wired() && SolverOk(tr, init, trace.levels, tainted) && 1 <= k < trace.NumFrames()
      modifies `tainted, trace, cons
      ensures Wired() && SolverOk(tr, init, trace.levels, tainted)
      ensures Raised(old(trace.levels), trace.levels) && tainted <= old(tainted)
      ensures emptied <==> trace.frames.At(Fin(k)) == {}
      ensures FrameTo(tr, old(trace.levels), trace.levels, k, {})
      ensures old(trace.frames.At(Fin(k))) == {} ==> emptied && trace.levels == old(trace.levels)
      ensures SameBelow(old(trace.frames), trace.frames, k) && trace.NumFrames() >= old(trace.NumFrames())
      ensures UpperIds(trace.lemmas, k) == old(UpperIds(trace.lemmas, k))
    {
      var frame, pushed := trace.frames.At(Fin(k)), 0;
      var rest := frame;
      ghost var before, lemmas := trace.levels, trace.lemmas;
      FrameOfCubes(trace, k);
      FrameStart(tr, before, k);
      ghost var todo := AtLevel(before, Fin(k));
      while rest != {}
        invariant Wired() && SolverOk(tr, init, trace.levels, tainted)
        invariant Raised(before, trace.levels) && tainted <= old(tainted)
        invariant rest <= trace.frames.At(Fin(k)) && pushed + |trace.frames.At(Fin(k))| == |frame|
        invariant SameCubes(lemmas, trace.lemmas) && todo <= CubesOf(lemmas, rest)
        invariant FrameTo(tr, before, trace.levels, k, todo)
        invariant frame == {} ==> trace.levels == before
        invariant SameBelow(old(trace.frames), trace.frames, k) && trace.NumFrames() >= old(trace.NumFrames())
        invariant UpperIds(trace.lemmas, k) == old(UpperIds(trace.lemmas, k))
        decreases rest
      {
        var id :| id in rest;
        MemberLevel(trace, id, Fin(k));
        ghost var c, levels := trace.lemmas[id].cube, trace.levels;
        OneLessCube(lemmas, rest, id);
        var consecutive := PushIfPasses(id, k);
        FrameNext(tr, before, levels, k, todo, c, trace.levels);
        todo := todo - {c};
        pushed := if consecutive then pushed + 1 else pushed;
        rest := rest - {id};
      }
      assert todo == {};
      emptied := pushed == |frame|;
    }

    /** One lemma of pushLemmas. */
    method PushIfPasses(id: LemmaID, k: nat) returns (consecutive: bool)
      requires Wired() && SolverOk(tr, init, trace.levels, tainted) && id in trace.frames.At(Fin(k))
      requires id < |trace.lemmas|
      modifies `tainted, trace, cons
      ensures Wired() && SolverOk(tr, init, trace.levels, tainted)
      ensures Raised(old(trace.levels), trace.levels) && tainted <= old(tainted)
      ensures consecutive <==> old(Passes(tr, trace.levels, k, trace.lemmas[id].cube))
      ensures trace.levels == old(if consecutive then trace.levels[trace.lemmas[id].cube := Fin(k + 1)] else trace.levels)
      ensures trace.frames.At(Fin(k)) == old(trace.frames.At(Fin(k))) - (if consecutive then {id} else {})
      ensures SameCubes(old(trace.lemmas), trace.lemmas)
      ensures SameBelow(old(trace.frames), trace.frames, k) && trace.NumFrames() >= old(trace.NumFrames())
      ensures UpperIds(trace.lemmas, k) == old(UpperIds(trace.lemmas, k))
    {
      MemberLevel(trace, id, Fin(k));
      LemmaShape(tr, init, trace.levels, tainted);
      var passes, pred, inp, pinp, core, v, w := cons.Consecution(Fin(k), trace.lemmas[id].cube) by {
        CircuitKnown(tr, init, trace.levels, tainted);
      }
      if passes {
        PushUp(id, k);
      }
      consecutive := passes;
    }

    method PushUp(id: LemmaID, k: nat)
      requires Wired() && SolverOk(tr, init, trace.levels, tainted) && id in trace.frames.At(Fin(k))
      requires id < |trace.lemmas|
      requires var c := trace.lemmas[id].cube;
        Consecution(tr, FrameCubes(trace.levels, Fin(k)), c, c)
      modifies `tainted, trace, cons
      ensures Wired() && SolverOk(tr, init, trace.levels, tainted)
      ensures Raised(old(trace.levels), trace.levels) && tainted <= old(tainted)
      ensures trace.frames.At(Fin(k)) == old(trace.frames.At(Fin(k))) - {id}
      ensures trace.levels == old(trace.levels[trace.lemmas[id].cube := Fin(k + 1)])
      ensures SameCubes(old(trace.lemmas), trace.lemmas)
      ensures SameBelow(old(trace.frames), trace.frames, k) && trace.NumFrames() >= old(trace.NumFrames())
      ensures UpperIds(trace.lemmas, k) == old(UpperIds(trace.lemmas, k))
    {
      MemberLevel(trace, id, Fin(k));
      ghost var c := trace.lemmas[id].cube;
      PushSolverOk(tr, init, trace.levels, tainted, c, k);
      UpperIdsMove(trace.lemmas, id, k);
      PushLemma(id, Fin(k + 1));
      MovedUp(old(trace.frames), trace.frames, id, k);
      tainted := tainted - {c};
    }

    // ----- proof obligations -----

    /** popObligation: the obligation that no queued one comes before. */
    method PopObligation(q: set<nat>) returns (i: nat)
      requires q != {} && forall j | j in q :: j < |obls|
      ensures i in q && forall j | j in q :: !Before(obls[j], obls[i])
      ensures forall j | j in q :: obls[i].level <= obls[j].level
    {
      i :| i in q;
      var rest := q - {i};
      CubeLessIrreflexive(obls[i].cti);
      while rest != {}
        invariant rest <= q && i in q && forall j | j in q - rest :: !Before(obls[j], obls[i])
        decreases rest
      {
        var n :| n in rest;
        rest := rest - {n};
        if Before(obls[n], obls[i]) {
          forall j | j in q - rest
            ensures !Before(obls[j], obls[n])
          {
            CubeLessIrreflexive(obls[n].cti);
            if Before(obls[j], obls[n]) {
              BeforeTransitive(obls[j], obls[n], obls[i]);
            }
          }
          i := n;
        }
      }
      assert q - rest == q;
    }

    /** buildCex: one step per obligation from this one to the target. */
    method BuildCex(i: nat) returns (cex: seq<CexStep>)
      requires i < |obls| && AllLinked(tr, FrameCubes(trace.levels, Inf), obls)
      ensures cex == Chain(obls, i)
    {
      cex := [];
      var current: nat := i;
      while true
        invariant current < |obls| && cex + Chain(obls, current) == Chain(obls, i)
        decreases current
      {
        assert Linked(tr, FrameCubes(trace.levels, Inf), obls, current);
        var o := obls[current];
        ghost var before := cex;
        cex := cex + [CexStep(o.inputs, o.concreteState)];
        if o.parent.None? {
          return;
        }
        ChainNext(obls, current, before);
        current := o.parent.value;
      }
    }

    /** The state of recursiveBlock between two obligations. */
    ghost predicate Working(target: Cube, top: nat, q: set<nat>, newest: bool)
      reads this, trace, cons, lift
    {
      Wired() && WorkOk(tr, init, trace.levels, tainted, target, top, obls, q, newest)
    }

    /** The obligation was blocked by t: it comes back one level up. */
    method LearnLemma(target: Cube, top: nat, q: set<nat>, ghost newest: bool, i: nat, t: Cube, g: nat, ghost clean: bool)
      returns (rest: set<nat>)
      requires Working(target, top, q, newest) && i in q && i < |obls| && g == obls[i].level > 0
      requires !Subsumed(trace.levels, obls[i].cti, g) && SubCube(t, obls[i].cti)
      requires Blocks(tr, init, FrameCubes(trace.levels, Fin(g - 1)), t, clean)
      modifies `obls, `tainted, trace, cons
      ensures Working(target, top, rest, false)
      ensures trace.levels == old(trace.levels)[t := Fin(g)]
      ensures obls == Promote(old(obls), i, top) && rest == Requeue(old(obls), q, i, top)
      ensures Raised(old(trace.levels), trace.levels)
      ensures |Open(trace.levels, AllCubes(Universe(tr)), top)| < old(|Open(trace.levels, AllCubes(Universe(tr)), top)|)
      ensures clean ==> tainted <= old(tainted)
    {
      ObligationShape(tr, init, trace.levels, tainted, target, top, obls, q, newest, i);
      LearnedOk(tr, init, trace.levels, tainted, target, top, obls, q, newest, i, t, clean);
      AddLemma(t, g, clean);
      if g < top {
        obls := obls[i := obls[i].(level := g + 1)];
        rest := q;
      } else {
        rest := q - {i};
      }
    }

    /** The obligation has a predecessor: that comes first. */
    method QueuePredecessor(target: Cube, top: nat, q: set<nat>, ghost newest: bool, i: nat, t: Cube, conc: Cube,
                            inp: set<ID>, pinp: set<ID>, ghost v: Valuation, ghost w: Valuation)
      returns (more: set<nat>)
      requires Working(target, top, q, newest) && i in q && i < |obls| && obls[i].level > 0
      requires forall j | j in q :: j < |obls| && obls[i].level <= obls[j].level
      requires t != [] && Ascending(t) && OverLatches(tr, t) && SatCube(v, t)
      requires tr.Frame(v) && Avoids(v, FrameCubes(trace.levels, Fin(obls[i].level - 1)))
      requires conc == StateOf(tr, v) && inp == LiteralsOf(tr.inputs, v) && pinp == LiteralsOf(tr.inputs, w)
      requires Leads(tr, FrameCubes(trace.levels, Inf), t, inp, pinp, obls[i].cti)
      modifies `obls
      ensures Working(target, top, more, true)
      ensures obls == Extend(old(obls), i, pinp, Preceding(old(obls[i]), i, t, conc, inp)) && more == q + {|old(obls)|}
      ensures |obls| == old(|obls|) + 1 && obls[|obls| - 1].level == old(obls[i].level) - 1
    {
      var o := ProofObligation(obls[i].level - 1, t, conc, inp, 0, Some(i));
      QueuedOk(tr, init, trace.levels, tainted, target, top, obls, q, newest, i, o, pinp, v, w);
      more := q + {|obls|};
      if obls[i].inputs == {} {
        obls := obls[i := obls[i].(inputs := pinp)];
      }
      obls := obls + [o];
      assert obls == Extend(old(obls), i, pinp, o);
    }

    /** One obligation above level 0: dropped, blocked, or put behind a
        predecessor. Something that bounds the work left gets smaller. */
    method WorkOff(target: Cube, top: nat, q: set<nat>, ghost newest: bool, i: nat)
      returns (rest: set<nat>, ghost isNew: bool)
      requires Working(target, top, q, newest) && i in q && i < |obls| && obls[i].level > 0
      requires forall j | j in q :: j < |obls| && obls[i].level <= obls[j].level
      modifies `obls, `tainted, trace, cons, lift
      ensures repaired ==> tainted <= old(tainted)
      ensures Working(target, top, rest, isNew)
      ensures
        || |Open(trace.levels, AllCubes(Universe(tr)), top)| < old(|Open(trace.levels, AllCubes(Universe(tr)), top)|)
        || (trace.levels == old(trace.levels) && !newest && !isNew && rest == q - {i})
        || (trace.levels == old(trace.levels) && isNew)
      ensures isNew ==> obls != [] && obls[|obls| - 1].level == old(obls[i].level) - 1
      ensures AttendsOk(tr, init, repaired, top, old(Work(trace.levels, obls, q)), i, Work(trace.levels, obls, rest))
    {
      ObligationShape(tr, init, trace.levels, tainted, target, top, obls, q, newest, i);
      var s, level := obls[i].cti, obls[i].level;
      ghost var a := Work(trace.levels, obls, q);
      var subsumed := SyntacticBlock(s, level);
      if subsumed {
        DroppedOk(tr, init, trace.levels, tainted, target, top, obls, q, newest, i);
        DropAttends(tr, init, repaired, top, a, i);
        return q - {i}, false;
      }
      ObligationInitiated(tr, init, trace.levels, tainted, target, top, obls, q, newest, i);
      var b, clean, v, w := Block(s, level);
      match b {
        case Uninitiated =>
          assert false;
        case Blocked(g, t) =>
          rest := LearnLemma(target, top, q, newest, i, t, g, clean);
          LearnAttends(tr, init, repaired, top, a, i, t, Work(trace.levels, obls, rest));
          isNew := false;
        case NotBlocked(t, conc, inp, pinp) =>
          rest := QueuePredecessor(target, top, q, newest, i, t, conc, inp, pinp, v, w);
          DescendAttends(tr, init, repaired, top, a, i, t, conc, inp, pinp, Work(trace.levels, obls, rest), v, w);
          isNew := true;
      }
    }

    /** Level 0 was reached. */
    method Execution(target: Cube, top: nat, ghost q: set<nat>, ghost newest: bool, i: nat) returns (cex: seq<CexStep>)
      requires Working(target, top, q, newest) && i < |obls| && obls[i].level == 0
      ensures cex != [] && cex == Chain(obls, i)
      ensures Replays(tr, init, target, cex)
    {
      ExecutionExists(tr, init, trace.levels, tainted, target, top, obls, q, newest, i);
      cex := BuildCex(i);
    }

    /** The obligation that comes first: an execution at level 0, or work. */
    method Attend(target: Cube, top: nat, q: set<nat>, ghost newest: bool)
      returns (rest: set<nat>, answer: RecBlockResult, ghost isNew: bool)
      requires Working(target, top, q, newest) && Clean() && q != {}
      modifies `obls, `tainted, trace, cons, lift
      ensures Wired() && SolverOk(tr, init, trace.levels, tainted) && Clean()
      ensures answer.Reached? ==> answer.cex != []
      ensures answer.Reached? ==> Replays(tr, init, target, answer.cex)
      ensures answer.AllBlocked? ==> Working(target, top, rest, isNew)
      ensures answer.AllBlocked? ==>
        || |Open(trace.levels, AllCubes(Universe(tr)), top)| < old(|Open(trace.levels, AllCubes(Universe(tr)), top)|)
        || (trace.levels == old(trace.levels) && !newest && !isNew && |rest| < |q|)
        || (trace.levels == old(trace.levels) && isNew)
      ensures answer.AllBlocked? && isNew ==> obls != []
      ensures answer.AllBlocked? && isNew && newest && old(obls) != [] ==>
        obls[|obls| - 1].level < old(obls[|obls| - 1].level)
      ensures answer.AllBlocked? ==>
        NextWork(tr, init, repaired, top, old(Work(trace.levels, obls, q)), Work(trace.levels, obls, rest))
      ensures answer.Reached? ==> trace.levels == old(trace.levels) && RunEnds(old(Work(trace.levels, obls, q)), answer.cex)
    {
      WorkFacts(tr, init, trace.levels, tainted, target, top, obls, q, newest);
      var i := PopObligation(q);
      ghost var a := Work(trace.levels, obls, q);
      assert First(a, i);
      rest, answer, isNew := q, AllBlocked, newest;
      if obls[i].level == 0 {
        var cex := Execution(target, top, q, newest, i);
        answer := Reached(cex);
        assert EndsIn(a, i, cex);
      } else {
        rest, isNew := WorkOff(target, top, q, newest, i);
        FirstTaken(tr, init, repaired, top, a, i, Work(trace.levels, obls, rest));
        WorkFacts(tr, init, trace.levels, tainted, target, top, obls, rest, isNew);
      }
    }

    /** recursiveBlock: blocks the target at the level, or finds an execution. */
    method RecursiveBlock(target: Cube, top: nat) returns (r: RecBlockResult, ghost run: seq<Work>, ghost end: Work)
      requires Wired() && SolverOk(tr, init, trace.levels, tainted) && Clean() && top > 0
      requires target != [] && Ascending(target) && Lits(target) <= Universe(tr)
      requires Out(tr, init, target, Fin(top - 1))
      modifies `obls, `tainted, trace, cons, lift
      ensures Wired() && SolverOk(tr, init, trace.levels, tainted) && Clean()
      ensures r.AllBlocked? ==> Subsumed(trace.levels, target, top)
      ensures r.Reached? ==> r.cex != []
      ensures r.Reached? ==> Replays(tr, init, target, r.cex)
      ensures RunTo(tr, init, repaired, target, top, old(trace.levels), run, end) && trace.levels == end.levels
      ensures r.AllBlocked? ==> end.queue == {}
      ensures r.Reached? ==> RunEnds(end, r.cex)
    {
      StartOk(tr, init, trace.levels, tainted, target, top);
      obls := [ProofObligation(top, target, [], {}, 0, None)];
      var q := {0};
      ghost var newest := false;
      end := StartWork(trace.levels, target, top);
      run := [end];
      RunStarts(tr, init, repaired, target, top, trace.levels);
      while q != {}
        invariant Working(target, top, q, newest) && Clean() && (newest ==> obls != [])
        invariant RunTo(tr, init, repaired, target, top, old(trace.levels), run, end)
        invariant end == Work(trace.levels, obls, q)
        decreases |Open(trace.levels, AllCubes(Universe(tr)), top)|, if newest then 0 else |q| + 1,
          if newest then obls[|obls| - 1].level else 0
      {
        q, r, newest := Attend(target, top, q, newest);
        if !r.AllBlocked? {
          return;
        }
        RunNext(tr, init, repaired, target, top, old(trace.levels), run, end, Work(trace.levels, obls, q));
        end := Work(trace.levels, obls, q);
        run := run + [end];
      }
      WorkFacts(tr, init, trace.levels, tainted, target, top, obls, q, newest);
      r := AllBlocked;
    }

    // ----- the main loop -----

    /** isSafe: the infinity frame already excludes the target. */
    method IsSafe(target: Cube) returns (r: bool)
      requires Wired() && SolverOk(tr, init, trace.levels, tainted) && target != []
      modifies cons
      ensures Wired()
      ensures r <==> Excludes(tr, FrameCubes(trace.levels, Inf), target)
    {
      SolverOkIs(tr, init, trace.levels, tainted);
      if target in trace.cubeToLemmaID {
        IndexedCube(trace, target);
        if trace.lemmas[trace.cubeToLemmaID[target]].level == Inf {
          assert target in FrameCubes(trace.levels, Inf);
          return true;
        }
      }
      var sat, state, inputs, v := cons.Intersection(Inf, target);
      r := !sat;
    }

    /** checkInitial: no initial state is in the target, or here is one. */
    method CheckInitial(target: Cube) returns (blocked: bool, cex: seq<CexStep>)
      requires Wired() && SolverOk(tr, init, trace.levels, tainted) && target != []
      modifies cons
      ensures Wired()
      ensures blocked <==> Initiated(tr, init, target)
      ensures !blocked ==> |cex| == 1 && Replays(tr, init, target, cex) && Forced(tr, cex[0], target)
      ensures !blocked ==> Checks(tr, init, target, cex)
    {
      SolverOkIs(tr, init, trace.levels, tainted);
      var sat, state, inputs, v := cons.Intersection(Fin(0), target);
      forall x
        ensures tr.Frame(x) && Avoids(x, FrameCubes(trace.levels, Fin(0))) <==> Init(tr, init, x)
      {
        ZeroFrameIsInit(tr, init, trace.levels, x);
      }
      blocked, cex := !sat, if sat then [CexStep(inputs, state)] else [];
      if sat {
        assert Init(tr, init, v) && Driven(tr, v, cex, target);
        StateForces(tr, v, cex[0], target);
        OneStepChecks(tr, init, target, cex[0], v);
      }
    }

    /** recordProof: the clauses of the infinity frame. */
    method RecordProof() returns (proof: seq<Clause>)
      requires Wired()
      ensures Records(proof, FrameCubes(trace.levels, Inf)) && ListsOnce(proof, FrameCubes(trace.levels, Inf))
    {
      proof := [];
      var rest := trace.frames.At(Inf);
      ghost var done: set<Cube> := {};
      while rest != {}
        invariant rest <= trace.frames.At(Inf) && Records(proof, done) && ListsOnce(proof, done)
        invariant done <= FrameCubes(trace.levels, Inf)
        invariant forall id | id in rest && id < |trace.lemmas| :: trace.lemmas[id].cube !in done
        invariant forall id | id in trace.frames.At(Inf) && id < |trace.lemmas| && id !in rest :: trace.lemmas[id].cube in done
        decreases rest
      {
        var id :| id in rest;
        MemberLevel(trace, id, Inf);
        RecordOne(proof, done, trace.lemmas[id].cube);
        OtherCubes(trace, id);
        proof := proof + [NegateVec(trace.lemmas[id].cube)];
        done := done + {trace.lemmas[id].cube};
        rest := rest - {id};
      }
      forall c | c in FrameCubes(trace.levels, Inf)
        ensures c in done
      {
        CubeIndexed(trace, c);
      }
      assert done == FrameCubes(trace.levels, Inf);
    }

    /** The recorded proof once the infinity frame excludes the bad literal. */
    method Certificate() returns (proof: seq<Clause>)
      requires Wired() && SolverOk(tr, init, trace.levels, tainted)
      requires Excludes(tr, FrameCubes(trace.levels, Inf), [tr.bad])
      ensures Records(proof, FrameCubes(trace.levels, Inf)) && ListsOnce(proof, FrameCubes(trace.levels, Inf))
      ensures forall v | tr.Frame(v) && Models(v, proof) :: !Holds(v, tr.bad)
      ensures !CanReach(tr, init, tr.bad)
      ensures InductiveProof(tr, init, tr.bad, proof) <==> SelfSupporting(tr, FrameCubes(trace.levels, Inf))
      ensures Sound(trace.levels, tainted) ==> SelfSupporting(tr, FrameCubes(trace.levels, Inf))
    {
      proof := RecordProof();
      ProofExcludes(tr, FrameCubes(trace.levels, Inf), proof);
      InfinitySafe(tr, init, trace.levels, tainted);
      RecordedInductive(tr, init, trace.levels, tainted, proof);
      SoundSupports(tr, init, trace.levels, tainted);
    }

    /** One round of prove: blocks the target at k, pushes, and finds the level
        the target has now reached. */
    method Round(target: Cube, k: nat) returns (r: RecBlockResult, level: Level, ghost run: seq<Work>, ghost end: Work)
      requires Wired() && SolverOk(tr, init, trace.levels, tainted) && Clean() && k > 0
      requires target == [tr.bad]
      requires Out(tr, init, target, Fin(k - 1))
      modifies `obls, `tainted, trace, cons, lift
      ensures Wired() && SolverOk(tr, init, trace.levels, tainted) && Clean()
      ensures r.AllBlocked? ==> target in trace.levels && trace.levels[target] == level && Le(Fin(k), level)
      ensures r.AllBlocked? && level.Fin? ==> level.k <= |AllCubes(Universe(tr))|
      ensures r.AllBlocked? ==> Stuck(tr, trace.levels)
      ensures r.Reached? ==> r.cex != []
      ensures r.Reached? ==> Replays(tr, init, target, r.cex)
      ensures RunTo(tr, init, repaired, target, k, old(trace.levels), run, end)
      ensures r.AllBlocked? ==> end.queue == {} && trace.levels == Pushed(tr, end.levels, 1)
      ensures r.Reached? ==> FoundBy(tr, init, target, end, r.cex)
    {
      r, run, end := RecursiveBlock(target, k);
      level := Inf;
      if r.AllBlocked? {
        LemmaShape(tr, init, trace.levels, tainted);
        OneLiteralSubsumed(trace.levels, Universe(tr), tr.bad, k);
        obls := [];
        PushLemmas();
        CubeIndexed(trace, target);
        level := trace.lemmas[trace.cubeToLemmaID[target]].level;
        IndexedCube(trace, target);
        LemmaShape(tr, init, trace.levels, tainted);
        LevelBound(trace, Universe(tr), target);
      } else {
        RunPromises(tr, init, old(tainted), repaired, target, k, old(trace.levels), run, end, r.cex);
      }
    }

    /** The loop of prove, from level 1 on. */
    method Rounds(target: Cube) returns (r: RecBlockResult, ghost stages: seq<Stage>, ghost stage: Stage)
      requires Valid() && target == [tr.bad] && Initiated(tr, init, target)
      modifies `obls, `tainted, trace, cons, lift
      ensures Valid()
      ensures r.AllBlocked? ==> Excludes(tr, FrameCubes(trace.levels, Inf), target)
      ensures r.Reached? ==> r.cex != []
      ensures r.Reached? ==> Replays(tr, init, target, r.cex)
      ensures RoundsTo(tr, init, repaired, target, old(trace.levels), stages, stage)
      ensures if r.AllBlocked? then trace.levels == stage.levels else FoundAfter(tr, init, repaired, target, stage, r.cex)
    {
      InitiatedOut(tr, init, target);
      var k := 1;
      stage := Stage(trace.levels, k);
      stages := [stage];
      FirstStage(tr, init, repaired, target, trace.levels);
      var safe := IsSafe(target);
      while !safe
        invariant Valid() && 0 < k <= |AllCubes(Universe(tr))| + 1
        invariant Out(tr, init, target, Fin(k - 1))
        invariant safe <==> Excludes(tr, FrameCubes(trace.levels, Inf), target)
        invariant RoundsTo(tr, init, repaired, target, old(trace.levels), stages, stage) && stage == Stage(trace.levels, k)
        decreases |AllCubes(Universe(tr))| + 1 - k, !safe
      {
        var level;
        ghost var run, end;
        r, level, run, end := Round(target, k);
        if !r.AllBlocked? {
          return;
        }
        ghost var next := Stage(trace.levels, if level.Fin? then level.k + 1 else k);
        NextStage(tr, init, repaired, target, old(trace.levels), stages, stage, run, end, next);
        stages, stage := stages + [next], next;
        if level.Inf? {
          assert target in FrameCubes(trace.levels, Inf);
          break;
        }
        k := level.k + 1;
        LemmaOut(tr, init, trace.levels, tainted, target);
        safe := IsSafe(target);
      }
      r := AllBlocked;
    }

    /** prove: is the bad literal unreachable? */
    method Prove() returns (r: SafetyResult, ghost stages: seq<Stage>, ghost stage: Stage)
      requires Valid()
      modifies `obls, `tainted, trace, cons, lift
      ensures Valid()
      ensures r.Safe? ==> Records(r.proof, FrameCubes(trace.levels, Inf))
      ensures r.Safe? ==> ListsOnce(r.proof, FrameCubes(trace.levels, Inf))
      ensures r.Safe? ==> forall v | tr.Frame(v) && Models(v, r.proof) :: !Holds(v, tr.bad)
      ensures r.Safe? ==> (InductiveProof(tr, init, tr.bad, r.proof) <==> SelfSupporting(tr, FrameCubes(trace.levels, Inf)))
      ensures r.Safe? && (repaired || Sound(trace.levels, tainted)) ==> InductiveProof(tr, init, tr.bad, r.proof)
      ensures r.Unsafe? ==> r.cex != [] && Replays(tr, init, [tr.bad], r.cex)
      ensures r.Unsafe? && |r.cex| == 1 ==> Forced(tr, r.cex[0], [tr.bad])
      ensures r.Unsafe? && |r.cex| <= 2 ==> Checks(tr, init, [tr.bad], r.cex)
      ensures r.Unsafe? ==> ReachesIn(tr, init, tr.bad, |r.cex| - 1)
      ensures r.Unsafe? <==> CanReach(tr, init, tr.bad)
      ensures RoundsTo(tr, init, repaired, [tr.bad], old(trace.levels), stages, stage)
      ensures r.Safe? ==> trace.levels == stage.levels
      ensures r.Unsafe? && Initiated(tr, init, [tr.bad]) ==> FoundAfter(tr, init, repaired, [tr.bad], stage, r.cex)
    {
      var target := [tr.bad];
      stage := Stage(trace.levels, 1);
      stages := [stage];
      FirstStage(tr, init, repaired, target, trace.levels);
      var blocked, cex := CheckInitial(target);
      if !blocked {
        BadReached(tr, init, cex);
        r := Unsafe(cex);
        return;
      }
      var b;
      b, stages, stage := Rounds(target);
      match b {
        case Reached(c) =>
          BadReached(tr, init, c);
          if |c| <= 2 {
            FoundChecks(tr, init, repaired, target, stage, c);
          }
          r := Unsafe(c);
          return;
        case AllBlocked =>
      }
      var proof := Certificate();
      r := Safe(proof);
    }
  }

  function CubeSet(cubes: seq<Cube>): set<Cube> {
    set c | c in cubes
  }

  lemma CubeSetNext(cubes: seq<Cube>, i: nat)
    requires i < |cubes|
    ensures CubeSet(cubes[..i + 1]) == CubeSet(cubes[..i]) + {cubes[i]}
  {
    assert cubes[..i + 1] == cubes[..i] + [cubes[i]];
  }

  /** The initial states are those of the circuit, restricted by the constraints. */
  lemma InitIs(tr: TransitionRelation, constraints: seq<Cube>, init: set<Cube>)
    requires tr.WellFormed() && init == CubeSet(tr.ResetCubes()) + CubeSet(constraints)
    ensures forall v :: Init(tr, init, v) <==> tr.Frame(v) && tr.Starts(v) && Avoids(v, CubeSet(constraints))
  {
    forall v
      ensures Init(tr, init, v) <==> tr.Frame(v) && tr.Starts(v) && Avoids(v, CubeSet(constraints))
    {
      InitExact(tr, init, CubeSet(constraints), v);
    }
  }

  ghost predicate ConstraintsOk(tr: TransitionRelation, cubes: seq<Cube>) {
    forall c | c in cubes :: c != [] && Ascending(c) && OverLatches(tr, c)
  }

  lemma EmptySolverOk(tr: TransitionRelation)
    requires tr.WellFormed() && tr.latches != []
    ensures SolverOk(tr, {}, map[], {})
  {
    SolverOkIs(tr, {}, map[], {});
  }

  lemma ResetCubesOk(tr: TransitionRelation)
    requires tr.WellFormed()
    ensures ConstraintsOk(tr, tr.ResetCubes())
  {
    ResetCubesShape(tr.latches);
    LatchesPlain(tr);
    forall c | c in tr.ResetCubes()
      ensures c != [] && Ascending(c) && OverLatches(tr, c)
    {
      var latch :| latch in tr.latches && ResetTo(latch, c[0]);
      OneLatchCube(tr.LatchIDs(), latch.id, c);
    }
  }

  lemma OneLatchCube(latches: set<ID>, latch: ID, c: Cube)
    requires latch in latches && !IsNegated(latch) && |c| == 1 && (c[0] == latch || c[0] == Negate(latch))
    ensures Ascending(c) && forall lit | lit in c :: Strip(lit) in latches
  {
    assert c == [c[0]];
  }

  lemma RestrictedNone(m: Trace)
    ensures Restricted(m, CubeSet([])) == m
  {
  }

  lemma RestrictedTwice(m: Trace, a: set<Cube>, b: set<Cube>)
    ensures Restricted(Restricted(m, a), b) == Restricted(m, a + b)
  {
    assert Restricted(m, a).Keys + b == m.Keys + (a + b);
  }

  lemma RestrictSolverOk(tr: TransitionRelation, init: set<Cube>, m: Trace, tainted: set<Cube>, c: Cube)
    requires SolverOk(tr, init, m, tainted) && c != [] && Ascending(c) && OverLatches(tr, c)
    ensures SolverOk(tr, init + {c}, Restricted(m, {c}), tainted)
    ensures Restricted(m, {c}) == if c in m then m else m[c := Fin(0)]
  {
    SolverOkIs(tr, init, m, tainted);
    SolverOkIs(tr, init + {c}, Restricted(m, {c}), tainted);
    RestrictOk(tr, init, m, tainted, {c});
    LatchesPlain(tr);
    LatchCubesInUniverse(tr, c);
    ShapeRestricted(m, Universe(tr), {c});
  }

  lemma KnownCubes(trace: InductiveTrace)
    requires trace.Valid()
    ensures forall c :: c in trace.cubeToLemmaID <==> c in trace.levels
  {
    trace.ValidIs();
  }

  lemma NegatedClauseCube(tr: TransitionRelation, cls: Clause, cube: Cube)
    requires cls != [] && OverLatches(tr, cls)
    requires Lits(cube) == set lit | lit in cls :: Negate(lit)
    ensures cube != [] && OverLatches(tr, cube)
    ensures forall v :: SatCube(v, cube) <==> !SatClause(v, cls)
  {
    assert Negate(cls[0]) in Lits(cube);
    forall lit | lit in cube
      ensures Negate(lit) in cls && Strip(lit) in tr.LatchIDs()
    {
      assert lit in Lits(cube);
    }
    forall lit | lit in cls
      ensures Negate(lit) in cube
    {
      assert Negate(lit) in Lits(cube);
    }
    forall v
      ensures SatCube(v, cube) <==> !SatClause(v, cls)
    {
      OppositeLiterals(v, cls, cube);
    }
  }

  lemma OppositeLiterals(v: Valuation, cls: Clause, cube: Cube)
    requires forall lit | lit in cube :: Negate(lit) in cls
    requires forall lit | lit in cls :: Negate(lit) in cube
    ensures SatCube(v, cube) <==> !SatClause(v, cls)
  {
    if lit :| lit in cls && Holds(v, lit) {
      NegateFlips(v, lit);
    }
    if lit :| lit in cube && !Holds(v, lit) {
      NegateFlips(v, lit);
    }
  }

  ghost predicate Records(proof: seq<Clause>, cubes: set<Cube>) {
    forall v :: Models(v, proof) <==> Avoids(v, cubes)
  }

  lemma BadReached(tr: TransitionRelation, init: set<Cube>, cex: seq<CexStep>)
    requires Replays(tr, init, [tr.bad], cex)
    ensures ReachesIn(tr, init, tr.bad, |cex| - 1)
  {
    ReplayReaches(tr, init, [tr.bad], cex);
    var w :| ReachedIn(tr, init, w, |cex| - 1) && SatCube(w, [tr.bad]);
    assert tr.bad in [tr.bad];
  }

  lemma ProofExcludes(tr: TransitionRelation, f: set<Cube>, proof: seq<Clause>)
    requires Records(proof, f) && Excludes(tr, f, [tr.bad])
    ensures forall v | tr.Frame(v) && Models(v, proof) :: !Holds(v, tr.bad)
  {
    forall v | tr.Frame(v) && Models(v, proof)
      ensures !Holds(v, tr.bad)
    {
      assert Avoids(v, f);
      assert !SatCube(v, [tr.bad]);
    }
  }

  /** The recorded proof is inductive exactly when the infinity frame supports each of
      its own lemmas. */
  lemma RecordedInductive(tr: TransitionRelation, init: set<Cube>, m: Trace, tainted: set<Cube>, proof: seq<Clause>)
    requires SolverOk(tr, init, m, tainted)
    requires Records(proof, FrameCubes(m, Inf)) && Excludes(tr, FrameCubes(m, Inf), [tr.bad])
    ensures InductiveProof(tr, init, tr.bad, proof) <==> SelfSupporting(tr, FrameCubes(m, Inf))
  {
    var f := FrameCubes(m, Inf);
    SolverOkIs(tr, init, m, tainted);
    ProofExcludes(tr, f, proof);
    RecordsSelfSupporting(tr, f, proof);
    forall v | Init(tr, init, v)
      ensures Models(v, proof)
    {
      InfHolds(tr, init, m, v, 0);
    }
  }

  lemma RecordsSelfSupporting(tr: TransitionRelation, f: set<Cube>, proof: seq<Clause>)
    requires Records(proof, f)
    ensures SelfSupporting(tr, f) <==> forall v, w | tr.Step(v, w) && Models(v, proof) :: Models(w, proof)
  {
    if SelfSupporting(tr, f) {
      forall v, w | tr.Step(v, w) && Models(v, proof)
        ensures Models(w, proof)
      {
        assert forall c | c in f :: Supported(tr, f, c);
        assert Avoids(v, f);
      }
    } else {
      var c :| c in f && !Supported(tr, f, c);
      var v, w :| tr.Step(v, w) && Avoids(v, f) && SatCube(w, c);
      assert Models(v, proof) && !Models(w, proof);
    }
  }

  lemma SoundSupports(tr: TransitionRelation, init: set<Cube>, m: Trace, tainted: set<Cube>)
    requires SolverOk(tr, init, m, tainted)
    ensures Sound(m, tainted) ==> SelfSupporting(tr, FrameCubes(m, Inf))
  {
    SolverOkIs(tr, init, m, tainted);
    if Sound(m, tainted) {
      InfinityInductive(tr, init, m, tainted);
    }
  }

  /** One clause for each of the cubes, and no others. */
  ghost predicate ListsOnce(proof: seq<Clause>, cubes: set<Cube>) {
    |proof| == |cubes| && forall c | c in cubes :: NegateVec(c) in proof
  }

  /** Different lemmas are different cubes. */
  lemma OtherCubes(trace: InductiveTrace, id: LemmaID)
    requires trace.Valid() && id < |trace.lemmas|
    ensures forall other: LemmaID | other < |trace.lemmas| && other != id :: trace.lemmas[other].cube != trace.lemmas[id].cube
  {
    trace.ValidIs();
  }

  lemma RecordOne(proof: seq<Clause>, cubes: set<Cube>, c: Cube)
    requires Records(proof, cubes)
    ensures Records(proof + [NegateVec(c)], cubes + {c})
  {
    forall v
      ensures Models(v, proof + [NegateVec(c)]) <==> Avoids(v, cubes + {c})
    {
      NegatedCube(v, c);
      assert forall cls :: cls in proof + [NegateVec(c)] <==> cls in proof || cls == NegateVec(c);
      assert Models(v, proof) <==> Avoids(v, cubes);
    }
  }

  lemma IndexedCube(trace: InductiveTrace, c: Cube)
    requires trace.Valid() && c in trace.cubeToLemmaID
    ensures c in trace.levels && trace.cubeToLemmaID[c] < |trace.lemmas|
    ensures trace.levels[c] == trace.lemmas[trace.cubeToLemmaID[c]].level
  {
    trace.ValidIs();
  }

  lemma OneLiteralSubsumed(m: Trace, lits: set<ID>, lit: ID, k: nat)
    requires ShapeOk(m, lits) && Subsumed(m, [lit], k)
    ensures [lit] in m && Le(Fin(k), m[[lit]])
  {
    var d :| d in m && Le(Fin(k), m[d]) && SubCube(d, [lit]);
    SubCubeSize(d, [lit]);
    assert d[0] in [lit];
    assert d == [lit];
  }

  lemma InitiatedOut(tr: TransitionRelation, init: set<Cube>, c: Cube)
    requires Initiated(tr, init, c)
    ensures Out(tr, init, c, Fin(0))
  {
  }

  lemma LemmaOut(tr: TransitionRelation, init: set<Cube>, m: Trace, tainted: set<Cube>, c: Cube)
    requires SolverOk(tr, init, m, tainted) && c in m
    ensures Out(tr, init, c, m[c])
  {
    SolverOkIs(tr, init, m, tainted);
  }

  /** No execution leaves the infinity frame, even if a step from some other state of
      it does. */
  lemma InfinitySafe(tr: TransitionRelation, init: set<Cube>, m: Trace, tainted: set<Cube>)
    requires SolverOk(tr, init, m, tainted) && Excludes(tr, FrameCubes(m, Inf), [tr.bad])
    ensures !CanReach(tr, init, tr.bad)
  {
    SolverOkIs(tr, init, m, tainted);
    forall n: nat, w | ReachedIn(tr, init, w, n)
      ensures !Holds(w, tr.bad)
    {
      InfHolds(tr, init, m, w, n);
      ReachedIsFrame(tr, init, w, n);
      if Holds(w, tr.bad) {
        assert SatCube(w, [tr.bad]);
      }
    }
  }

  lemma {:induction false} ReachedIsFrame(tr: TransitionRelation, init: set<Cube>, v: Valuation, n: nat)
    requires ReachedIn(tr, init, v, n)
    ensures tr.Frame(v)
  {
  }

  // ----- no level exceeds the number of cubes -----

  lemma {:induction false} FilledSize(trace: InductiveTrace, k: nat, low: set<Cube>)
    requires trace.Valid() && 0 < k <= trace.NumFrames() && Filled(trace.frames, trace.NumFrames())
    requires low == set c | c in trace.levels && trace.levels[c].Fin? && 1 <= trace.levels[c].k < k
    ensures k - 1 <= |low|
    decreases k
  {
    if k > 1 {
      var less := set c | c in trace.levels && trace.levels[c].Fin? && 1 <= trace.levels[c].k < k - 1;
      FilledSize(trace, k - 1, less);
      var id :| id in trace.frames.At(Fin(k - 1));
      MemberLevel(trace, id, Fin(k - 1));
      StrictlySmaller(less, low, trace.lemmas[id].cube);
    }
  }

  lemma LevelBound(trace: InductiveTrace, lits: set<ID>, target: Cube)
    requires trace.Valid() && target in trace.levels && ShapeOk(trace.levels, lits)
    requires Filled(trace.frames, trace.NumFrames())
    ensures trace.levels[target].Fin? ==> trace.levels[target].k <= |AllCubes(lits)|
  {
    if trace.levels[target].Fin? {
      LevelsAreBelow(trace);
      var n := trace.NumFrames();
      var low := set c | c in trace.levels && trace.levels[c].Fin? && 1 <= trace.levels[c].k < n;
      FilledSize(trace, n, low);
      forall c | c in low
        ensures c in AllCubes(lits)
      {
        InAllCubes(c, lits);
      }
      SubsetSize(low, AllCubes(lits));
    }
  }

  ghost function CubesOf(lemmas: seq<LemmaData>, ids: set<LemmaID>): set<Cube> {
    set id | id in ids && id < |lemmas| :: lemmas[id].cube
  }

  ghost predicate SameCubes(before: seq<LemmaData>, after: seq<LemmaData>) {
    |before| == |after| && forall id | 0 <= id < |before| :: after[id].cube == before[id].cube
  }

  lemma FrameOfCubes(trace: InductiveTrace, k: nat)
    requires trace.Valid()
    ensures CubesOf(trace.lemmas, trace.frames.At(Fin(k))) == AtLevel(trace.levels, Fin(k))
  {
    var frame := trace.frames.At(Fin(k));
    forall c | c in AtLevel(trace.levels, Fin(k))
      ensures c in CubesOf(trace.lemmas, frame)
    {
      CubeIndexed(trace, c);
    }
    forall id | id in frame
      ensures id < |trace.lemmas| && trace.lemmas[id].cube in AtLevel(trace.levels, Fin(k))
    {
      MemberLevel(trace, id, Fin(k));
    }
  }

  lemma OneLessCube(lemmas: seq<LemmaData>, rest: set<LemmaID>, id: LemmaID)
    requires id in rest && id < |lemmas|
    ensures CubesOf(lemmas, rest) <= CubesOf(lemmas, rest - {id}) + {lemmas[id].cube}
  {
  }

  ghost predicate Filled(f: Frames, k: nat) {
    forall j | 1 <= j < k :: f.At(Fin(j)) != {}
  }

  lemma SomeAtLevel(trace: InductiveTrace, k: nat)
    requires trace.Valid() && trace.frames.At(Fin(k)) != {}
    ensures |UpperIds(trace.lemmas, k + 1)| < |UpperIds(trace.lemmas, k)|
  {
    trace.ValidIs();
    var id :| id in trace.frames.At(Fin(k));
    UpperIdsShrink(trace.lemmas, k, id);
  }

  lemma FramesAbove(trace: InductiveTrace, k: nat)
    requires trace.Valid() && forall c | c in trace.levels && trace.levels[c].Fin? :: trace.levels[c].k < k
    ensures forall i | k <= i < trace.NumFrames() :: trace.frames.fin[i] == {}
  {
    forall i | k <= i < trace.NumFrames()
      ensures trace.frames.fin[i] == {}
    {
      FrameEmpty(trace, Fin(i));
    }
  }

  lemma FrameEmpty(trace: InductiveTrace, level: Level)
    requires trace.Valid()
    ensures trace.frames.At(level) == {} <==> forall c | c in trace.levels :: trace.levels[c] != level
  {
    trace.ValidIs();
    if c :| c in trace.levels && trace.levels[c] == level {
      assert trace.cubeToLemmaID[c] in trace.frames.At(level);
    }
    if id :| id in trace.frames.At(level) {
      LemmaLevel(trace, id);
    }
  }

  lemma FrameMembers(trace: InductiveTrace)
    requires trace.Valid()
    ensures forall level, id | id in trace.frames.At(level) :: LevelIs(trace, id, level)
  {
    trace.ValidIs();
  }

  lemma MemberLevel(trace: InductiveTrace, id: LemmaID, level: Level)
    requires trace.Valid() && id in trace.frames.At(level)
    ensures id < |trace.lemmas| && trace.lemmas[id].level == level
    ensures trace.lemmas[id].cube in trace.levels && trace.levels[trace.lemmas[id].cube] == level
  {
    trace.ValidIs();
  }

  lemma CubeIndexed(trace: InductiveTrace, c: Cube)
    requires trace.Valid() && c in trace.levels
    ensures c in trace.cubeToLemmaID && trace.cubeToLemmaID[c] < |trace.lemmas|
    ensures trace.lemmas[trace.cubeToLemmaID[c]].cube == c
    ensures trace.cubeToLemmaID[c] in trace.frames.At(trace.levels[c])
  {
    trace.ValidIs();
  }

  ghost predicate LevelIs(trace: InductiveTrace, id: LemmaID, level: Level)
    reads trace
  {
    id < |trace.lemmas| && trace.lemmas[id].level == level
  }

  lemma LemmaLevel(trace: InductiveTrace, id: LemmaID)
    requires trace.Valid() && id < |trace.lemmas|
    ensures trace.lemmas[id].cube in trace.levels && trace.levels[trace.lemmas[id].cube] == trace.lemmas[id].level
    ensures trace.cubeToLemmaID.Keys == trace.levels.Keys
  {
    trace.ValidIs();
  }
}
