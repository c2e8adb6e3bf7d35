/** What pushing makes of a trace (src/pme/ic3/ic3_solver.cpp:336-366): each lemma
    that passes consecution relative to its own frame moves up, frame by frame, until
    a frame is left empty and everything above it becomes inductive. */
module Pushings {
  import opened Ids
  import opened Collections
  import opened TransitionRelations
  import opened InductiveTraces
  import opened TraceInvariants

  ghost predicate Passes(tr: TransitionRelation, m: Trace, k: nat, c: Cube) {
    Consecution(tr, FrameCubes(m, Fin(k)), c, c)
  }

  /** The lemmas of frame k that have been looked at and pass are one level up. */
  ghost function PartPushed(tr: TransitionRelation, m: Trace, k: nat, done: set<Cube>): Trace {
    map c | c in m :: if c in done && m[c] == Fin(k) && Passes(tr, m, k, c) then Fin(k + 1) else m[c]
  }

  function AtLevel(m: Trace, level: Level): set<Cube> {
    set c | c in m && m[c] == level
  }

  /** Pushing out of a frame does not change the full frame. */
  lemma SameFullFrame(tr: TransitionRelation, m: Trace, k: nat, done: set<Cube>, j: nat)
    requires j <= k
    ensures FrameCubes(PartPushed(tr, m, k, done), Fin(j)) == FrameCubes(m, Fin(j))
  {
    var p := PartPushed(tr, m, k, done);
    forall c | c in m
      ensures Le(Fin(j), p[c]) <==> Le(Fin(j), m[c])
    {
    }
  }

  lemma PushNone(tr: TransitionRelation, m: Trace, k: nat)
    ensures PartPushed(tr, m, k, {}) == m
  {
  }

  lemma PushNext(tr: TransitionRelation, before: Trace, m: Trace, k: nat, done: set<Cube>, c: Cube)
    requires m == PartPushed(tr, before, k, done) && c in m && m[c] == Fin(k)
    ensures Passes(tr, m, k, c) <==> Passes(tr, before, k, c)
    ensures PartPushed(tr, before, k, done + {c}) == if Passes(tr, m, k, c) then m[c := Fin(k + 1)] else m
  {
    SameFullFrame(tr, before, k, done, k);
    assert c in before && before[c] == Fin(k);
  }

  /** The loop over one frame, with the cubes in todo still to be looked at; kept
      folded: the argument n does not matter. */
  ghost predicate FrameFolded(tr: TransitionRelation, before: Trace, m: Trace, k: nat, todo: set<Cube>, n: nat)
    decreases n
  {
    if n == 0 then m == PartPushed(tr, before, k, AtLevel(before, Fin(k)) - todo)
    else FrameFolded(tr, before, m, k, todo, n - 1)
  }

  ghost predicate FrameTo(tr: TransitionRelation, before: Trace, m: Trace, k: nat, todo: set<Cube>) {
    FrameFolded(tr, before, m, k, todo, k)
  }

  lemma {:induction false} FrameUnfold(tr: TransitionRelation, before: Trace, m: Trace, k: nat, todo: set<Cube>, n: nat)
    ensures FrameFolded(tr, before, m, k, todo, n) <==> m == PartPushed(tr, before, k, AtLevel(before, Fin(k)) - todo)
    decreases n
  {
    if n > 0 {
      FrameUnfold(tr, before, m, k, todo, n - 1);
    }
  }

  lemma FrameStart(tr: TransitionRelation, m: Trace, k: nat)
    ensures FrameTo(tr, m, m, k, AtLevel(m, Fin(k)))
  {
    FrameUnfold(tr, m, m, k, AtLevel(m, Fin(k)), k);
    PushNone(tr, m, k);
    assert AtLevel(m, Fin(k)) - AtLevel(m, Fin(k)) == {};
  }

  lemma FrameNext(tr: TransitionRelation, before: Trace, m: Trace, k: nat, todo: set<Cube>, c: Cube, next: Trace)
    requires FrameTo(tr, before, m, k, todo) && c in m && m[c] == Fin(k)
    requires next == if Passes(tr, m, k, c) then m[c := Fin(k + 1)] else m
    ensures FrameTo(tr, before, next, k, todo - {c})
  {
    var all := AtLevel(before, Fin(k));
    FrameUnfold(tr, before, m, k, todo, k);
    PushNext(tr, before, m, k, all - todo, c);
    assert c in all;
    assert all - (todo - {c}) == all - todo + {c};
    FrameUnfold(tr, before, next, k, todo - {c}, k);
  }

  lemma FrameEnd(tr: TransitionRelation, before: Trace, m: Trace, k: nat)
    requires FrameTo(tr, before, m, k, {})
    ensures m == PushedFrame(tr, before, k)
  {
    FrameUnfold(tr, before, m, k, {}, k);
    assert AtLevel(before, Fin(k)) - {} == AtLevel(before, Fin(k));
  }

  // ----- the whole pass -----

  ghost function PushedFrame(tr: TransitionRelation, m: Trace, k: nat): Trace {
    PartPushed(tr, m, k, AtLevel(m, Fin(k)))
  }

  /** The lemmas at finite levels from k on. */
  function FiniteFrom(m: Trace, k: nat): set<Cube> {
    set c | c in m && m[c].Fin? && m[c].k >= k
  }

  lemma FewerFrom(tr: TransitionRelation, m: Trace, k: nat)
    requires AtLevel(PushedFrame(tr, m, k), Fin(k)) != {}
    ensures |FiniteFrom(PushedFrame(tr, m, k), k + 1)| < |FiniteFrom(m, k)|
  {
    var p := PushedFrame(tr, m, k);
    var c :| c in AtLevel(p, Fin(k));
    StrictlySmaller(FiniteFrom(p, k + 1), FiniteFrom(m, k), c);
  }

  /** pushLemmas from frame k on. */
  ghost function Pushed(tr: TransitionRelation, m: Trace, k: nat): Trace
    decreases |FiniteFrom(m, k)|
  {
    if FiniteFrom(m, k) == {} then m
    else if AtLevel(PushedFrame(tr, m, k), Fin(k)) == {} then Promoted(PushedFrame(tr, m, k), k)
    else
      FewerFrom(tr, m, k);
      Pushed(tr, PushedFrame(tr, m, k), k + 1)
  }

  lemma NothingAbove(tr: TransitionRelation, m: Trace, k: nat)
    requires FiniteFrom(m, k) == {}
    ensures PushedFrame(tr, m, k) == m && Promoted(m, k) == m
  {
    forall c | c in m
      ensures m[c].Inf? || m[c].k < k
    {
      assert c !in FiniteFrom(m, k);
    }
  }

  /** One frame of the loop, and how it goes on. */
  lemma PushedStep(tr: TransitionRelation, m: Trace, k: nat)
    ensures var p := PushedFrame(tr, m, k);
      Pushed(tr, m, k) == if AtLevel(p, Fin(k)) == {} then Promoted(p, k) else Pushed(tr, p, k + 1)
  {
    if FiniteFrom(m, k) == {} {
      NothingAbove(tr, m, k);
      forall c | c in m
        ensures m[c] != Fin(k)
      {
        assert c !in FiniteFrom(m, k);
      }
    } else if AtLevel(PushedFrame(tr, m, k), Fin(k)) != {} {
      FewerFrom(tr, m, k);
    }
  }

  /** The loop at frame k on its way to goal, kept folded: the argument n does not
      matter. */
  ghost predicate PushesFolded(tr: TransitionRelation, m: Trace, k: nat, goal: Trace, n: nat)
    decreases n
  {
    if n == 0 then Pushed(tr, m, k) == goal else PushesFolded(tr, m, k, goal, n - 1)
  }

  ghost predicate PushesTo(tr: TransitionRelation, m: Trace, k: nat, goal: Trace) {
    PushesFolded(tr, m, k, goal, k)
  }

  lemma {:induction false} PushesUnfold(tr: TransitionRelation, m: Trace, k: nat, goal: Trace, n: nat)
    ensures PushesFolded(tr, m, k, goal, n) <==> Pushed(tr, m, k) == goal
    decreases n
  {
    if n > 0 {
      PushesUnfold(tr, m, k, goal, n - 1);
    }
  }

  lemma PushesStart(tr: TransitionRelation, m: Trace) returns (goal: Trace)
    ensures goal == Pushed(tr, m, 1) && PushesTo(tr, m, 1, goal) && Stuck(tr, goal)
  {
    goal := Pushed(tr, m, 1);
    PushesUnfold(tr, m, 1, goal, 1);
    PushedStuck(tr, m, 1);
  }

  lemma LevelEmpty(m: Trace, k: nat)
    ensures AtLevel(m, Fin(k)) == {} <==> forall c | c in m :: m[c] != Fin(k)
  {
    forall c | c in m && m[c] == Fin(k)
      ensures AtLevel(m, Fin(k)) != {}
    {
      assert c in AtLevel(m, Fin(k));
    }
  }

  lemma PushesStep(tr: TransitionRelation, m: Trace, p: Trace, k: nat, goal: Trace)
    requires PushesTo(tr, m, k, goal) && FrameTo(tr, m, p, k, {})
    ensures if forall c | c in p :: p[c] != Fin(k) then Promoted(p, k) == goal else PushesTo(tr, p, k + 1, goal)
  {
    FrameEnd(tr, m, p, k);
    LevelEmpty(p, k);
    PushesUnfold(tr, m, k, goal, k);
    PushedStep(tr, m, k);
    PushesUnfold(tr, p, k + 1, goal, k + 1);
  }

  lemma PushesEnd(tr: TransitionRelation, m: Trace, k: nat, goal: Trace)
    requires PushesTo(tr, m, k, goal) && forall c | c in m && m[c].Fin? :: m[c].k < k
    ensures m == goal
  {
    PushesUnfold(tr, m, k, goal, k);
    assert FiniteFrom(m, k) == {};
  }

  // ----- what is left behind -----

  /** No lemma of a frame from 1 to k - 1 passes consecution. */
  ghost predicate StuckBelow(tr: TransitionRelation, m: Trace, k: nat) {
    forall c | c in m && m[c].Fin? && 1 <= m[c].k < k :: !Passes(tr, m, m[c].k, c)
  }

  /** No lemma outside frame 0 and the infinity frame does. */
  ghost predicate Stuck(tr: TransitionRelation, m: Trace) {
    forall c | c in m && m[c].Fin? && 1 <= m[c].k :: !Passes(tr, m, m[c].k, c)
  }

  lemma FrameStuck(tr: TransitionRelation, m: Trace, k: nat)
    requires StuckBelow(tr, m, k)
    ensures StuckBelow(tr, PushedFrame(tr, m, k), k + 1)
  {
    var p := PushedFrame(tr, m, k);
    forall c | c in p && p[c].Fin? && 1 <= p[c].k < k + 1
      ensures !Passes(tr, p, p[c].k, c)
    {
      assert p[c] == m[c];
      SameFullFrame(tr, m, k, AtLevel(m, Fin(k)), m[c].k);
    }
  }

  lemma PromotedStuck(tr: TransitionRelation, m: Trace, k: nat)
    requires StuckBelow(tr, m, k)
    ensures Stuck(tr, Promoted(m, k))
  {
    var p := Promoted(m, k);
    forall c | c in p && p[c].Fin? && 1 <= p[c].k
      ensures !Passes(tr, p, p[c].k, c)
    {
      assert p[c] == m[c];
      PromotedFrames(m, k, m[c]);
    }
  }

  /** Whatever pushing leaves at a finite level fails consecution there. */
  lemma {:induction false} PushedStuck(tr: TransitionRelation, m: Trace, k: nat)
    requires StuckBelow(tr, m, k)
    ensures Stuck(tr, Pushed(tr, m, k))
    decreases |FiniteFrom(m, k)|
  {
    if FiniteFrom(m, k) == {} {
      NothingAbove(tr, m, k);
      PromotedStuck(tr, m, k);
    } else {
      FrameStuck(tr, m, k);
      var p := PushedFrame(tr, m, k);
      if AtLevel(p, Fin(k)) == {} {
        StuckFewer(tr, p, k);
        PromotedStuck(tr, p, k);
      } else {
        FewerFrom(tr, m, k);
        PushedStuck(tr, p, k + 1);
      }
    }
  }

  lemma StuckFewer(tr: TransitionRelation, m: Trace, k: nat)
    requires StuckBelow(tr, m, k + 1)
    ensures StuckBelow(tr, m, k)
  {
  }

  /** Everything that passes moves: a lemma of frame k that passes, with all of frame k
      passing, ends at infinity. */
  lemma AllPassPromotes(tr: TransitionRelation, m: Trace, k: nat, c: Cube)
    requires c in m && m[c] == Fin(k) && forall d | d in m && m[d] == Fin(k) :: Passes(tr, m, k, d)
    ensures c in Pushed(tr, m, k) && Pushed(tr, m, k)[c] == Inf
  {
    var p := PushedFrame(tr, m, k);
    assert c in FiniteFrom(m, k);
    forall d | d in p
      ensures p[d] != Fin(k)
    {
      assert m[d] == Fin(k) ==> Passes(tr, m, k, d) && d in AtLevel(m, Fin(k));
    }
    assert p[c] == Fin(k + 1);
  }
}
