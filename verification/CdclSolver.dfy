/** The CDCL core: propagation, conflict analysis and search
    (src/sat/solvers/glucose/src/core/Solver.cc). */
module CdclSolvers {
  import opened Collections
  import opened Trails
  import opened FirstUip
  import opened ResolutionFronts
  import opened SearchLogs
  import opened ClauseMinimization
  import opened SupportSearch
  import opened LiteralSorting
  import opened WatchLists
  import opened Propagation
  import opened SearchSteps
  import opened LearntClauses
  import opened Assumptions
  import opened ClauseSorting

  /** Every watched pair is a clause that follows from the formula. */
  ghost predicate BinaryWatched(formula: seq<Clause>, watchesBin: Watches) {
    forall p | p in watchesBin :: forall w | w in watchesBin[p] :: Entails(formula, {p.Not(), w.blocker})
  }

  lemma SwapAsserting(formula: seq<Clause>, s: Trail, cls: Clause, m: nat)
    requires Asserting(formula, s, cls) && 1 <= m < |cls|
    requires forall k | 1 <= k < |cls| :: s.level[cls[k].x] <= s.level[cls[m].x]
    ensures Asserting(formula, s, Swapped(cls, 1, m)) && LitSet(Swapped(cls, 1, m)) == LitSet(cls)
    ensures UnitAt(s, Swapped(cls, 1, m), s.level[Swapped(cls, 1, m)[1].x])
  {
    var r := Swapped(cls, 1, m);
    SwapSet(cls, 1, m);
    SwapNoRepeats(cls, 1, m);
    forall k | 1 <= k < |cls|
      ensures r[k] == cls[if k == 1 then m else if k == m then 1 else k]
    {
    }
  }

  /** The variables created so far. */
  function VarsBelow(n: nat): (r: set<nat>)
    ensures forall x: nat :: x in r <==> x < n
  {
    if n == 0 then {} else VarsBelow(n - 1) + {n - 1}
  }

  /** No literal of the clause is assigned, and none is opposite to another. */
  predicate Unassigned(t: Trail, ps: Clause) {
    forall q | q in ps :: t.IsFree(q) && q.Not() !in ps
  }

  /** One clause more is stored, with the literals of ps, each once. */
  predicate StoresOne(before: seq<Clause>, after: seq<Clause>, ps: Clause) {
    && |after| == |before| + 1 && before <= after
    && LitSet(after[|before|]) == LitSet(ps) && NoRepeats(after[|before|])
  }

  lemma FewLits(cls: Clause)
    ensures |cls| <= 1 ==> |LitSet(cls)| <= 1
  {
    if |cls| == 1 {
      assert LitSet(cls) == {cls[0]};
    } else if |cls| == 0 {
      assert LitSet(cls) == {};
    }
  }

  /** A part of the assumptions, negated, follows from the formula: with that part
      the formula is unsatisfiable. */
  ghost predicate Refutes(formula: seq<Clause>, assumps: seq<Lit>, core: seq<Lit>) {
    Entails(formula, LitSet(core)) && forall q | q in core :: q.Not() in assumps
  }

  /** The literal that a learnt clause has left is assigned. */
  function WithLearnt(s: Trail, learnt: Clause, c: nat): Trail
    requires |learnt| > 0
  {
    if |learnt| == 1 then Stating(s, learnt[0]) else Implying(s, learnt[0], c)
  }

  /** An empty level for each assumption that is true already. */
  ghost predicate Skips(s: Trail, t: Trail, assumps: seq<Lit>) {
    && t == s.(lims := t.lims) && s.lims <= t.lims
    && forall k | |s.lims| <= k < |t.lims| :: t.lims[k] == |s.lits| && k < |assumps| && assumps[k] in s.lits
  }

  /** The state after a clause was learnt, up to the order of binary clauses. */
  ghost predicate Learns(e: Event, db: seq<Clause>, s: Trail, confl: nat, clauses: seq<Clause>, t: Trail) {
    && e.Learnt? && e.db == db && e.at == s && e.confl == confl && |e.clause| > 0
    && e.level < |s.lims| && s.lims[e.level] <= |s.lits|
    && t == WithLearnt(Backtracked(s, e.level), e.clause, |db|)
    && |db| <= |clauses| && Flips(db, clauses[..|db|])
    && clauses[|db|..] == if |e.clause| == 1 then [] else [e.clause]
  }

  lemma LearnsIs(e: Event, db: seq<Clause>, s: Trail, confl: nat, flipped: seq<Clause>, clauses: seq<Clause>, t: Trail)
    requires e.Learnt? && e.db == db && e.at == s && e.confl == confl && |e.clause| > 0 && Flips(db, flipped)
    requires e.level < |s.lims| && s.lims[e.level] <= |s.lits|
    requires t == WithLearnt(Backtracked(s, e.level), e.clause, |flipped|)
    requires clauses == if |e.clause| == 1 then flipped else flipped + [e.clause]
    ensures Learns(e, db, s, confl, clauses, t)
  {
    assert clauses[..|db|] == flipped;
  }

  /** What the minimisation that is switched on leaves of a clause. */
  ghost function Minimized(mode: nat, db: seq<Clause>, s: Trail, uip: Clause): set<Lit>
    requires |uip| > 0 && forall k | 1 <= k < |uip| :: uip[k].x in s.level
  {
    if mode == 2 then {uip[0]} + DeepStays(db, s, uip)
    else if mode == 1 then {uip[0]} + LocalStays(db, s, uip)
    else LitSet(uip)
  }

  lemma MinimizedSame(mode: nat, a: seq<Clause>, b: seq<Clause>, s: Trail, uip: Clause)
    requires SameClauses(a, b) && |uip| > 0 && forall k | 1 <= k < |uip| :: uip[k].x in s.level
    ensures Minimized(mode, a, s, uip) == Minimized(mode, b, s, uip)
  {
    StaysSame(a, b, s, uip);
  }

  /** Where the search stands: about to propagate, at rest without a conflict, or at a
      conflict. */
  datatype Phase = Running | Quiet | Clash(confl: nat)

  class Solver {
    ghost var formula: seq<Clause>
    ghost var vars: set<nat>
    ghost var log: Log
    var nVars: nat
    const ccminMode: nat
    const lbSizeMinimizingClause: nat
    const lbLbdMinimizingClause: nat
    var clauses: seq<Clause>
    var trail: Trail
    var qhead: nat
    var watches: Watches
    var watchesBin: Watches
    var seen: set<nat>
    var toClear: seq<Lit>
    var ok: bool
    var assumptions: seq<Lit>
    var conflict: seq<Lit>

    /** What conflict analysis relies on. */
    ghost predicate Coherent()
      reads this
    {
      ConsistentOk(formula, clauses, trail)
    }

    /** The literal that a reason forces is put first. */
    method PutForcedFirst(c: nat, ghost i: nat)
      requires Coherent() && c < |clauses| && i < |trail.lits| && Explains(trail.lits, i, clauses[c])
      modifies this`clauses
      ensures Coherent() && Flips(old(clauses), clauses)
      ensures Explains(trail.lits, i, clauses[c]) && clauses[c][0] == trail.lits[i]
    {
      ConsistentIs(formula, clauses, trail);
      ForcedFirst(trail.lits, i, clauses[c]);
      if |clauses[c]| == 2 && trail.IsFalse(clauses[c][0]) {
        FlipExplains(clauses, trail, c, i);
        FlipKeeps(formula, clauses, trail, c);
        ConsistentIs(formula, clauses[c := Flipped(clauses[c])], trail);
        clauses := clauses[c := Flipped(clauses[c])];
      }
    }

    /** Looks at the literals of a clause from position start on. */
    method AddLiterals(c: nat, start: nat, low: seq<Lit>, pathC: nat, ghost w: Work)
      returns (low': seq<Lit>, pathC': nat, ghost w': Work)
      requires Coherent() && trail.lims != [] && c < |clauses| && start <= |clauses[c]|
      requires LearningOk(formula, trail, w) && w.rest == LitSet(clauses[c][start..])
      requires w.low == low && w.pathC == pathC && w.seen == seen
      modifies this`seen
      ensures LearningOk(formula, trail, w') && w'.rest == {} && w'.bound == w.bound
      ensures w'.low == low' && w'.pathC == pathC' && w'.seen == seen && pathC <= pathC'
      ensures (exists q :: q in w.rest && q.x in trail.level && trail.level[q.x] == |trail.lims|) ==> pathC' > 0
      ensures AboveZero(trail, w'.Lits()) == AboveZero(trail, w.Lits())
    {
      low', pathC', w' := low, pathC, w;
      var cls := clauses[c];
      for j := start to |cls|
        invariant LearningOk(formula, trail, w') && w'.rest == LitSet(cls[j..]) && w'.bound == w.bound
        invariant w'.low == low' && w'.pathC == pathC' && w'.seen == seen && pathC <= pathC'
        invariant forall q | q in w.rest && q.x in trail.level && trail.level[q.x] == |trail.lims| ::
          pathC' > 0 || q in w'.rest
        invariant AboveZero(trail, w'.Lits()) == AboveZero(trail, w.Lits())
      {
        var q := cls[j];
        FromHere(j, cls, w');
        if q.x !in seen {
          if trail.level[q.x] == 0 {
            SkipZero(formula, clauses, trail, w', q);
            w' := w'.(rest := w'.rest - {q});
          } else {
            seen := seen + {q.x};
            if trail.level[q.x] >= |trail.lims| {
              TakeCurrent(formula, trail, w', q);
              pathC' := pathC' + 1;
              w' := w'.(cur := w'.cur + {q}, rest := w'.rest - {q}, seen := w'.seen + {q.x}, pathC := w'.pathC + 1);
            } else {
              TakeLow(formula, trail, w', q);
              low' := low' + [q];
              w' := w'.(low := w'.low + [q], rest := w'.rest - {q}, seen := w'.seen + {q.x});
            }
          }
        } else {
          SkipSeen(formula, clauses, trail, w', q);
          w' := w'.(rest := w'.rest - {q});
        }
      }
    }

    /** Steps back past the last seen literal. */
    method SelectNext(from: int, pathC: nat, ghost w: Work) returns (index: int)
      requires Coherent() && LearningOk(formula, trail, w) && w.rest == {} && w.seen == seen && w.pathC == pathC > 0
      requires w.bound == from + 1 <= |trail.lits|
      ensures -1 <= index < from && trail.lits[index + 1].x in seen
      ensures trail.lits[index + 1].Not() in w.cur && AllFalse(trail.lits, w.Taken(), index + 2)
      ensures forall j | index + 1 < j < w.bound :: trail.lits[j].x !in w.seen
    {
      ghost var last := SomeSeen(formula, trail, w);
      index := from;
      while trail.lits[index].x !in seen
        invariant last <= index <= from
        invariant forall j | index < j < w.bound :: trail.lits[j].x !in seen
        decreases index
      {
        index := index - 1;
      }
      LastSeen(formula, clauses, trail, w, index);
      index := index - 1;
    }

    /** The clause is false and mentions the current level. */
    ghost predicate Conflicting(c: nat)
      reads this
    {
      c < |clauses| && Conflicts(trail, clauses[c])
    }

    /** The clause to look at is the conflict, or the reason of the literal after
        the index. */
    ghost predicate AtHand(confl: nat, first: bool, index: int, w: Work)
      reads this
    {
      && confl < |clauses| && -1 <= index < |trail.lits| && w.bound == index + 1
      && if first then Conflicting(confl) && w.rest == LitSet(clauses[confl])
         else
           && w.pathC > 0 && index + 1 < |trail.lits| && Explains(trail.lits, index + 1, clauses[confl])
           && w.rest == LitSet(clauses[confl]) - {trail.lits[index + 1]}
    }

    /** Looks at the clause at hand, without the literal that it forces. */
    method LookAt(confl: nat, first: bool, ghost index: int, low: seq<Lit>, pathC: nat, ghost w: Work, ghost db: seq<Clause>)
      returns (low': seq<Lit>, pathC': nat, ghost w': Work)
      requires Coherent() && trail.lims != [] && AtHand(confl, first, index, w) && LearningOk(formula, trail, w)
      requires w.low == low && w.pathC == pathC && w.seen == seen && Flips(db, clauses)
      modifies this`seen, this`clauses
      ensures Coherent() && Flips(db, clauses)
      ensures LearningOk(formula, trail, w') && w'.rest == {} && w'.bound == w.bound
      ensures w'.low == low' && w'.pathC == pathC' > 0 && w'.seen == seen
      ensures AboveZero(trail, w'.Lits()) == AboveZero(trail, w.Lits())
    {
      if !first {
        PutForcedFirst(confl, index + 1);
        WithoutFirst(formula, clauses, trail, confl);
      }
      low', pathC', w' := AddLiterals(confl, if first then 0 else 1, low, pathC, w);
    }

    /** Looks at the clause at hand, and steps back past the last seen literal. */
    method LookAndSelect(confl: nat, first: bool, from: int, low: seq<Lit>, pathC: nat, ghost w: Work, ghost db: seq<Clause>,
                         ghost cls: set<Lit>)
      returns (low': seq<Lit>, pathC': nat, index: int, ghost w': Work)
      requires Coherent() && trail.lims != [] && AtHand(confl, first, from, w) && LearningOk(formula, trail, w)
      requires w.low == low && w.pathC == pathC && w.seen == seen && Flips(db, clauses) && TracksOk(db, trail, cls, w)
      modifies this`seen, this`clauses
      ensures Coherent() && Flips(db, clauses) && TracksOk(db, trail, cls, w')
      ensures LearningOk(formula, trail, w') && w'.rest == {} && w'.bound == w.bound
      ensures w'.low == low' && w'.pathC == pathC' > 0 && w'.seen == seen
      ensures -1 <= index < from && index + 1 < |trail.lits| && trail.lits[index + 1].x in seen
      ensures trail.lits[index + 1].Not() in w'.cur && AllFalse(trail.lits, w'.Taken(), index + 2)
      ensures forall j | index + 1 < j < w'.bound :: trail.lits[j].x !in w'.seen
    {
      low', pathC', w' := LookAt(confl, first, from, low, pathC, w, db);
      TracksSame(db, trail, cls, w, w');
      index := SelectNext(from, pathC', w');
    }

    /** The reason of the last seen literal comes next. */
    lemma Continue(w: Work, index: int)
      requires Coherent() && LearningOk(formula, trail, w) && w.rest == {} && w.pathC > 1 && trail.lims != []
      requires -1 <= index && index + 1 < |trail.lits|
      requires trail.lits[index + 1].Not() in w.cur && AllFalse(trail.lits, w.Taken(), index + 2)
      ensures var p := trail.lits[index + 1]; p.x in trail.reason && trail.reason[p.x] < |clauses|
      ensures var p := trail.lits[index + 1];
        var next := After(w, p, index + 1, LitSet(clauses[trail.reason[p.x]]));
        AtHand(trail.reason[p.x], false, index, next) && LearningOk(formula, trail, next)
    {
      NextIsImplied(formula, clauses, trail, w, index + 1);
      ResolveStep(formula, clauses, trail, w, index + 1, clauses[trail.reason[trail.lits[index + 1].x]]);
    }

    /** Resolves the conflict clause with the reasons of its literals, latest
        first, until one literal of the current level is left. */
    method Resolve(conflict: nat) returns (learnt: Clause)
      requires Coherent() && trail.lims != [] && seen == {} && Conflicting(conflict)
      modifies this`seen, this`clauses
      ensures Coherent() && Flips(old(clauses), clauses)
      ensures Asserting(formula, trail, learnt) && seen == VarsOf(LitSet(learnt[1..]))
      ensures IsFirstUip(old(clauses), trail, LitSet(old(clauses)[conflict]), learnt)
    {
      ghost var db, cls := clauses, LitSet(clauses[conflict]);
      var confl, first := conflict, true;
      var index: int := |trail.lits| - 1;
      var low, pathC := [], 0;
      ghost var w := Work([], {}, LitSet(clauses[confl]), {}, 0, |trail.lits|);
      StartLearning(formula, clauses, trail, confl);
      TracksStart(db, trail, cls);
      while true
        invariant Coherent() && Flips(db, clauses) && AtHand(confl, first, index, w)
        invariant LearningOk(formula, trail, w) && w.low == low && w.pathC == pathC && w.seen == seen
        invariant TracksOk(db, trail, cls, w)
        decreases index
      {
        low, pathC, index, w := LookAndSelect(confl, first, index, low, pathC, w, db, cls);
        var p := trail.lits[index + 1];
        seen := seen - {p.x};
        pathC := pathC - 1;
        if pathC == 0 {
          PointReached(formula, clauses, db, trail, cls, w, index + 1);
          FirstPoint(formula, trail, w, index + 1);
          MarksLeft(formula, clauses, trail, w, index + 1);
          learnt := [p.Not()] + low;
          break;
        }
        Continue(w, index);
        NextReached(formula, clauses, db, trail, cls, w, index + 1);
        confl, first := trail.reason[p.x], false;
        w := After(w, p, index + 1, LitSet(clauses[confl]));
      }
    }

    lemma FromHere(j: nat, cls: Clause, w: Work)
      requires ConsistentOk(formula, clauses, trail) && cls in clauses && j < |cls|
      requires LearningOk(formula, trail, w) && w.rest == LitSet(cls[j..])
      ensures cls[j] in w.rest && w.rest - {cls[j]} == LitSet(cls[j + 1..])
      ensures cls[j].x in trail.level && trail.level[cls[j].x] <= |trail.lims|
    {
      ConsistentIs(formula, clauses, trail);
      LearningOkIs(formula, trail, w);
      FirstLast(cls, j);
      assert cls[j] in w.Lits();
      FalseAssigned(trail, cls[j], w.bound);
    }

    // ----- minimisation -----

    /** The reason of an implied literal, with the literal that it forces first. */
    method ReasonOf(p: Lit) returns (c: nat)
      requires Coherent() && Implied(trail, p)
      modifies this`clauses
      ensures Coherent() && Flips(old(clauses), clauses)
      ensures c < |clauses| && trail.reason[p.x] == c && |clauses[c]| > 0 && clauses[c][0] == p.Not()
      ensures forall k | 1 <= k < |clauses[c]| ::
        FalseBy(trail.lits, clauses[c][k], |trail.lits|) && clauses[c][k].x != p.x
    {
      ghost var k :| 0 <= k < |trail.lits| && trail.lits[k] == p.Not();
      ConsistentIs(formula, clauses, trail);
      assert Justified(formula, clauses, trail, k);
      c := trail.reason[p.x];
      PutForcedFirst(c, k);
      WithoutFirst(formula, clauses, trail, c);
      OtherVariables(trail.lits, LitSet(clauses[c][1..]), k);
      assert forall k | 1 <= k < |clauses[c]| :: clauses[c][k] == clauses[c][1..][k - 1];
    }

    /** Marks the literals of a reason, or finds one that cannot be supported. */
    method Expand(p: Lit, c: nat, levels: set<nat>, stack: seq<Lit>, ghost t: Quest) returns (ok: bool, stack': seq<Lit>)
      requires Leveled(trail) && p.x in trail.reason && trail.reason[p.x] == c && Flips(t.db, clauses)
      requires c < |clauses| && |clauses[c]| > 0 && clauses[c][0] == p.Not() && levels == t.levels
      requires forall k | 1 <= k < |clauses[c]| ::
        FalseBy(trail.lits, clauses[c][k], |trail.lits|) && clauses[c][k].x != p.x
      requires Searching(clauses, trail, t, seen, toClear, LitSet(stack) + {p})
      modifies this`seen, this`toClear
      ensures old(toClear) <= toClear && MarkedSince(seen, toClear, t.before, t.top)
      ensures ok ==> Searching(clauses, trail, t, seen, toClear, LitSet(stack'))
      ensures !ok ==> Unsupportable(t.db, trail, levels, t.before, t.goal.x)
      ensures old(seen) <= seen <= old(seen) + VarsOf(LitSet(trail.lits)) && (old(seen) == seen ==> stack' == stack)
    {
      stack' := stack;
      var cls := clauses[c];
      for i := 1 to |cls|
        invariant old(toClear) <= toClear && ReadTo(cls, trail, seen, i)
        invariant Searching(clauses, trail, t, seen, toClear, LitSet(stack') + {p})
        invariant old(seen) <= seen <= old(seen) + VarsOf(LitSet(trail.lits))
        invariant old(seen) == seen ==> stack' == stack
      {
        var q := cls[i];
        FalseAssigned(trail, q, |trail.lits|);
        assert q.Not() in LitSet(trail.lits);
        if q.x !in seen && trail.level[q.x] > 0 {
          assert q in LitSet(t.db[c]) && Opens(t.db, trail, seen, p.x, q);
          Push(clauses, trail, t, seen, toClear, stack', p, q);
          if q.x in trail.reason && trail.level[q.x] % 32 in levels {
            seen := seen + {q.x};
            stack' := stack' + [q];
            toClear := toClear + [q];
          } else {
            SearchMarks(clauses, trail, t, seen, toClear, LitSet(stack') + {p});
            ok := false;
            return;
          }
        }
      }
      Pop(clauses, trail, t, seen, toClear, LitSet(stack'), p);
      SearchMarks(clauses, trail, t, seen, toClear, LitSet(stack'));
      ok := true;
    }

    method ExpandNext(p: Lit, levels: set<nat>, stack: seq<Lit>, ghost t: Quest) returns (ok: bool, stack': seq<Lit>)
      requires Coherent() && Implied(trail, p) && Flips(t.db, clauses) && levels == t.levels
      requires Searching(clauses, trail, t, seen, toClear, LitSet(stack) + {p})
      modifies this`seen, this`clauses, this`toClear
      ensures Coherent() && Flips(t.db, clauses)
      ensures old(toClear) <= toClear && MarkedSince(seen, toClear, t.before, t.top)
      ensures ok ==> Searching(clauses, trail, t, seen, toClear, LitSet(stack'))
      ensures !ok ==> Unsupportable(t.db, trail, levels, t.before, t.goal.x)
      ensures old(seen) <= seen <= old(seen) + VarsOf(LitSet(trail.lits)) && (old(seen) == seen ==> stack' == stack)
    {
      var c := ReasonOf(p);
      SearchSame(old(clauses), clauses, trail, t, seen, toClear, LitSet(stack) + {p});
      TrailOk(formula, clauses, trail);
      ok, stack' := Expand(p, c, levels, stack, t);
    }

    /** Takes back the marks of the recorded literals from a position on. */
    method Unmark(top: nat)
      requires top <= |toClear|
      modifies this`seen
      ensures seen == old(seen) - VarsOf(LitSet(toClear[top..]))
    {
      for j := top to |toClear|
        invariant seen == old(seen) - VarsOf(LitSet(toClear[top..j]))
      {
        assert toClear[top..j + 1] == toClear[top..j] + [toClear[j]];
        LastAdded(toClear[top..j], toClear[j]);
        VarsOfMore(LitSet(toClear[top..j]), toClear[j]);
        seen := seen - {toClear[j].x};
      }
      assert toClear[top..|toClear|] == toClear[top..];
    }

    /** Whether the literal follows from marked literals; what was marked to find
        out stays marked only if it does. The search fails exactly when some
        chain of reasons leads to an unmarked literal that was decided or is of a
        level that the clause does not have. */
    method LitRedundant(p: Lit, levels: set<nat>) returns (redundant: bool)
      requires Coherent() && Implied(trail, p)
      modifies this`seen, this`clauses, this`toClear
      ensures Coherent() && Flips(old(clauses), clauses) && old(toClear) <= toClear
      ensures seen == old(seen) + VarsOf(LitSet(toClear[|old(toClear)|..]))
      ensures redundant ==> Supported(clauses, trail, p.x, seen)
      ensures forall x | x in seen - old(seen) :: Supported(clauses, trail, x, seen) && Eligible(trail, levels, x)
      ensures redundant <==> !Unsupportable(old(clauses), trail, levels, old(seen), p.x)
      ensures !redundant ==> seen == old(seen) && toClear == old(toClear)
    {
      var stack := [p];
      var top := |toClear|;
      ghost var t := Quest(levels, seen, top, p, clauses);
      SearchStart(trail, t, toClear);
      while stack != []
        invariant Coherent() && Flips(t.db, clauses) && old(toClear) <= toClear
        invariant Searching(clauses, trail, t, seen, toClear, LitSet(stack))
        decreases VarsOf(LitSet(trail.lits)) - seen, |stack|
      {
        SearchMarks(clauses, trail, t, seen, toClear, LitSet(stack));
        var last := |stack| - 1;
        var q := stack[last];
        StackGrows(stack[..last], q);
        assert stack == stack[..last] + [q];
        var ok: bool;
        ok, stack := ExpandNext(q, levels, stack[..last], t);
        if !ok {
          Unmark(top);
          toClear := toClear[..top];
          return false;
        }
      }
      redundant := true;
      assert LitSet(stack) == {};
      SearchMarks(clauses, trail, t, seen, toClear, {});
      SearchDone(clauses, trail, t, seen, toClear);
    }

    /** What holds while the learnt clause is thinned out: its literals before
        position i have been decided, and the first j places hold those that
        stay. */
    ghost predicate Thinning(whole: Clause, learnt: Clause, i: nat, j: nat, stays: set<Lit>)
      reads this
    {
      && Compacting(whole, learnt, i, j) && VarsOf(LitSet(whole[1..])) <= seen <= VarsOf(LitSet(toClear))
      && Closed(clauses, trail, LitSet(learnt[..j]) + LitSet(whole[i..]), seen)
      && LitSet(learnt[..j]) == {whole[0]} + LitSet(whole[1..i]) * stays
    }

    lemma ThinningDone(whole: Clause, learnt: Clause, j: nat, stays: set<Lit>)
      requires Coherent() && Asserting(formula, trail, whole) && Thinning(whole, learnt, |whole|, j, stays)
      ensures Asserting(formula, trail, learnt[..j]) && Thinned(whole, learnt[..j])
      ensures LitSet(learnt[..j]) == {whole[0]} + LitSet(whole[1..]) * stays
    {
      Compacted(whole, learnt, j);
      assert whole[1..|whole|] == whole[1..];
      assert LitSet(learnt[..j]) + LitSet(whole[|whole|..]) == LitSet(learnt[..j]);
      DroppedKeeps(formula, clauses, trail, whole, learnt[..j], seen);
    }

    lemma ThinningKeep(whole: Clause, learnt: Clause, i: nat, j: nat, stays: set<Lit>)
      requires NoRepeats(whole) && Thinning(whole, learnt, i, j, stays) && i < |whole| && whole[i] in stays
      ensures Thinning(whole, learnt[j := learnt[i]], i + 1, j + 1, stays)
    {
      KeepOne(whole, learnt, i, j);
      StillClosed(clauses, trail, LitSet(learnt[..j]), whole, i, seen);
      NextPart(whole, i);
    }

    lemma ThinningDrop(whole: Clause, learnt: Clause, i: nat, j: nat, stays: set<Lit>)
      requires Thinning(whole, learnt, i, j, stays) && i < |whole| && whole[i] !in stays
      requires Supported(clauses, trail, learnt[i].x, seen)
      ensures Thinning(whole, learnt, i + 1, j, stays)
    {
      DropOne(whole, learnt, i, j);
      StillClosed(clauses, trail, LitSet(learnt[..j]), whole, i, seen);
      NextPart(whole, i);
    }

    lemma NextPart(whole: Clause, i: nat)
      requires 1 <= i < |whole|
      ensures LitSet(whole[1..i + 1]) == LitSet(whole[1..i]) + {whole[i]}
    {
      assert whole[1..i + 1] == whole[1..i] + [whole[i]];
      LastAdded(whole[1..i], whole[i]);
    }

    lemma ThinningStart(whole: Clause, stays: set<Lit>)
      requires |whole| > 0 && seen == VarsOf(LitSet(whole[1..])) && toClear == whole
      ensures Thinning(whole, whole, 1, 1, stays)
    {
      assert whole == whole[..1] + whole[1..];
      assert LitSet(whole[1..]) <= LitSet(whole);
      assert whole[1..1] == [];
      assert whole[..1] == [whole[0]];
    }

    /** Keeps the next literal, at the next place, or not. */
    method Place(ghost whole: Clause, learnt: Clause, i: nat, j: nat, keep: bool, ghost stays: set<Lit>)
      returns (learnt': Clause, j': nat)
      requires NoRepeats(whole) && Thinning(whole, learnt, i, j, stays) && i < |whole|
      requires keep <==> whole[i] in stays
      requires !keep ==> Supported(clauses, trail, learnt[i].x, seen)
      ensures Thinning(whole, learnt', i + 1, j', stays)
    {
      learnt', j' := learnt, j;
      if keep {
        ThinningKeep(whole, learnt, i, j, stays);
        learnt' := learnt[j := learnt[i]];
        j' := j + 1;
      } else {
        ThinningDrop(whole, learnt, i, j, stays);
      }
    }

    lemma ImpliedAt(whole: Clause, learnt: Clause, i: nat, j: nat)
      requires Asserting(formula, trail, whole) && Compacting(whole, learnt, i, j) && i < |whole|
      requires learnt[i].x in trail.reason
      ensures Implied(trail, learnt[i])
    {
      assert learnt[i] == whole[i] && whole[i] in LitSet(whole);
    }

    /** The levels of a clause, but for its first literal, modulo 32. */
    method AbstractLevels(cls: Clause) returns (levels: set<nat>)
      requires Asserting(formula, trail, cls)
      ensures levels == AbstractOf(trail, cls)
    {
      levels := {};
      for i := 1 to |cls|
        invariant levels == set k | 1 <= k < i :: trail.level[cls[k].x] % 32
      {
        levels := levels + {trail.level[cls[i].x] % 32};
      }
    }

    /** Drops what follows from marked literals, found by searching backwards. */
    method MinimizeDeep(whole: Clause) returns (learnt: Clause)
      requires Coherent() && Asserting(formula, trail, whole)
      requires seen == VarsOf(LitSet(whole[1..])) && toClear == whole
      modifies this`seen, this`clauses, this`toClear
      ensures Coherent() && Flips(old(clauses), clauses)
      ensures Asserting(formula, trail, learnt) && Thinned(whole, learnt) && seen <= VarsOf(LitSet(toClear))
      ensures LitSet(learnt) == {whole[0]} + DeepStays(old(clauses), trail, whole)
    {
      learnt := whole;
      var levels := AbstractLevels(whole);
      ghost var first, db, stays := seen, clauses, DeepStays(clauses, trail, whole);
      ThinningStart(whole, stays);
      var j: nat := 1;
      for i := 1 to |whole|
        invariant Coherent() && Flips(db, clauses) && Thinning(whole, learnt, i, j, stays)
        invariant Grown(db, trail, levels, first, seen)
      {
        var keep := Deepen(whole, learnt, i, j, levels, stays, first, db);
        assert whole[i] == whole[1..][i - 1];
        learnt, j := Place(whole, learnt, i, j, keep, stays);
      }
      ThinningDone(whole, learnt, j, stays);
      learnt := learnt[..j];
    }

    /** Whether to keep one literal; the marks of its search change no other
        search. */
    method Deepen(ghost whole: Clause, learnt: Clause, i: nat, ghost j: nat, levels: set<nat>, ghost stays: set<Lit>,
                  ghost first: set<nat>, ghost db: seq<Clause>)
      returns (keep: bool)
      requires Coherent() && Thinning(whole, learnt, i, j, stays) && i < |learnt| && Asserting(formula, trail, whole)
      requires Flips(db, clauses) && Grown(db, trail, levels, first, seen)
      modifies this`seen, this`clauses, this`toClear
      ensures Coherent() && Flips(db, clauses) && Grown(db, trail, levels, first, seen)
      ensures Thinning(whole, learnt, i, j, stays)
      ensures !keep ==> Supported(clauses, trail, learnt[i].x, seen)
      ensures keep <==> learnt[i].x !in trail.reason || Unsupportable(db, trail, levels, first, learnt[i].x)
    {
      if learnt[i].x !in trail.reason {
        return true;
      }
      ImpliedAt(whole, learnt, i, j);
      var redundant := LitRedundant(learnt[i], levels);
      keep := !redundant;
      assert toClear == old(toClear) + toClear[|old(toClear)|..];
      VarsOfConcat(old(toClear), toClear[|old(toClear)|..]);
      ClosedMore(old(clauses), clauses, trail, LitSet(learnt[..j]) + LitSet(whole[i..]), old(seen), seen);
      UnsupportableSame(old(clauses), db, trail, levels, old(seen), learnt[i].x);
      GrownSame(db, trail, levels, first, old(seen), learnt[i].x);
      GrownMore(clauses, db, trail, levels, first, old(seen), seen);
    }

    /** Drops what follows from marked literals directly. */
    method MinimizeLocal(whole: Clause) returns (learnt: Clause)
      requires Coherent() && Asserting(formula, trail, whole)
      requires seen == VarsOf(LitSet(whole[1..])) && toClear == whole
      ensures Asserting(formula, trail, learnt) && Thinned(whole, learnt)
      ensures LitSet(learnt) == {whole[0]} + LocalStays(clauses, trail, whole)
    {
      learnt := whole;
      ghost var stays := LocalStays(clauses, trail, whole);
      ThinningStart(whole, stays);
      var j: nat := 1;
      for i := 1 to |whole|
        invariant Thinning(whole, learnt, i, j, stays)
      {
        assert whole[i] == whole[1..][i - 1];
        var keep := Look(whole, learnt, i, j, stays);
        learnt, j := Place(whole, learnt, i, j, keep, stays);
      }
      ThinningDone(whole, learnt, j, stays);
      learnt := learnt[..j];
    }

    /** Whether to keep one literal. */
    method Look(ghost whole: Clause, learnt: Clause, i: nat, ghost j: nat, ghost stays: set<Lit>) returns (keep: bool)
      requires Coherent() && Thinning(whole, learnt, i, j, stays) && i < |learnt| && Asserting(formula, trail, whole)
      requires learnt[i].x in seen
      ensures keep <==> !Supported(clauses, trail, learnt[i].x, seen)
    {
      keep := learnt[i].x !in trail.reason;
      if !keep {
        ImpliedAt(whole, learnt, i, j);
        keep := Needed(learnt[i]);
      }
    }

    /** Whether the reason of a marked literal has an unmarked literal above level
        0. */
    method Needed(p: Lit) returns (needed: bool)
      requires Coherent() && Implied(trail, p) && p.x in seen
      ensures !needed <==> Supported(clauses, trail, p.x, seen)
    {
      ReasonAssigned(p, 0);
      var cls := clauses[trail.reason[p.x]];
      var start := if |cls| == 2 then 0 else 1;
      needed := false;
      for k := start to |cls|
        invariant needed <==> exists m :: start <= m < k && Unsupported(cls[m])
      {
        ReasonAssigned(p, k);
        if cls[k].x !in seen && trail.level[cls[k].x] > 0 {
          assert Unsupported(cls[k]);
          needed := true;
        }
      }
      SupportedByRest(p, start);
    }

    predicate Unsupported(q: Lit)
      reads this
    {
      q.x !in seen && (q.x in trail.level ==> trail.level[q.x] > 0)
    }

    /** The reason of an implied literal is a clause with assigned literals. */
    lemma ReasonAssigned(p: Lit, m: nat)
      requires Coherent() && Implied(trail, p)
      ensures trail.reason[p.x] < |clauses| && |clauses[trail.reason[p.x]]| > 1
      ensures var cls := clauses[trail.reason[p.x]];
        && (m < |cls| ==> cls[m].x in trail.level)
        && (|cls| == 2 || cls[0] == p.Not())
    {
      var k :| 0 <= k < |trail.lits| && trail.lits[k] == p.Not();
      ConsistentIs(formula, clauses, trail);
      assert Justified(formula, clauses, trail, k);
      var cls := clauses[trail.reason[p.x]];
      if m < |cls| && cls[m] != trail.lits[k] {
        assert cls[m] in LitSet(cls) - {trail.lits[k]};
        FalseAssigned(trail, cls[m], k);
      }
    }

    lemma SupportedByRest(p: Lit, start: nat)
      requires Coherent() && Implied(trail, p) && p.x in seen && trail.reason[p.x] < |clauses|
      requires var cls := clauses[trail.reason[p.x]];
        start == if |cls| == 2 then 0 else 1
      ensures var cls := clauses[trail.reason[p.x]];
        Supported(clauses, trail, p.x, seen) <==> forall m | start <= m < |cls| :: !Unsupported(cls[m])
    {
      var cls := clauses[trail.reason[p.x]];
      ReasonAssigned(p, 0);
      if Supported(clauses, trail, p.x, seen) {
        forall m | start <= m < |cls|
          ensures !Unsupported(cls[m])
        {
          assert cls[m] in cls;
        }
      } else {
        var q :| q in cls && q.x != p.x && !(q.x in seen || (q.x in trail.level && trail.level[q.x] == 0));
        var m :| 0 <= m < |cls| && cls[m] == q;
        assert m >= start && Unsupported(cls[m]);
      }
    }

    // ----- resolution with binary clauses -----

    /** Drops the literals that a binary clause with the first literal refutes,
        when the clause has few levels. */
    method MinimizeBinary(whole: Clause) returns (learnt: Clause)
      requires DistinctVars(trail.lits) && BinaryWatched(formula, watchesBin) && Asserting(formula, trail, whole)
      ensures Asserting(formula, trail, learnt) && Thinned(whole, learnt)
      ensures |Levels(trail, whole)| <= lbLbdMinimizingClause ==>
        LitSet(learnt) == {whole[0]} + BinaryStays(watchesBin, whole)
      ensures |Levels(trail, whole)| > lbLbdMinimizingClause ==> learnt == whole
    {
      learnt := whole;
      WholeThinned(whole);
      if |Levels(trail, whole)| <= lbLbdMinimizingClause {
        var marked, nb := CountRefuted(whole);
        ghost var gone := VarsOf(LitSet(whole[1..])) - marked;
        MarkedStay(whole, marked);
        if nb > 0 {
          learnt := SortOut(whole, marked, nb);
        } else {
          assert gone == {};
          FirstAndRest(whole);
        }
      }
    }

    method MarkRest(cls: Clause) returns (marked: set<nat>)
      requires |cls| > 0
      ensures marked == VarsOf(LitSet(cls[1..]))
    {
      marked := {};
      for i := 1 to |cls|
        invariant marked == VarsOf(LitSet(cls[1..i]))
      {
        NextPart(cls, i);
        VarsOfMore(LitSet(cls[1..i]), cls[i]);
        marked := marked + {cls[i].x};
      }
      assert cls[1..|cls|] == cls[1..];
    }

    /** Takes away the marks of the refuted literals, and counts them. */
    method CountRefuted(cls: Clause) returns (marked: set<nat>, nb: nat)
      requires DistinctVars(trail.lits) && BinaryWatched(formula, watchesBin) && Asserting(formula, trail, cls)
      ensures marked <= VarsOf(LitSet(cls[1..])) && nb == |VarsOf(LitSet(cls[1..])) - marked|
      ensures Refutable(formula, cls, VarsOf(LitSet(cls[1..])) - marked)
      ensures BinaryStays(watchesBin, cls) == MarkedOnes(cls, marked)
    {
      marked := MarkRest(cls);
      nb := 0;
      CountStart(formula, cls);
      var p := cls[0].Not();
      var wbin := if p in watchesBin then watchesBin[p] else [];
      for k := 0 to |wbin|
        invariant CountingOk(formula, cls, wbin[..k], marked, nb)
      {
        var imp := wbin[k].blocker;
        assert wbin[..k + 1] == wbin[..k] + [wbin[k]];
        CountNext(formula, trail, cls, wbin[..k], marked, nb, wbin[k]);
        if imp.x in marked && trail.IsTrue(imp) {
          nb := nb + 1;
          marked := marked - {imp.x};
        }
      }
      assert wbin[..|wbin|] == wbin;
      CountDone(formula, cls, watchesBin, wbin, marked, nb);
    }

    /** Moves the unmarked literals to the end and cuts them off. */
    method SortOut(whole: Clause, marked: set<nat>, nb: nat) returns (learnt: Clause)
      requires DistinctVars(trail.lits) && Asserting(formula, trail, whole)
      requires marked <= VarsOf(LitSet(whole[1..])) && nb == |VarsOf(LitSet(whole[1..])) - marked|
      requires Refutable(formula, whole, VarsOf(LitSet(whole[1..])) - marked)
      ensures Asserting(formula, trail, learnt) && Thinned(whole, learnt)
      ensures var gone := VarsOf(LitSet(whole[1..])) - marked;
        LitSet(learnt) == {whole[0]} + set q | q in whole[1..] && q.x !in gone
    {
      ghost var gone := VarsOf(LitSet(whole[1..])) - marked;
      learnt := whole;
      SortStart(trail, whole, gone);
      var i, l := 1, |learnt| - 1;
      while i < |learnt| - nb
        invariant 0 <= l && 1 <= i <= |learnt| - nb && SortingOk(whole, learnt, i, l, gone)
        decreases |learnt| - i + l
      {
        SortNext(whole, learnt, i, l, gone);
        if learnt[i].x !in marked {
          learnt := learnt[l := learnt[i]][i := learnt[l]];
          l := l - 1;
        } else {
          i := i + 1;
        }
      }
      SortedKeeps(formula, trail, whole, learnt, i, l, gone);
      learnt := learnt[..|learnt| - nb];
    }

    // ----- the level to go back to -----

    /** Puts a literal of the highest level below the current one second. */
    method BacktrackLevel(whole: Clause) returns (learnt: Clause, level: nat)
      requires trail.lims != [] && Asserting(formula, trail, whole)
      ensures Asserting(formula, trail, learnt) && LitSet(learnt) == LitSet(whole) && |learnt| == |whole|
      ensures learnt[0] == whole[0] && UnitAt(trail, learnt, level)
    {
      learnt, level := whole, 0;
      if |learnt| > 1 {
        var max := 1;
        for i := 2 to |learnt|
          invariant 1 <= max < |learnt|
          invariant forall k | 1 <= k < i :: trail.level[learnt[k].x] <= trail.level[learnt[max].x]
        {
          if trail.level[learnt[i].x] > trail.level[learnt[max].x] {
            max := i;
          }
        }
        SwapAsserting(formula, trail, learnt, max);
        learnt := Swapped(learnt, 1, max);
        level := trail.level[learnt[1].x];
      }
    }

    method Minimize(uip: Clause) returns (learnt: Clause)
      requires Coherent() && Asserting(formula, trail, uip)
      requires seen == VarsOf(LitSet(uip[1..])) && toClear == uip
      modifies this`seen, this`clauses, this`toClear
      ensures Coherent() && Flips(old(clauses), clauses) && seen <= VarsOf(LitSet(toClear))
      ensures Asserting(formula, trail, learnt) && Thinned(uip, learnt)
      ensures LitSet(learnt) == Minimized(ccminMode, old(clauses), trail, uip)
    {
      learnt := uip;
      if ccminMode == 2 {
        learnt := MinimizeDeep(learnt);
      } else if ccminMode == 1 {
        learnt := MinimizeLocal(learnt);
        FirstAndRest(uip);
      } else {
        WholeThinned(uip);
        FirstAndRest(uip);
      }
    }

    /** Both minimisations, one after the other. */
    method ThinOut(uip: Clause) returns (learnt: Clause, ghost thin: Clause)
      requires Coherent() && Asserting(formula, trail, uip) && BinaryWatched(formula, watchesBin)
      requires seen == VarsOf(LitSet(uip[1..])) && toClear == uip
      modifies this`seen, this`clauses, this`toClear
      ensures Coherent() && Flips(old(clauses), clauses) && seen <= VarsOf(LitSet(toClear))
      ensures Asserting(formula, trail, learnt) && LitSet(thin) == Minimized(ccminMode, old(clauses), trail, uip)
      ensures |thin| > 0 && learnt[0] == thin[0] == uip[0]
      ensures LitSet(learnt) ==
        if |thin| <= lbSizeMinimizingClause && |Levels(trail, thin)| <= lbLbdMinimizingClause
        then {thin[0]} + BinaryStays(watchesBin, thin) else LitSet(thin)
    {
      learnt := Minimize(uip);
      thin := learnt;
      if |learnt| <= lbSizeMinimizingClause {
        TrailOk(formula, clauses, trail);
        learnt := MinimizeBinary(learnt);
      }
    }

    /** The clause of the first unique implication point, thinned out. */
    method FindClause(confl: nat) returns (learnt: Clause, ghost uip: Clause, ghost thin: Clause)
      requires Coherent() && trail.lims != [] && seen == {} && Conflicting(confl)
      requires BinaryWatched(formula, watchesBin)
      modifies this`seen, this`clauses, this`toClear
      ensures Coherent() && Flips(old(clauses), clauses) && seen <= VarsOf(LitSet(toClear))
      ensures Asserting(formula, trail, learnt) && Asserting(formula, trail, uip)
      ensures IsFirstUip(old(clauses), trail, LitSet(old(clauses)[confl]), uip)
      ensures LitSet(thin) == Minimized(ccminMode, old(clauses), trail, uip)
      ensures |thin| > 0 && learnt[0] == thin[0] == uip[0]
      ensures LitSet(learnt) ==
        if |thin| <= lbSizeMinimizingClause && |Levels(trail, thin)| <= lbLbdMinimizingClause
        then {thin[0]} + BinaryStays(watchesBin, thin) else LitSet(thin)
    {
      learnt := Resolve(confl);
      uip := learnt;
      MinimizedSame(ccminMode, old(clauses), clauses, trail, uip);
      toClear := learnt;
      learnt, thin := ThinOut(learnt);
    }

    /** The clause of the event is what the analysis makes of its conflict. */
    ghost predicate Accounted(e: Event) {
      && e.Learnt? && e.confl < |e.db| && IsFirstUip(e.db, e.at, LitSet(e.db[e.confl]), e.uip)
      && |e.uip| > 0 && (forall k | 1 <= k < |e.uip| :: e.uip[k].x in e.at.level)
      && LitSet(e.thin) == Minimized(ccminMode, e.db, e.at, e.uip)
      && |e.thin| > 0 && |e.clause| > 0 && e.clause[0] == e.thin[0] == e.uip[0]
      && (LitSet(e.clause) ==
            if |e.thin| <= lbSizeMinimizingClause && |Levels(e.at, e.thin)| <= lbLbdMinimizingClause
            then {e.thin[0]} + BinaryStays(e.bins, e.thin) else LitSet(e.thin))
      && UnitAt(e.at, e.clause, e.level)
    }

    /** The same, kept folded: the argument n does not matter. */
    ghost predicate AccountedFolded(e: Event, n: nat)
      decreases n
    {
      if n == 0 then Accounted(e) else AccountedFolded(e, n - 1)
    }

    ghost predicate AccountedOk(e: Event) {
      AccountedFolded(e, if e.Learnt? then e.level else 0)
    }

    lemma {:induction false} AccountedIs(e: Event, n: nat)
      ensures AccountedFolded(e, n) <==> Accounted(e)
      decreases n
    {
      if n > 0 {
        AccountedIs(e, n - 1);
      }
    }

    /** The whole analysis: the clause to learn and the level at which it has one
        literal left. */
    method Analyze(confl: nat) returns (learnt: Clause, level: nat, ghost e: Event)
      requires Coherent() && trail.lims != [] && seen == {} && Conflicting(confl)
      requires BinaryWatched(formula, watchesBin)
      modifies this`seen, this`clauses, this`toClear
      ensures Coherent() && Flips(old(clauses), clauses) && seen == {}
      ensures Asserting(formula, trail, learnt) && UnitAt(trail, learnt, level)
      ensures AccountedOk(e) && e.Learnt? && e.db == old(clauses) && e.bins == watchesBin && e.at == trail
      ensures e.confl == confl && e.clause == learnt && e.level == level
    {
      var whole, uip, thin := FindClause(confl);
      learnt, level := BacktrackLevel(whole);
      assert toClear[0..] == toClear;
      Unmark(0);
      e := Learnt(old(clauses), watchesBin, trail, confl, uip, thin, learnt, level);
      AccountedIs(e, level);
    }

    // ----- propagation -----

    /** The trail is consistent, the lists are right, and the watchers of the
        literals before position n are guarded. */
    ghost predicate Ready(n: nat)
      reads this
    {
      && ConsistentOk(formula, clauses, trail) && WatchedOk(clauses, watches) && BinWatchedOk(clauses, watchesBin)
      && GuardsOk(trail, watches, n) && GuardsOk(trail, watchesBin, n)
    }

    /** What is still to be propagated belongs to the current level, and no
        variable is unknown. */
    ghost predicate Queued()
      reads this
    {
      QueueOk(trail, qhead) && Known(clauses, trail, vars)
    }

    method UncheckedEnqueue(p: Lit, from: Option<nat>)
      requires trail.IsFree(p)
      modifies this`trail
      ensures from.Some? ==> trail == Implying(old(trail), p, from.value)
      ensures from.None? ==> trail == Stating(old(trail), p)
    {
      var reason := match from case Some(c) => trail.reason[p.x := c] case None => trail.reason - {p.x};
      trail := trail.(lits := trail.lits + [p], level := trail.level[p.x := |trail.lims|], reason := reason);
    }

    /** One binary clause: satisfied, a conflict, or a new assignment. */
    method VisitBinary(k: nat, w: Watcher) returns (conflict: bool)
      requires 0 < qhead <= |trail.lits| && InBin(formula, clauses, trail, watches, watchesBin, qhead, k) && Queued()
      requires k < |At(watchesBin, trail.lits[qhead - 1])| && w == At(watchesBin, trail.lits[qhead - 1])[k]
      modifies this`trail
      ensures Extends(old(trail), trail) && qhead <= |trail.lits| && Queued()
      ensures conflict ==> trail == old(trail) && Conflicting(w.cref) && |clauses[w.cref]| == 2
      ensures conflict ==> qhead < |trail.lits|
      ensures !conflict ==> InBin(formula, clauses, trail, watches, watchesBin, qhead, k + 1)
    {
      var p := trail.lits[qhead - 1];
      NextBinary(clauses, trail, watchesBin, p, k);
      conflict := trail.IsFalse(w.blocker);
      if conflict {
        FalseConflicts(trail, clauses[w.cref], p);
        LaterQueued(formula, clauses, trail, watches, watchesBin, qhead, k);
      } else if trail.IsFree(w.blocker) {
        BinUnit(formula, clauses, trail, watches, watchesBin, qhead, k);
        OneMoreQueued(clauses, trail, vars, qhead, w.blocker, w.cref);
        UncheckedEnqueue(w.blocker, Some(w.cref));
      } else {
        BinKeep(formula, clauses, trail, watches, watchesBin, qhead, k);
      }
    }

    /** The binary clauses with the negation of the literal before the queue. */
    method PropagateBinary() returns (confl: Option<nat>)
      requires 0 < qhead <= |trail.lits| && InBin(formula, clauses, trail, watches, watchesBin, qhead, 0) && Queued()
      modifies this`trail
      ensures Extends(old(trail), trail) && qhead <= |trail.lits| && Queued()
      ensures confl.None? ==>
        InBin(formula, clauses, trail, watches, watchesBin, qhead, |At(watchesBin, trail.lits[qhead - 1])|)
      ensures confl.Some? ==> Conflicting(confl.value) && |clauses[confl.value]| == 2 && Ready(qhead - 1)
      ensures confl.Some? ==> qhead < |trail.lits|
    {
      var p := trail.lits[qhead - 1];
      var wbin := At(watchesBin, p);
      for k := 0 to |wbin|
        invariant Extends(old(trail), trail) && qhead <= |trail.lits| && Queued() && trail.lits[qhead - 1] == p
        invariant InBin(formula, clauses, trail, watches, watchesBin, qhead, k)
      {
        ghost var now := trail;
        var found := VisitBinary(k, wbin[k]);
        if found {
          return Some(wbin[k].cref);
        }
        ExtendsMore(old(trail), now, trail);
      }
      confl := None;
    }

    /** The state of the loop over the list of one literal. */
    ghost predicate Visiting(n: nat, l: seq<Watcher>, i: nat, j: nat)
      reads this
    {
      InList(formula, clauses, trail, watches, watchesBin, n, l, i, j) && QueueOk(trail, n) && Known(clauses, trail, vars)
    }

    /** The false literal is put second. */
    method PutFalseSecond(c: nat, ghost n: nat, ghost l: seq<Watcher>, ghost i: nat, ghost j: nat, p: Lit)
      requires Visiting(n, l, i, j) && i < |l| && l[i].cref == c && p == trail.lits[n - 1]
      modifies this`clauses
      ensures Visiting(n, l, i, j) && SameClauses(old(clauses), clauses)
      ensures c < |clauses| && |clauses[c]| > 2 && clauses[c][1] == p.Not() && NoRepeats(clauses[c])
    {
      NextWatcher(clauses, trail, watches, p, l, i, j);
      if clauses[c][0] == p.Not() {
        SwapStep(formula, clauses, trail, watches, watchesBin, n, l, i, j, c);
        SwapSet(clauses[c], 0, 1);
        KnownReordered(clauses, trail, vars, c, Swapped(clauses[c], 0, 1));
        clauses := clauses[c := Swapped(clauses[c], 0, 1)];
      }
      ClauseOnce(formula, clauses, trail, c);
    }

    /** The first literal from the third on that is not false. */
    method FindWatch(cls: Clause) returns (k: nat)
      requires |cls| > 2
      ensures 2 <= k <= |cls| && RestFalse(trail, cls, k)
      ensures k < |cls| ==> cls[k].Not() !in trail.lits
    {
      k := 2;
      while k < |cls| && trail.IsFalse(cls[k])
        invariant 2 <= k <= |cls| && RestFalse(trail, cls, k)
      {
        k := k + 1;
      }
    }

    /** Watches another literal of the clause. */
    method MoveWatch(ghost n: nat, ghost l: seq<Watcher>, ghost i: nat, ghost j: nat, c: nat, k: nat)
      requires Visiting(n, l, i, j) && i < |l| && l[i].cref == c
      requires Moving(clauses, trail.lits[n - 1], c, k) && clauses[c][k].Not() !in trail.lits
      modifies this`clauses, this`watches
      ensures Visiting(n, l, i + 1, j) && SameClauses(old(clauses), clauses)
    {
      var cls := clauses[c];
      MoveStep(formula, clauses, trail, watches, watchesBin, n, l, i, j, k);
      SwapSet(cls, 1, k);
      KnownReordered(clauses, trail, vars, c, Swapped(cls, 1, k));
      clauses := clauses[c := Swapped(cls, 1, k)];
      watches := watches[cls[k].Not() := At(watches, cls[k].Not()) + [Watcher(c, cls[0])]];
    }

    /** Looks at one watcher, unless its blocker is true: the clause is satisfied,
        watches another literal, forces its first literal, or is a conflict. */
    method Visit(n: nat, l: seq<Watcher>, i: nat, j: nat) returns (l': seq<Watcher>, j': nat, conflict: bool)
      requires Visiting(n, l, i, j) && i < |l| && !trail.IsTrue(l[i].blocker)
      modifies this`clauses, this`trail, this`watches
      ensures SameClauses(old(clauses), clauses) && Extends(old(trail), trail) && |l'| == |l|
      ensures !conflict ==> Visiting(n, l', i + 1, j')
      ensures conflict ==> Conflicting(l[i].cref) && QueueOk(trail, n) && Known(clauses, trail, vars)
      ensures conflict ==> |clauses[l[i].cref]| > 2
      ensures conflict ==> Stalled(formula, clauses, trail, watches, watchesBin, n, l', i + 1, j')
    {
      l', j', conflict := l, j, false;
      var p, c := trail.lits[n - 1], l[i].cref;
      PutFalseSecond(c, n, l, i, j, p);
      var first := clauses[c][0];
      var w := Watcher(c, first);
      FirstBlocks(clauses[c], p);
      if first != l[i].blocker && trail.IsTrue(first) {
        KeepStep(formula, clauses, trail, watches, watchesBin, n, l, i, j, w);
        l', j' := l[j := w], j + 1;
        return;
      }
      var k := FindWatch(clauses[c]);
      if k < |clauses[c]| {
        MoveWatch(n, l, i, j, c, k);
        return;
      }
      LastLeft(trail, clauses[c], p);
      l', j' := l[j := w], j + 1;
      if trail.IsFalse(first) {
        FalseConflicts(trail, clauses[c], p);
        StallStep(formula, clauses, trail, watches, watchesBin, n, l, i, j, w);
        conflict := true;
      } else {
        UnitStep(formula, clauses, trail, watches, watchesBin, n, l, i, j, w);
        OneMoreQueued(clauses, trail, vars, n, first, c);
        UncheckedEnqueue(first, Some(c));
      }
    }

    /** The longer clauses that watch the negation of the literal before the
        queue. */
    method PropagateList() returns (confl: Option<nat>)
      requires 0 < qhead <= |trail.lits|
      requires Visiting(qhead, At(watches, trail.lits[qhead - 1]), 0, 0)
      modifies this`clauses, this`trail, this`watches, this`qhead
      ensures SameClauses(old(clauses), clauses) && Extends(old(trail), trail) && Queued()
      ensures confl.None? ==> qhead == old(qhead) && Ready(qhead)
      ensures confl.Some? ==> Conflicting(confl.value) && qhead == |trail.lits| && Ready(old(qhead) - 1)
      ensures confl.Some? ==> |clauses[confl.value]| > 2
    {
      var n := qhead;
      var p := trail.lits[n - 1];
      var l, i, j := At(watches, p), 0, 0;
      confl := None;
      while i < |l| && confl.None?
        invariant 0 <= j <= i <= |l| && n <= |trail.lits| && trail.lits[n - 1] == p
        invariant SameClauses(old(clauses), clauses) && Extends(old(trail), trail) && qhead == n
        invariant confl.None? ==> Visiting(n, l, i, j)
        invariant confl.Some? ==> Stalled(formula, clauses, trail, watches, watchesBin, n, l, i, j)
        invariant confl.Some? ==> QueueOk(trail, n) && Known(clauses, trail, vars) && Conflicting(confl.value)
        invariant confl.Some? ==> |clauses[confl.value]| > 2
        decreases |l| - i
      {
        var w := l[i];
        if trail.IsTrue(w.blocker) {
          NextWatcher(clauses, trail, watches, p, l, i, j);
          KeepStep(formula, clauses, trail, watches, watchesBin, n, l, i, j, w);
          l, i, j := l[j := w], i + 1, j + 1;
        } else {
          var found: bool;
          ghost var now := trail;
          l, j, found := Visit(n, l, i, j);
          ExtendsMore(old(trail), now, trail);
          i := i + 1;
          if found {
            confl := Some(w.cref);
          }
        }
      }
      if confl.Some? {
        qhead := |trail.lits|;
      }
      CloseList(n, p, l, i, j, confl.Some?);
    }

    /** Copies what is left of the list, and shortens it. */
    method CloseList(n: nat, p: Lit, l0: seq<Watcher>, i0: nat, j0: nat, ghost stuck: bool)
      requires Stalled(formula, clauses, trail, watches, watchesBin, n, l0, i0, j0) && trail.lits[n - 1] == p
      requires !stuck ==> i0 == |l0| && KeptGuarded(trail, p, l0, j0)
      modifies this`watches
      ensures Ready(if stuck then n - 1 else n)
    {
      var l, i, j := l0, i0, j0;
      while i < |l|
        invariant 0 <= j <= i <= |l| && Stalled(formula, clauses, trail, watches, watchesBin, n, l, i, j)
        invariant !stuck ==> i == |l| && KeptGuarded(trail, p, l, j)
        invariant watches == old(watches)
      {
        CopyOne(watches, p, l, i, j);
        l, i, j := l[j := l[i]], i + 1, j + 1;
      }
      VirtualEnd(watches, p, l, j);
      if stuck {
        FewerGuards(trail, watchesBin, n, n - 1);
      } else {
        ListDone(formula, clauses, trail, watches, watchesBin, n, l, j);
      }
      watches := watches[p := l[..j]];
    }

    /** Draws all consequences of the queued assignments, or finds a false clause.
        The queue is then empty, unless the clause is binary: its literal that
        became false later is still in the queue. */
    method Propagate() returns (confl: Option<nat>)
      requires Ready(qhead) && Queued()
      modifies this`clauses, this`trail, this`watches, this`qhead
      ensures SameClauses(old(clauses), clauses) && Extends(old(trail), trail) && Queued()
      ensures confl.None? ==> qhead == |trail.lits| && Ready(qhead)
      ensures confl.None? ==> forall c | 0 <= c < |clauses| && |clauses[c]| > 1 :: Settled(trail, clauses[c])
      ensures confl.Some? ==> Conflicting(confl.value) && Ready(LastLim(trail))
      ensures confl.Some? ==> (qhead == |trail.lits| <==> |clauses[confl.value]| > 2)
    {
      confl := None;
      TrailBounded(formula, clauses, trail, vars);
      while qhead < |trail.lits| && confl.None?
        invariant SameClauses(old(clauses), clauses) && Extends(old(trail), trail) && Queued()
        invariant confl.None? ==> Ready(qhead)
        invariant confl.Some? ==> Conflicting(confl.value) && Ready(LastLim(trail))
        invariant confl.Some? ==> (qhead == |trail.lits| <==> |clauses[confl.value]| > 2)
        invariant confl.None? ==> |trail.lits| <= |vars|
        decreases confl.None?, |vars| - qhead
      {
        ghost var now := trail;
        confl := PropagateOne();
        ExtendsMore(old(trail), now, trail);
        if confl.None? {
          TrailBounded(formula, clauses, trail, vars);
        }
      }
      if confl.None? {
        AllSettled(formula, clauses, trail, watches, watchesBin);
      }
    }

    method PropagateLiteral() returns (confl: Option<nat>)
      requires Ready(qhead) && Queued() && qhead < |trail.lits|
      modifies this`clauses, this`trail, this`watches, this`qhead
      ensures SameClauses(old(clauses), clauses) && Extends(old(trail), trail) && Queued()
      ensures confl.None? ==> qhead == old(qhead) + 1 && Ready(qhead)
      ensures confl.Some? ==> Conflicting(confl.value) && Ready(old(qhead))
      ensures confl.Some? ==> (qhead == |trail.lits| <==> |clauses[confl.value]| > 2)
    {
      TakeOne(formula, clauses, trail, watches, watchesBin, qhead, vars);
      qhead := qhead + 1;
      confl := PropagateBinary();
      if confl.None? {
        BinDone(formula, clauses, trail, watches, watchesBin, qhead);
        ghost var now := trail;
        confl := PropagateList();
        ExtendsMore(old(trail), now, trail);
      }
    }

    /** Takes one assignment from the queue. */
    method PropagateOne() returns (confl: Option<nat>)
      requires Ready(qhead) && Queued() && qhead < |trail.lits|
      modifies this`clauses, this`trail, this`watches, this`qhead
      ensures SameClauses(old(clauses), clauses) && Extends(old(trail), trail) && Queued()
      ensures confl.None? ==> qhead == old(qhead) + 1 && Ready(qhead)
      ensures confl.Some? ==> Conflicting(confl.value) && Ready(LastLim(trail))
      ensures confl.Some? ==> (qhead == |trail.lits| <==> |clauses[confl.value]| > 2)
    {
      LateEnough(formula, clauses, trail, qhead);
      confl := PropagateLiteral();
      if confl.Some? {
        FewerGuards(trail, watches, old(qhead), LastLim(trail));
        FewerGuards(trail, watchesBin, old(qhead), LastLim(trail));
      }
    }

    // ----- going back and learning -----

    /** Undoes everything above a level. */
    method CancelUntil(level: nat, ghost n: nat)
      requires Ready(n) && LastLim(trail) <= n && Known(clauses, trail, vars)
      modifies this`trail, this`qhead
      ensures level >= |old(trail).lims| ==> trail == old(trail) && qhead == old(qhead)
      ensures level < |old(trail).lims| ==> old(trail).lims[level] <= |old(trail).lits|
      ensures level < |old(trail).lims| ==> trail == Backtracked(old(trail), level)
      ensures level < |old(trail).lims| ==> qhead == |trail.lits| && Ready(qhead) && Queued()
      ensures Facts(old(trail)) <= Facts(trail)
    {
      if |trail.lims| > level {
        BackOk(formula, clauses, trail, watches, watchesBin, level, n);
        BackKnown(clauses, trail, vars, level);
        TrailOk(formula, clauses, trail);
        FactsBack(trail, level);
        qhead := trail.lims[level];
        trail := Backtracked(trail, level);
      }
    }

    /** Adds a clause to the lists of its first two literals. */
    method AttachClause(c: nat)
      requires c < |clauses| && |clauses[c]| > 1
      modifies this`watches, this`watchesBin
      ensures |clauses[c]| == 2 ==> watches == old(watches) && watchesBin == Attached(old(watchesBin), c, clauses[c])
      ensures |clauses[c]| > 2 ==> watchesBin == old(watchesBin) && watches == Attached(old(watches), c, clauses[c])
    {
      var cls := clauses[c];
      var n0, n1 := cls[0].Not(), cls[1].Not();
      if |cls| == 2 {
        watchesBin := watchesBin[n0 := At(watchesBin, n0) + [Watcher(c, cls[1])]];
        watchesBin := watchesBin[n1 := At(watchesBin, n1) + [Watcher(c, cls[0])]];
      } else {
        watches := watches[n0 := At(watches, n0) + [Watcher(c, cls[1])]];
        watches := watches[n1 := At(watches, n1) + [Watcher(c, cls[0])]];
      }
    }

    /** What a search step keeps, besides the lists and the queue. */
    ghost predicate Faithful()
      reads this
    {
      && seen == {} && Covers(formula, clauses, Facts(trail)) && vars == VarsBelow(nVars)
      && forall c | 0 <= c < |clauses| :: |clauses[c]| > 1
    }

    /** How many clauses could still be learnt. */
    ghost function LeftToLearn(): nat
      reads this
    {
      ToLearn(clauses, Facts(trail), vars)
    }

    /** Adds the learnt clause, and assigns the literal it has left. */
    method Learn(learnt: Clause)
      requires Ready(qhead) && Queued() && Faithful() && qhead == |trail.lits|
      requires |learnt| > 0 && Entails(formula, LitSet(learnt)) && KnownClause(learnt, vars)
      requires if |learnt| == 1 then trail.IsFree(learnt[0]) && trail.lims == [] else OneLeft(trail, learnt)
      modifies this`clauses, this`trail, this`watches, this`watchesBin
      ensures Ready(qhead) && Queued() && Faithful()
      ensures |learnt| == 1 ==> trail == Stating(old(trail), learnt[0]) && clauses == old(clauses)
      ensures |learnt| > 1 ==> trail == Implying(old(trail), learnt[0], |old(clauses)|)
      ensures |learnt| > 1 ==> clauses == old(clauses) + [learnt]
      ensures LeftToLearn() < old(LeftToLearn())
    {
      NotStored(formula, clauses, trail, watches, watchesBin, learnt);
      if |learnt| == 1 {
        assert learnt == [learnt[0]] && LitSet(learnt) == {learnt[0]};
        LearnFact(learnt[0]);
        FactCounts(clauses, Facts(old(trail)), learnt[0], Facts(trail), vars);
      } else {
        LearnClause(learnt);
        ClauseCounts(old(clauses), Facts(old(trail)), learnt, Facts(trail), vars);
      }
    }

    method LearnClause(learnt: Clause)
      requires Ready(qhead) && Queued() && Faithful() && qhead == |trail.lits|
      requires OneLeft(trail, learnt) && Entails(formula, LitSet(learnt)) && KnownClause(learnt, vars)
      modifies this`clauses, this`trail, this`watches, this`watchesBin
      ensures Ready(qhead) && Queued() && Faithful()
      ensures trail == Implying(old(trail), learnt[0], |old(clauses)|) && clauses == old(clauses) + [learnt]
      ensures Facts(old(trail)) <= Facts(trail)
    {
      LearnOk(formula, clauses, trail, watches, watchesBin, learnt);
      MoreKnown(clauses, trail, vars, learnt);
      CoversMore(formula, clauses, learnt, Facts(trail));
      clauses := clauses + [learnt];
      AttachClause(|clauses| - 1);
      ghost var s := trail;
      OneMoreQueued(clauses, trail, vars, qhead, learnt[0], |clauses| - 1);
      UncheckedEnqueue(learnt[0], Some(|clauses| - 1));
      FactsMore(s, trail, learnt[0]);
      CoversSame(formula, clauses, clauses, Facts(s), Facts(trail));
    }

    method LearnFact(p: Lit)
      requires Ready(qhead) && Queued() && Faithful() && qhead == |trail.lits|
      requires Entails(formula, {p}) && p.x in vars && trail.IsFree(p) && trail.lims == []
      modifies this`trail
      ensures Ready(qhead) && Queued() && Faithful() && trail == Stating(old(trail), p)
      ensures Facts(old(trail)) <= Facts(trail) && p in Facts(trail)
    {
      ghost var s := trail;
      StateOk(formula, clauses, trail, watches, watchesBin, qhead, p);
      UncheckedEnqueue(p, None);
      FactsMore(s, trail, p);
      CoversSame(formula, clauses, clauses, Facts(s), Facts(trail));
    }

    /** Reordering binary clauses changes nothing else. */
    lemma AfterFlips(before: seq<Clause>, n: nat)
      requires ConsistentOk(formula, clauses, trail) && Flips(before, clauses)
      requires WatchedOk(before, watches) && BinWatchedOk(before, watchesBin)
      requires GuardsOk(trail, watches, n) && GuardsOk(trail, watchesBin, n)
      requires QueueOk(trail, qhead) && Known(before, trail, vars) && Covers(formula, before, Facts(trail))
      requires forall c | 0 <= c < |before| :: |before[c]| > 1
      ensures Ready(n) && Queued() && Covers(formula, clauses, Facts(trail))
      ensures forall c | 0 <= c < |clauses| :: |clauses[c]| > 1
    {
      FlipsWatched(before, clauses, watches);
      FlipsBinWatched(before, clauses, watchesBin);
      SameKnown(before, clauses, trail, vars);
      CoversSame(formula, before, clauses, Facts(trail), Facts(trail));
      assert forall c | 0 <= c < |clauses| :: |clauses[c]| == |before[c]|;
    }

    /** Learns from a conflict and goes back to where the learnt clause has one
        literal left. */
    method HandleConflict(confl: nat) returns (ghost e: Event)
      requires Conflicting(confl) && Ready(LastLim(trail)) && Queued() && Faithful()
      requires trail.lims != [] && Assuming(trail, assumptions)
      modifies this`clauses, this`trail, this`qhead, this`watches, this`watchesBin, this`seen, this`toClear, this`log
      ensures Ready(qhead) && Queued() && Faithful() && Assuming(trail, assumptions)
      ensures |trail.lims| < |old(trail).lims| && LeftToLearn() < old(LeftToLearn())
      ensures log == old(log) + [e] && e.Learnt? && AccountedOk(e)
      ensures Learns(e, old(clauses), old(trail), confl, clauses, trail)
    {
      BinariesEntailed(formula, clauses, trail, watchesBin);
      ghost var before, s := clauses, trail;
      var learnt, level, event := Analyze(confl);
      e := event;
      AfterFlips(before, LastLim(trail));
      ToLearnLess(before, Facts(trail), clauses, Facts(trail), vars);
      ghost var flipped := clauses;
      GoBackAndLearn(learnt, level);
      log := log + [e];
      LearnsIs(e, before, s, confl, flipped, clauses, trail);
    }

    /** Goes back to where the learnt clause has one literal left, and adds it. */
    method GoBackAndLearn(learnt: Clause, level: nat)
      requires Ready(LastLim(trail)) && Queued() && Faithful() && Assuming(trail, assumptions)
      requires Asserting(formula, trail, learnt) && UnitAt(trail, learnt, level)
      modifies this`clauses, this`trail, this`qhead, this`watches, this`watchesBin
      ensures Ready(qhead) && Queued() && Faithful() && Assuming(trail, assumptions)
      ensures |trail.lims| < |old(trail).lims| && LeftToLearn() < old(LeftToLearn())
      ensures old(trail).lims[level] <= |old(trail).lits|
      ensures trail == WithLearnt(Backtracked(old(trail), level), learnt, |old(clauses)|)
      ensures clauses == if |learnt| == 1 then old(clauses) else old(clauses) + [learnt]
    {
      TrailOk(formula, clauses, trail);
      FalseKnown(clauses, trail, vars, learnt);
      LearntLeft(formula, clauses, trail, learnt, level);
      GoBack(level);
      BackAndLearn(learnt);
    }

    /** Goes back to the level. */
    method GoBack(level: nat)
      requires Ready(LastLim(trail)) && Queued() && Faithful() && Assuming(trail, assumptions) && level < |trail.lims|
      modifies this`trail, this`qhead
      ensures Ready(qhead) && Queued() && Faithful() && Assuming(trail, assumptions) && qhead == |trail.lits|
      ensures old(trail).lims[level] <= |old(trail).lits| && trail == Backtracked(old(trail), level)
      ensures LeftToLearn() <= old(LeftToLearn())
    {
      ghost var s := trail;
      TrailOk(formula, clauses, trail);
      AssumingBack(trail, level, assumptions);
      CancelUntil(level, LastLim(trail));
      CoversSame(formula, clauses, clauses, Facts(s), Facts(trail));
      ToLearnLess(clauses, Facts(s), clauses, Facts(trail), vars);
    }

    method BackAndLearn(learnt: Clause)
      requires Ready(qhead) && Queued() && Faithful() && qhead == |trail.lits| && Assuming(trail, assumptions)
      requires |learnt| > 0 && Entails(formula, LitSet(learnt)) && KnownClause(learnt, vars)
      requires if |learnt| == 1 then trail.IsFree(learnt[0]) && trail.lims == [] else OneLeft(trail, learnt)
      modifies this`clauses, this`trail, this`watches, this`watchesBin
      ensures Ready(qhead) && Queued() && Faithful() && Assuming(trail, assumptions)
      ensures trail.lims == old(trail).lims && LeftToLearn() < old(LeftToLearn())
      ensures trail == WithLearnt(old(trail), learnt, |old(clauses)|)
      ensures clauses == if |learnt| == 1 then old(clauses) else old(clauses) + [learnt]
    {
      TrailOk(formula, clauses, trail);
      if |learnt| == 1 {
        AssumingFact(trail, learnt[0], assumptions);
      } else {
        ImplyExtends(trail, learnt[0], |clauses|);
        AssumingExtends(trail, Implying(trail, learnt[0], |clauses|), assumptions);
      }
      Learn(learnt);
    }

    // ----- failed assumptions -----

    /** The decisions that a true literal depends on, negated, together with the
        literal. */
    method AnalyzeFinal(p: Lit) returns (out: seq<Lit>)
      requires Coherent() && seen == {} && trail.IsTrue(p) && p.x in trail.level
      modifies this`seen
      ensures seen == {} && Entails(formula, LitSet(out)) && |out| > 0 && out[0] == p
      ensures forall k | 1 <= k < |out| :: Decided(out[k])
      ensures trail.level[p.x] == 0 ==> out == [p]
      ensures trail.level[p.x] > 0 ==> ExactlyBehind(clauses, trail, p.x, LitSet(out[1..]))
    {
      TrailOk(formula, clauses, trail);
      LitLevel(p);
      out := [p];
      if |trail.lims| == 0 {
        ZeroFact(p);
        return;
      }
      seen := seen + {p.x};
      if trail.level[p.x] == 0 {
        ZeroFact(p);
      } else {
        TraceStart(clauses, trail, p);
        assert Behind(clauses, trail, p.x, p.x, 0);
      }
      out := Decisions(p, out);
      seen := seen - {p.x};
    }

    /** Goes through the assignments above level 0, latest first. */
    method Decisions(p: Lit, first: seq<Lit>) returns (out: seq<Lit>)
      requires Coherent() && trail.lims != [] && trail.lims[0] <= |trail.lits| && p in trail.lits && p.x in trail.level
      requires Final(p, first, {p.x}, trail.level[p.x] == 0, |trail.lits|)
      modifies this`seen
      ensures seen - {p.x} == {} && Entails(formula, LitSet(out)) && |out| > 0 && out[0] == p
      ensures forall k | 1 <= k < |out| :: Decided(out[k])
      ensures trail.level[p.x] == 0 ==> out == [p]
      ensures trail.level[p.x] > 0 ==> ExactlyBehind(clauses, trail, p.x, LitSet(out[1..]))
    {
      out := first;
      ghost var marked := {p.x};
      var i := |trail.lits|;
      while i > trail.lims[0]
        invariant trail.lims[0] <= i <= |trail.lits| && Final(p, out, marked, trail.level[p.x] == 0, i)
      {
        i := i - 1;
        out, marked := FinalStep(p, i, out, marked);
      }
      FinalDone(p, out, marked);
    }

    /** What the search for the decisions behind a literal keeps. */
    ghost predicate Final(p: Lit, out: seq<Lit>, marked: set<nat>, zero: bool, i: nat)
      reads this
    {
      && |out| > 0 && out[0] == p && (forall k | 1 <= k < |out| :: Decided(out[k]))
      && if zero then out == [p] && seen == {p.x}
         else
           && Tracing(clauses, trail, LitSet(out[1..]), marked, seen, i) && p.x in marked
           && (forall q | q in out[1..] :: q.x in marked)
           && forall y | y in marked :: IsBehind(clauses, trail, p.x, y)
    }

    /** One assignment: a decision is a result, the reason of another is marked. */
    method FinalStep(p: Lit, i: nat, out: seq<Lit>, ghost marked: set<nat>)
      returns (out': seq<Lit>, ghost marked': set<nat>)
      requires Coherent() && trail.lims != [] && trail.lims[0] <= i < |trail.lits| && p.x in trail.level
      requires Final(p, out, marked, trail.level[p.x] == 0, i + 1)
      modifies this`seen
      ensures Final(p, out', marked', trail.level[p.x] == 0, i)
    {
      out', marked' := out, marked;
      var x := trail.lits[i].x;
      NotFact(i);
      TrailOk(formula, clauses, trail);
      if x in seen {
        assert x in marked;
        if x !in trail.reason {
          TraceDecision(clauses, trail, LitSet(out[1..]), marked, seen, i);
          OutMore(out, trail.lits[i].Not());
          out' := out + [trail.lits[i].Not()];
          assert out'[1..] == out[1..] + [trail.lits[i].Not()];
        } else {
          ghost var was, more := seen, Above(trail, clauses[trail.reason[x]], x);
          ReasonAbove(formula, clauses, trail, i, marked);
          MarkReason(i);
          TraceReason(clauses, trail, LitSet(out[1..]), marked, was, i, more);
          MoreBehind(p.x, x);
          marked' := marked + more;
        }
        seen := seen - {x};
      } else if trail.level[p.x] > 0 {
        TraceSkip(clauses, trail, LitSet(out[1..]), marked, seen, i);
      }
    }

    lemma MoreBehind(x: nat, z: nat)
      requires IsBehind(clauses, trail, x, z) && z in trail.reason && trail.reason[z] < |clauses|
      ensures forall y | y in Above(trail, clauses[trail.reason[z]], z) :: IsBehind(clauses, trail, x, y)
    {
      forall y | y in Above(trail, clauses[trail.reason[z]], z)
        ensures IsBehind(clauses, trail, x, y)
      {
        BehindNext(clauses, trail, x, z, y);
      }
    }

    lemma ZeroFact(p: Lit)
      requires Coherent() && p in trail.lits && p.x in trail.level
      requires trail.lims == [] || trail.level[p.x] == 0
      ensures Entails(formula, LitSet([p]))
    {
      ConsistentIs(formula, clauses, trail);
      var at :| 0 <= at < |trail.lits| && trail.lits[at] == p;
      assert trail.lits[at].x in trail.level && trail.level[trail.lits[at].x] <= |trail.lims|;
      LevelZeroEntailed(formula, clauses, trail, at);
      assert LitSet([p]) == {p};
    }

    /** The negation of a decision. */
    predicate Decided(q: Lit)
      reads this
    {
      q.Not() in trail.lits && q.x !in trail.reason && q.x in trail.level && trail.level[q.x] > 0
    }

    lemma NotFact(i: nat)
      requires Coherent() && trail.lims != [] && trail.lims[0] <= i < |trail.lits|
      ensures trail.lits[i].x in trail.level && trail.level[trail.lits[i].x] > 0
      ensures trail.lits[i].x in trail.reason ==> trail.reason[trail.lits[i].x] < |clauses|
    {
      ConsistentIs(formula, clauses, trail);
      assert Justified(formula, clauses, trail, i);
      assert trail.lims[0] <= i <==> 0 < trail.level[trail.lits[i].x];
    }

    lemma OutMore(out: seq<Lit>, q: Lit)
      requires |out| > 0
      ensures LitSet((out + [q])[1..]) == LitSet(out[1..]) + {q}
    {
      assert (out + [q])[1..] == out[1..] + [q];
      LastAdded(out[1..], q);
    }

    /** Marks the variables above level 0 of a reason. */
    method MarkReason(i: nat)
      requires Coherent() && i < |trail.lits| && trail.lits[i].x in seen && trail.lits[i].x in trail.reason
      requires trail.reason[trail.lits[i].x] < |clauses|
      modifies this`seen
      ensures var x := trail.lits[i].x;
        seen == old(seen) + Above(trail, clauses[trail.reason[x]], x)
    {
      var x := trail.lits[i].x;
      var cls := clauses[trail.reason[x]];
      var start := if |cls| == 2 then 0 else 1;
      ReasonLits(i, 0);
      for j := start to |cls|
        invariant seen == old(seen) + set k | start <= k < j && InTrail(cls[k].x) && cls[k].x != x :: cls[k].x
      {
        ReasonLits(i, j);
        if trail.level[cls[j].x] > 0 {
          seen := seen + {cls[j].x};
        }
      }
      AboveIs(i, start);
    }

    predicate InTrail(x: nat)
      reads this
    {
      x in trail.level && trail.level[x] > 0
    }

    lemma ReasonLits(i: nat, j: nat)
      requires Coherent() && i < |trail.lits| && trail.lits[i].x in trail.reason
      ensures trail.reason[trail.lits[i].x] < |clauses|
      ensures var cls := clauses[trail.reason[trail.lits[i].x]];
        && (j < |cls| ==> cls[j].x in trail.level)
        && (|cls| == 2 || (|cls| > 2 && cls[0] == trail.lits[i]))
    {
      ConsistentIs(formula, clauses, trail);
      assert Justified(formula, clauses, trail, i);
      var cls := clauses[trail.reason[trail.lits[i].x]];
      if j < |cls| && cls[j] != trail.lits[i] {
        assert cls[j] in LitSet(cls) - {trail.lits[i]};
        FalseAssigned(trail, cls[j], i);
      }
    }

    lemma AboveIs(i: nat, start: nat)
      requires Coherent() && i < |trail.lits| && trail.lits[i].x in trail.reason
      requires trail.reason[trail.lits[i].x] < |clauses|
      requires start == if |clauses[trail.reason[trail.lits[i].x]]| == 2 then 0 else 1
      ensures var x := trail.lits[i].x;
        var cls := clauses[trail.reason[x]];
        Above(trail, cls, x) == set k | start <= k < |cls| && InTrail(cls[k].x) && cls[k].x != x :: cls[k].x
    {
      var x := trail.lits[i].x;
      var cls := clauses[trail.reason[x]];
      ReasonLits(i, 0);
      forall y | y in Above(trail, cls, x)
        ensures exists k :: start <= k < |cls| && InTrail(cls[k].x) && cls[k].x != x && cls[k].x == y
      {
        var q :| q in cls && q.x != x && q.x in trail.level && trail.level[q.x] > 0 && q.x == y;
        var k :| 0 <= k < |cls| && cls[k] == q;
        assert k >= start && InTrail(cls[k].x);
      }
    }

    lemma FinalDone(p: Lit, out: seq<Lit>, marked: set<nat>)
      requires Coherent() && trail.lims != [] && p in trail.lits && p.x in trail.level
      requires Final(p, out, marked, trail.level[p.x] == 0, trail.lims[0])
      ensures seen - {p.x} == {} && Entails(formula, LitSet(out))
      ensures trail.level[p.x] > 0 ==> ExactlyBehind(clauses, trail, p.x, LitSet(out[1..]))
    {
      if trail.level[p.x] == 0 {
        ZeroFact(p);
      } else {
        TrailOk(formula, clauses, trail);
        FirstAndRest(out);
        DecidedRest(out);
        TraceDone(formula, clauses, trail, LitSet(out[1..]), marked, seen, p);
        TraceExact(clauses, trail, LitSet(out[1..]), marked, seen, p.x);
        assert LitSet(out[1..]) + {p} == LitSet(out);
      }
    }

    lemma DecidedRest(out: seq<Lit>)
      requires |out| > 0 && forall k | 1 <= k < |out| :: Decided(out[k])
      ensures forall q | q in LitSet(out[1..]) :: q.Not() in trail.lits && q.x !in trail.reason
    {
      forall q | q in LitSet(out[1..])
        ensures q.Not() in trail.lits && q.x !in trail.reason
      {
        var k :| 0 <= k < |out[1..]| && out[1..][k] == q;
        assert Decided(out[k + 1]);
      }
    }

    // ----- search -----

    /** Between propagations: the lists, the queue and the facts are right. */
    ghost predicate Valid()
      reads this
    {
      Ready(qhead) && Queued() && Faithful() && forall q | q in assumptions :: q.x in vars
    }

    method NewDecisionLevel()
      requires Valid() && qhead == |trail.lits|
      modifies this`trail
      ensures Valid() && trail == NewLevel(old(trail)) && Facts(trail) == Facts(old(trail))
    {
      NewLevelOk(formula, clauses, trail);
      NewLevelGuards(trail, watches, qhead);
      NewLevelGuards(trail, watchesBin, qhead);
      assert Facts(NewLevel(trail)) == Facts(trail);
      trail := NewLevel(trail);
    }

    /** An unassigned variable with a sign, if there is one. */
    method PickBranchLit() returns (next: Option<Lit>)
      ensures next.Some? ==> next.value.x < nVars && trail.IsFree(next.value)
      ensures next.None? ==> forall x: nat | x < nVars :: Lit(x, false) in trail.lits || Lit(x, true) in trail.lits
    {
      if x: nat :| x < nVars && Lit(x, false) !in trail.lits && Lit(x, true) !in trail.lits {
        var sign: bool := *;
        next := Some(Lit(x, sign));
      } else {
        next := None;
      }
    }

    /** The next assumption that is not yet true gives the decision; with all of
        them true the choice is free. */
    method ChooseNext() returns (next: Option<Lit>, failed: bool, ghost e: Event)
      requires Valid() && qhead == |trail.lits| && Assuming(trail, assumptions)
      modifies this`trail, this`seen, this`conflict, this`log
      ensures Valid() && Skips(old(trail), trail, assumptions) && Assuming(trail, assumptions)
      ensures Facts(trail) == Facts(old(trail))
      ensures failed ==> Refutes(formula, assumptions, conflict) && conflict != []
      ensures failed ==> FailsHere(e)
      ensures log == if failed then old(log) + [e] else old(log)
      ensures !failed && next.Some? ==> trail.IsFree(next.value) && next.value.x in vars
      ensures !failed && next.Some? && |trail.lims| < |assumptions| ==> next.value == assumptions[|trail.lims|]
      ensures !failed && next.None? ==> |trail.lims| >= |assumptions|
      ensures !failed && next.None? ==>
        forall x: nat | x < nVars :: Lit(x, false) in trail.lits || Lit(x, true) in trail.lits
    {
      next, failed, e := None, false, Started(0);
      while |trail.lims| < |assumptions|
        invariant Valid() && Skips(old(trail), trail, assumptions) && Assuming(trail, assumptions) && qhead == |trail.lits|
        invariant Facts(trail) == Facts(old(trail)) && log == old(log)
        decreases |assumptions| - |trail.lims|
      {
        var p := assumptions[|trail.lims|];
        if trail.IsTrue(p) {
          SkipLevel(old(trail));
        } else if trail.IsFalse(p) {
          e := FailedAssumption(p);
          failed := true;
          return;
        } else {
          next := Some(p);
          return;
        }
      }
      next := PickBranchLit();
    }

    /** Opens an empty level for an assumption that is true. */
    method SkipLevel(ghost from: Trail)
      requires Valid() && qhead == |trail.lits| && Assuming(trail, assumptions) && Skips(from, trail, assumptions)
      requires |trail.lims| < |assumptions| && trail.IsTrue(assumptions[|trail.lims|])
      modifies this`trail
      ensures Valid() && Assuming(trail, assumptions) && Skips(from, trail, assumptions)
      ensures |trail.lims| == |old(trail).lims| + 1 && Facts(trail) == Facts(old(trail))
    {
      TrailOk(formula, clauses, trail);
      AssumingDummy(trail, assumptions);
      NewDecisionLevel();
    }

    /** The event is the failure of an assumption in this state. */
    ghost predicate FailsHere(e: Event)
      reads this
    {
      e.Failed? && FailsOk(e) && e.assumps == assumptions && e.core == conflict && e.db == clauses && e.at == trail
    }

    /** The assumptions that make one of them false. */
    method FailedAssumption(p: Lit) returns (ghost e: Event)
      requires Valid() && Assuming(trail, assumptions) && trail.IsFalse(p)
      requires |trail.lims| < |assumptions| && p == assumptions[|trail.lims|]
      modifies this`seen, this`conflict, this`log
      ensures Valid() && Refutes(formula, assumptions, conflict) && conflict != []
      ensures FailsHere(e) && log == old(log) + [e]
    {
      TrailOk(formula, clauses, trail);
      LitLevel(p.Not());
      conflict := AnalyzeFinal(p.Not());
      assert p.Not().Not() == p;
      forall q | q in conflict
        ensures q.Not() in assumptions
      {
        var k :| 0 <= k < |conflict| && conflict[k] == q;
        if k > 0 {
          assert Decided(q);
          LitLevel(q.Not());
          assert DecidedAs(trail, assumptions, q.Not());
        }
      }
      e := Failed(assumptions, clauses, trail, p, conflict);
      FailsIs(e, |conflict|);
      log := log + [e];
    }

    lemma LitLevel(q: Lit)
      requires Leveled(trail) && q in trail.lits
      ensures q.x in trail.level && trail.level[q.x] <= |trail.lims|
    {
      var k :| 0 <= k < |trail.lits| && trail.lits[k] == q;
      assert trail.lits[k].x in trail.level;
    }

    /** Opens a level with a decision. */
    method Decide(p: Lit)
      requires Valid() && qhead == |trail.lits| && Assuming(trail, assumptions) && trail.IsFree(p) && p.x in vars
      requires |trail.lims| < |assumptions| ==> p == assumptions[|trail.lims|]
      modifies this`trail, this`log
      ensures Valid() && Assuming(trail, assumptions) && trail == Stating(NewLevel(old(trail)), p)
      ensures Facts(old(trail)) <= Facts(trail) && log == old(log) + [Decision(p)]
    {
      TrailOk(formula, clauses, trail);
      AssumingDecision(trail, p, assumptions);
      NewDecisionLevel();
      ghost var s := trail;
      StateOk(formula, clauses, trail, watches, watchesBin, qhead, p);
      UncheckedEnqueue(p, None);
      FactsMore(s, trail, p);
      CoversSame(formula, clauses, clauses, Facts(s), Facts(trail));
      log := log + [Decision(p)];
    }

    /** What holds between the steps of the search. */
    ghost predicate InPhase(phase: Phase)
      reads this
    {
      && Queued() && Faithful() && Assuming(trail, assumptions) && (forall q | q in assumptions :: q.x in vars)
      && match phase
         case Running => Ready(qhead)
         case Quiet =>
           && Ready(qhead) && qhead == |trail.lits|
           && forall c | 0 <= c < |clauses| && |clauses[c]| > 1 :: Settled(trail, clauses[c])
         case Clash(confl) => Conflicting(confl) && Ready(LastLim(trail))
    }

    /** The same, kept folded: the argument n does not matter. */
    ghost predicate PhaseFolded(phase: Phase, n: nat)
      reads this
      decreases n
    {
      if n == 0 then InPhase(phase) else PhaseFolded(phase, n - 1)
    }

    ghost predicate PhaseOk(phase: Phase)
      reads this
    {
      PhaseFolded(phase, nVars)
    }

    lemma {:induction false} PhaseIs(phase: Phase, n: nat)
      ensures PhaseFolded(phase, n) <==> InPhase(phase)
      decreases n
    {
      if n > 0 {
        PhaseIs(phase, n - 1);
      }
    }

    /** Propagates, learns and decides until an answer, or until there were enough
        conflicts. */
    method Descend(nofConflicts: nat, ghost before: Log) returns (status: Option<bool>, ghost conflicts: nat)
      requires PhaseOk(Running) && |trail.lits| <= |vars| && RoundOk(log, before, nofConflicts, 0)
      modifies this`clauses, this`trail, this`qhead, this`watches, this`watchesBin, this`seen, this`toClear, this`conflict
      modifies this`log
      ensures status == Some(true) ==> Models(ModelOf(trail), formula)
      ensures status == Some(true) ==> forall a | a in assumptions :: Holds(ModelOf(trail), a)
      ensures status == Some(false) ==> Refutes(formula, assumptions, conflict)
      ensures status == Some(false) && conflict != [] ==> FailedLast()
      ensures status != Some(false) || conflict != [] ==> Valid() && qhead == |trail.lits|
      ensures status == None ==> trail.lims == [] && LeftToLearn() + nofConflicts <= old(LeftToLearn())
      ensures RoundOk(log, before, nofConflicts, conflicts) && (status == None ==> conflicts >= nofConflicts)
    {
      var conflictC := 0;
      conflicts := 0;
      while true
        invariant PhaseOk(Running) && |trail.lits| <= |vars|
        invariant LeftToLearn() + conflictC <= old(LeftToLearn())
        invariant RoundOk(log, before, nofConflicts, conflicts) && conflicts == conflictC
        decreases LeftToLearn(), |vars| - |trail.lits|
      {
        var confl := PropagateAll();
        if confl.Some? {
          conflictC := conflictC + 1;
          if |trail.lims| == 0 {
            RefutedAtZero(confl.value);
            conflict := [];
            status := Some(false);
            return;
          }
          OnConflict(confl.value, before, nofConflicts, conflicts);
          conflicts := conflicts + 1;
        } else {
          if nofConflicts <= conflictC {
            GiveUp();
            status := None;
            return;
          }
          status := GoOn(before, nofConflicts, conflicts);
          if status.Some? {
            return;
          }
        }
      }
    }

    /** A conflict without decisions refutes the formula. */
    lemma RefutedAtZero(confl: nat)
      requires PhaseOk(Clash(confl)) && trail.lims == []
      ensures Refutes(formula, assumptions, [])
    {
      PhaseIs(Clash(confl), nVars);
      ZeroConflict(formula, clauses, trail, confl);
      assert LitSet([]) == {};
    }

    /** Ends the round undecided. */
    method GiveUp()
      requires PhaseOk(Quiet)
      modifies this`trail, this`qhead
      ensures Valid() && trail.lims == [] && qhead == |trail.lits| && LeftToLearn() <= old(LeftToLearn())
    {
      PhaseIs(Quiet, nVars);
      Restart();
    }

    /** Searches until an answer, or until there were enough conflicts. Each conflict
        leaves fewer clauses to learn. */
    method Search(nofConflicts: nat) returns (status: Option<bool>, ghost conflicts: nat)
      requires Valid() && Assuming(trail, assumptions)
      modifies this`clauses, this`trail, this`qhead, this`watches, this`watchesBin, this`seen, this`toClear, this`conflict
      modifies this`log
      ensures status == Some(true) ==> Models(ModelOf(trail), formula)
      ensures status == Some(true) ==> forall a | a in assumptions :: Holds(ModelOf(trail), a)
      ensures status == Some(false) ==> Refutes(formula, assumptions, conflict)
      ensures status == Some(false) && conflict != [] ==> FailedLast()
      ensures status != Some(false) || conflict != [] ==> Valid() && qhead == |trail.lits|
      ensures status == None ==> trail.lims == [] && LeftToLearn() + nofConflicts <= old(LeftToLearn())
      ensures nofConflicts > Budget(|vars|) ==> status.Some?
      ensures RoundOk(log, old(log), nofConflicts, conflicts) && (status == None ==> conflicts >= nofConflicts)
    {
      RoundStart(log, nofConflicts);
      FewToLearn(clauses, Facts(trail), vars);
      log := log + [Started(nofConflicts)];
      TrailBounded(formula, clauses, trail, vars);
      PhaseIs(Running, nVars);
      status, conflicts := Descend(nofConflicts, old(log));
    }

    /** A conflict, as the search counts it. */
    method OnConflict(confl: nat, ghost before: Log, ghost limit: nat, ghost conflicts: nat)
      requires PhaseOk(Clash(confl)) && trail.lims != [] && RoundOk(log, before, limit, conflicts)
      modifies this`clauses, this`trail, this`qhead, this`watches, this`watchesBin, this`seen, this`toClear, this`log
      ensures PhaseOk(Running) && |trail.lits| <= |vars|
      ensures LeftToLearn() < old(LeftToLearn()) && RoundOk(log, before, limit, conflicts + 1)
    {
      PhaseIs(Clash(confl), nVars);
      ghost var e := HandleConflict(confl);
      RoundMore(old(log), before, limit, conflicts, e);
      TrailBounded(formula, clauses, trail, vars);
      PhaseIs(Running, nVars);
    }

    /** No conflict, and not yet enough of them. */
    method GoOn(ghost before: Log, ghost limit: nat, ghost conflicts: nat) returns (status: Option<bool>)
      requires PhaseOk(Quiet) && RoundOk(log, before, limit, conflicts) && conflicts < limit
      modifies this`trail, this`seen, this`conflict, this`log
      ensures PhaseOk(Running) && |trail.lits| <= |vars|
      ensures status.Some? ==> Valid() && qhead == |trail.lits|
      ensures status == Some(true) ==> Models(ModelOf(trail), formula)
      ensures status == Some(true) ==> forall a | a in assumptions :: Holds(ModelOf(trail), a)
      ensures status == Some(false) ==> Refutes(formula, assumptions, conflict) && conflict != []
      ensures status == None ==> |trail.lits| == |old(trail).lits| + 1
      ensures status.Some? ==> trail.lits == old(trail).lits
      ensures LeftToLearn() <= old(LeftToLearn()) && RoundOk(log, before, limit, conflicts)
      ensures status == Some(false) ==> FailedLast()
    {
      ghost var s := trail;
      ghost var e;
      PhaseIs(Quiet, nVars);
      status, e := Proceed();
      if status.None? || !status.value {
        RoundMore(old(log), before, limit, conflicts, e);
      }
      ToLearnLess(clauses, Facts(s), clauses, Facts(trail), vars);
      TrailBounded(formula, clauses, trail, vars);
      PhaseIs(Running, nVars);
    }

    /** The logs before and after the rounds with the limits 0, 1, ...: every round
        but the last one ends undecided, after as many conflicts as it is allowed. */
    ghost predicate Rounds(logs: seq<Log>, conflicts: seq<nat>, limit: nat -> nat, status: Option<bool>) {
      && |logs| == |conflicts| + 1
      && (forall k | 0 <= k < |conflicts| :: RoundOk(logs[k + 1], logs[k], limit(k), conflicts[k]))
      && (forall k | 0 <= k < |conflicts| && (k + 1 < |conflicts| || status == None) :: conflicts[k] >= limit(k))
    }

    lemma MoreRounds(logs: seq<Log>, conflicts: seq<nat>, limit: nat -> nat, now: Log, c: nat, status: Option<bool>)
      requires Rounds(logs, conflicts, limit, None) && RoundOk(now, logs[|conflicts|], limit(|conflicts|), c)
      requires status == None ==> c >= limit(|conflicts|)
      ensures Rounds(logs + [now], conflicts + [c], limit, status)
    {
    }

    /** The limits of the rounds are taken in order. */
    lemma {:induction false} RoundsInOrder(logs: seq<Log>, conflicts: seq<nat>, limit: nat -> nat, status: Option<bool>)
      requires Rounds(logs, conflicts, limit, status)
      ensures Starts(logs[|conflicts|]) == Starts(logs[0]) + seq(|conflicts|, i requires 0 <= i => limit(i))
      decreases |conflicts|
    {
      if conflicts != [] {
        var n := |conflicts| - 1;
        RoundsInOrder(logs[..n + 1], conflicts[..n], limit, None);
        OneStart(logs[n + 1], logs[n], limit(n), conflicts[n]);
      }
    }

    lemma OneStart(now: Log, before: Log, limit: nat, conflicts: nat)
      requires RoundOk(now, before, limit, conflicts)
      ensures Starts(now) == Starts(before) + [limit]
    {
      RoundIs(now, before, limit, conflicts, limit);
      RoundStarts(before, limit, now[|before| + 1..]);
      assert now == before + [Started(limit)] + now[|before| + 1..];
    }

    ghost predicate EventOk(e: Event) {
      (e.Learnt? ==> AccountedOk(e)) && (e.Failed? ==> FailsOk(e))
    }

    /** The log of a round that has seen so many conflicts: every clause learnt comes
        from its conflict, every failed assumption is explained, and no decision is made
        once there were enough conflicts. */
    ghost predicate RoundSoFar(now: Log, before: Log, limit: nat, conflicts: nat) {
      && |before| < |now| && now[..|before|] == before && now[|before|] == Started(limit)
      && OneRound(now[|before| + 1..], limit) && CountLearnt(now[|before| + 1..]) == conflicts
      && forall e | e in now[|before| + 1..] :: EventOk(e)
    }

    /** The same after going back to the facts. */
    ghost predicate FailedFor(assumps: seq<Lit>)
      reads this
    {
      && log != [] && log[|log| - 1].Failed? && FailsOk(log[|log| - 1])
      && log[|log| - 1].assumps == assumps && log[|log| - 1].core == conflict && log[|log| - 1].db == clauses
    }

    /** The last event is the failure that the answer comes from. */
    ghost predicate FailedLast()
      reads this
    {
      log != [] && FailsHere(log[|log| - 1])
    }

    /** The same, kept folded: the argument n does not matter. */
    ghost predicate RoundFolded(now: Log, before: Log, limit: nat, conflicts: nat, n: nat)
      decreases n
    {
      if n == 0 then RoundSoFar(now, before, limit, conflicts) else RoundFolded(now, before, limit, conflicts, n - 1)
    }

    ghost predicate RoundOk(now: Log, before: Log, limit: nat, conflicts: nat) {
      RoundFolded(now, before, limit, conflicts, limit)
    }

    lemma {:induction false} RoundIs(now: Log, before: Log, limit: nat, conflicts: nat, n: nat)
      ensures RoundFolded(now, before, limit, conflicts, n) <==> RoundSoFar(now, before, limit, conflicts)
      decreases n
    {
      if n > 0 {
        RoundIs(now, before, limit, conflicts, n - 1);
      }
    }

    lemma RoundStart(before: Log, limit: nat)
      ensures RoundOk(before + [Started(limit)], before, limit, 0)
    {
      RoundIs(before + [Started(limit)], before, limit, 0, limit);
      assert (before + [Started(limit)])[|before| + 1..] == [];
    }

    lemma RoundMore(now: Log, before: Log, limit: nat, conflicts: nat, e: Event)
      requires RoundOk(now, before, limit, conflicts) && !e.Started? && (Early(e) ==> conflicts < limit)
      requires EventOk(e)
      ensures RoundOk(now + [e], before, limit, conflicts + if e.Learnt? then 1 else 0)
    {
      RoundIs(now, before, limit, conflicts, limit);
      SoFarMore(now, before, limit, conflicts, e);
      RoundIs(now + [e], before, limit, conflicts + (if e.Learnt? then 1 else 0), limit);
    }

    lemma SoFarMore(now: Log, before: Log, limit: nat, conflicts: nat, e: Event)
      requires RoundSoFar(now, before, limit, conflicts) && !e.Started? && (Early(e) ==> conflicts < limit)
      requires EventOk(e)
      ensures RoundSoFar(now + [e], before, limit, conflicts + if e.Learnt? then 1 else 0)
    {
      var round := now[|before| + 1..];
      MoreInRound(round, limit, e);
      assert (now + [e])[|before| + 1..] == round + [e];
      assert (now + [e])[..|before|] == before;
      forall x | x in round + [e]
        ensures EventOk(x)
      {
        assert x in round || x == e;
      }
    }

    /** Goes back to the facts. */
    method Restart()
      requires Valid() && qhead == |trail.lits|
      modifies this`trail, this`qhead
      ensures Valid() && trail.lims == [] && qhead == |trail.lits| && LeftToLearn() <= old(LeftToLearn())
    {
      ghost var s := trail;
      LastLimBounded(formula, clauses, trail);
      CancelUntil(0, qhead);
      CoversSame(formula, clauses, clauses, Facts(s), Facts(trail));
      ToLearnLess(clauses, Facts(s), clauses, Facts(trail), vars);
    }

    /** Propagation, as the search sees it. */
    method PropagateAll() returns (confl: Option<nat>)
      requires PhaseOk(Running)
      modifies this`clauses, this`trail, this`watches, this`qhead
      ensures confl.None? ==> PhaseOk(Quiet)
      ensures confl.Some? ==> PhaseOk(Clash(confl.value))
      ensures trail.lims == old(trail).lims && |old(trail).lits| <= |trail.lits|
      ensures LeftToLearn() <= old(LeftToLearn())
    {
      ghost var before, s := clauses, trail;
      PhaseIs(Running, nVars);
      TrailOk(formula, clauses, trail);
      confl := Propagate();
      AssumingExtends(s, trail, assumptions);
      StillFaithful(before, s);
      FactsStay(s, trail);
      ToLearnLess(before, Facts(s), clauses, Facts(trail), vars);
      PhaseIs(if confl.Some? then Clash(confl.value) else Quiet, nVars);
    }

    /** Without a conflict: an answer, or a decision. */
    method Proceed() returns (status: Option<bool>, ghost e: Event)
      requires Valid() && qhead == |trail.lits| && Assuming(trail, assumptions)
      requires forall c | 0 <= c < |clauses| && |clauses[c]| > 1 :: Settled(trail, clauses[c])
      modifies this`trail, this`seen, this`conflict, this`log
      ensures Valid() && Assuming(trail, assumptions)
      ensures log == if status == Some(true) then old(log) else old(log) + [e]
      ensures status == None ==> e.Decision?
      ensures status == Some(false) ==> FailsHere(e)
      ensures status == Some(true) ==> Models(ModelOf(trail), formula)
      ensures status == Some(true) ==> forall a | a in assumptions :: Holds(ModelOf(trail), a)
      ensures status == Some(false) ==> Refutes(formula, assumptions, conflict) && conflict != []
      ensures status == None ==> |trail.lits| == |old(trail).lits| + 1
      ensures status.Some? ==> trail.lits == old(trail).lits
      ensures Facts(old(trail)) <= Facts(trail)
    {
      var next, failed;
      next, failed, e := ChooseNext();
      if failed {
        status := Some(false);
        return;
      }
      if next.None? {
        Answer();
        status := Some(true);
        return;
      }
      Decide(next.value);
      status, e := None, Decision(next.value);
    }

    lemma StillFaithful(before: seq<Clause>, s: Trail)
      requires seen == {} && vars == VarsBelow(nVars) && SameClauses(before, clauses) && Extends(s, trail)
      requires Covers(formula, before, Facts(s)) && forall c | 0 <= c < |before| :: |before[c]| > 1
      ensures Faithful()
    {
      FactsStay(s, trail);
      CoversSame(formula, before, clauses, Facts(s), Facts(trail));
    }

    /** A full trail without a conflict is a model of the formula and the
        assumptions. */
    lemma Answer()
      requires Valid() && Assuming(trail, assumptions) && |trail.lims| >= |assumptions|
      requires forall c | 0 <= c < |clauses| && |clauses[c]| > 1 :: Settled(trail, clauses[c])
      requires forall x: nat | x < nVars :: Lit(x, false) in trail.lits || Lit(x, true) in trail.lits
      ensures Models(ModelOf(trail), formula) && forall a | a in assumptions :: Holds(ModelOf(trail), a)
    {
      FullTrail(formula, clauses, trail, vars);
      TrailOk(formula, clauses, trail);
      forall a | a in assumptions
        ensures Holds(ModelOf(trail), a)
      {
        var k :| 0 <= k < |assumptions| && assumptions[k] == a;
        assert assumptions[k] in trail.lits;
        TrailHolds(trail, a);
      }
    }

    // ----- the solver's interface -----

    /** Between calls: nothing is decided, and once the formula is known to be
        unsatisfiable it stays so. */
    ghost predicate Stable()
      reads this
    {
      && (ok ==> Valid() && trail.lims == [] && qhead == |trail.lits|)
      && (!ok ==> Entails(formula, {}))
    }

    constructor (ccminMode: nat, lbSizeMinimizingClause: nat, lbLbdMinimizingClause: nat)
      ensures Stable() && formula == [] && nVars == 0 && ok && assumptions == []
      ensures clauses == [] && trail.lits == []
    {
      this.ccminMode := ccminMode;
      this.lbSizeMinimizingClause := lbSizeMinimizingClause;
      this.lbLbdMinimizingClause := lbLbdMinimizingClause;
      formula, vars, nVars := [], {}, 0;
      clauses, trail, qhead := [], Trail([], map[], map[], []), 0;
      watches, watchesBin := map[], map[];
      seen, toClear, ok, assumptions, conflict := {}, [], true, [], [];
      new;
      EmptyOk();
    }

    lemma EmptyOk()
      requires clauses == [] && trail == Trail([], map[], map[], []) && watches == map[] && watchesBin == map[]
      ensures ConsistentOk(formula, clauses, trail) && WatchedOk(clauses, watches) && BinWatchedOk(clauses, watchesBin)
      ensures GuardsOk(trail, watches, 0) && GuardsOk(trail, watchesBin, 0)
    {
      ConsistentIs(formula, clauses, trail);
      WatchedIs(clauses, watches);
      BinWatchedIs(clauses, watchesBin);
      GuardsIs(trail, watches, 0);
      GuardsIs(trail, watchesBin, 0);
    }

    /** Creates a variable. */
    method NewVar() returns (x: nat)
      requires Stable()
      modifies this`vars, this`nVars
      ensures Stable() && x == old(nVars) && nVars == x + 1
    {
      x := nVars;
      ghost var before := vars;
      nVars := nVars + 1;
      vars := VarsBelow(nVars);
      if ok {
        KnownMore(clauses, trail, before, vars);
      }
    }

    /** Searches in rounds with the limits limit(0), limit(1), ...; a budget may end the
        search after any of them. */
    method SearchInRounds(limit: nat -> nat, budgeted: bool)
      returns (status: Option<bool>, ghost logs: seq<Log>, ghost conflicts: seq<nat>)
      requires Valid() && trail.lims == [] && qhead == |trail.lits| && forall i: nat :: limit(i) > 0
      modifies this`clauses, this`trail, this`qhead, this`watches, this`watchesBin, this`seen, this`toClear
      modifies this`conflict, this`log
      ensures status == Some(true) ==> Models(ModelOf(trail), formula)
      ensures status == Some(true) ==> forall a | a in assumptions :: Holds(ModelOf(trail), a)
      ensures status == Some(false) ==> Refutes(formula, assumptions, conflict)
      ensures status == Some(false) && conflict != [] ==> FailedLast()
      ensures status != Some(false) || conflict != [] ==> Valid() && qhead == |trail.lits|
      ensures !budgeted ==> status.Some?
      ensures Rounds(logs, conflicts, limit, status) && conflicts != [] && logs[0] == old(log) && log == logs[|conflicts|]
    {
      status, logs, conflicts := None, [log], [];
      var currRestarts := 0;
      while status.None?
        invariant status != Some(false) || conflict != [] ==> Valid() && qhead == |trail.lits|
        invariant status.None? ==> trail.lims == []
        invariant status == Some(true) ==> Models(ModelOf(trail), formula)
        invariant status == Some(true) ==> forall a | a in assumptions :: Holds(ModelOf(trail), a)
        invariant status == Some(false) ==> Refutes(formula, assumptions, conflict)
        invariant status == Some(false) && conflict != [] ==> FailedLast()
        invariant |conflicts| == currRestarts && (status.Some? ==> conflicts != [])
        invariant Rounds(logs, conflicts, limit, status) && logs[0] == old(log) && log == logs[|conflicts|]
        decreases status.None?, LeftToLearn()
      {
        TrailOk(formula, clauses, trail);
        AssumingStart(trail, assumptions);
        assert limit(currRestarts) > 0;
        ghost var c;
        status, c := Search(limit(currRestarts));
        MoreRounds(logs, conflicts, limit, log, c, status);
        logs, conflicts := logs + [log], conflicts + [c];
        var exhausted: bool := *;
        if budgeted && exhausted {
          break;
        }
        currRestarts := currRestarts + 1;
      }
    }

    /** Decides the formula together with the assumptions. The solver restarts after
        limit(0), limit(1), ... conflicts; a budget may end the search after any of
        these rounds, but without one there is always an answer. */
    method Solve(assumps: seq<Lit>, limit: nat -> nat, budgeted: bool)
      returns (status: Option<bool>, model: seq<Lit>, ghost logs: seq<Log>, ghost conflicts: seq<nat>)
      requires Stable() && (forall a | a in assumps :: a.x < nVars) && forall i: nat :: limit(i) > 0
      modifies this`clauses, this`trail, this`qhead, this`watches, this`watchesBin, this`seen, this`toClear
      modifies this`conflict, this`assumptions, this`ok, this`log
      ensures Stable()
      ensures status == Some(true) ==> Models(TruthOf(model), formula)
      ensures status == Some(true) ==> forall a | a in assumps :: Holds(TruthOf(model), a)
      ensures status == Some(false) ==> Refutes(formula, assumps, conflict)
      ensures status == Some(false) && conflict != [] && old(ok) ==> FailedFor(assumps)
      ensures !budgeted ==> status.Some?
      ensures old(ok) ==> Rounds(logs, conflicts, limit, status) && logs[0] == old(log) && log == logs[|conflicts|]
      ensures !old(ok) ==> status == Some(false) && conflict == [] && log == old(log)
    {
      conflict, model, logs, conflicts := [], [], [], [];
      if !ok {
        status := Some(false);
        return;
      }
      assumptions := assumps;
      status, logs, conflicts := SearchInRounds(limit, budgeted);
      model := Conclude(status);
    }

    /** Reads the model, or finds the formula unsatisfiable, and goes back to the facts. */
    method Conclude(status: Option<bool>) returns (model: seq<Lit>)
      requires ok && (status != Some(false) || conflict != [] ==> Valid() && qhead == |trail.lits|)
      requires status == Some(true) ==> Models(ModelOf(trail), formula)
      requires status == Some(true) ==> forall a | a in assumptions :: Holds(ModelOf(trail), a)
      requires status == Some(false) ==> Refutes(formula, assumptions, conflict)
      modifies this`trail, this`qhead, this`ok
      ensures Stable() && ok == (status != Some(false) || conflict != [])
      ensures status == Some(true) ==> Models(TruthOf(model), formula)
      ensures status == Some(true) ==> forall a | a in assumptions :: Holds(TruthOf(model), a)
    {
      model := [];
      if status == Some(true) {
        model := trail.lits;
      } else if status == Some(false) && conflict == [] {
        assert LitSet(conflict) == {};
        ok := false;
      }
      if ok {
        Restart();
      }
    }

    /** Drops false and repeated literals, in order; a true literal or two opposite
        ones satisfy the clause. */
    method Simplify(ps: Clause) returns (kept: Clause, satisfied: bool)
      ensures satisfied ==> exists q :: q in ps && (q in trail.lits || q.Not() in ps)
      ensures !satisfied ==> KeysStrictlyAscend(kept) && LitSet(kept) <= LitSet(ps)
      ensures !satisfied ==> forall q | q in kept :: trail.IsFree(q)
      ensures !satisfied ==> forall q | q in ps && q !in kept :: q.Not() in trail.lits
    {
      var sorted := SortLits(ps);
      Sorts(ps);
      kept, satisfied := [], false;
      for i := 0 to |sorted|
        invariant KeysStrictlyAscend(kept) && LitSet(kept) <= LitSet(ps)
        invariant forall q | q in kept :: trail.IsFree(q)
        invariant forall k | 0 <= k < i :: sorted[k] in kept || sorted[k].Not() in trail.lits
        invariant kept != [] ==> forall k | i <= k < |sorted| :: Key(kept[|kept| - 1]) <= Key(sorted[k])
      {
        var q := sorted[i];
        assert q in LitSet(sorted);
        if trail.IsTrue(q) || (kept != [] && q == kept[|kept| - 1].Not()) {
          SatisfiedBy(ps, kept, q);
          return kept, true;
        }
        if !trail.IsFalse(q) && (kept == [] || q != kept[|kept| - 1]) {
          KeepAscending(kept, q);
          LastAdded(kept, q);
          kept := kept + [q];
        }
      }
      forall q | q in ps && q !in kept
        ensures q.Not() in trail.lits
      {
        assert q in LitSet(ps) && q in LitSet(sorted);
        var k :| 0 <= k < |sorted| && sorted[k] == q;
      }
    }

    lemma SatisfiedBy(ps: Clause, kept: Clause, q: Lit)
      requires q in ps && LitSet(kept) <= LitSet(ps)
      requires q in trail.lits || (kept != [] && q == kept[|kept| - 1].Not())
      ensures exists r :: r in ps && (r in trail.lits || r.Not() in ps)
    {
      if q !in trail.lits {
        assert kept[|kept| - 1] in LitSet(kept);
        assert q.Not() == kept[|kept| - 1];
      }
    }

    /** Adds a clause to the formula. */
    method AddClause(ps: Clause) returns (r: bool)
      requires Stable() && forall q | q in ps :: q.x < nVars
      modifies this`formula, this`clauses, this`trail, this`qhead, this`watches, this`watchesBin, this`ok
      ensures Stable() && formula == old(formula) + [ps] && (r <==> ok)
      ensures old(ok) && Unassigned(old(trail), ps) && |LitSet(ps)| > 1 ==>
        ok && trail == old(trail) && qhead == old(qhead) && StoresOne(old(clauses), clauses, ps)
    {
      ghost var less := formula;
      formula := formula + [ps];
      if !ok {
        MoreEntails(less, [ps], {});
        return false;
      }
      MoreFormula(less, [ps], clauses, trail);
      var kept, satisfied := Simplify(ps);
      if satisfied {
        AlreadyCovered(less, ps);
        return true;
      }
      RestEntailed(formula, clauses, trail, ps, kept);
      AscendingOnce(kept);
      PartKnown(ps, kept, vars);
      AllKept(trail, ps, kept);
      if |kept| == 0 {
        assert LitSet(kept) == {};
        ok := false;
      } else if |kept| == 1 {
        AddUnit(less, ps, kept);
      } else {
        AddLong(less, ps, kept);
      }
      r := ok;
    }

    /** Of a clause without assigned or opposite literals, everything is kept. */
    lemma AllKept(t: Trail, ps: Clause, kept: Clause)
      requires LitSet(kept) <= LitSet(ps) && forall q | q in ps && q !in kept :: q.Not() in t.lits
      ensures Unassigned(t, ps) ==> LitSet(kept) == LitSet(ps)
      ensures Unassigned(t, ps) && |LitSet(ps)| > 1 ==> |kept| > 1
    {
      if Unassigned(t, ps) {
        assert LitSet(kept) == LitSet(ps);
        FewLits(kept);
      }
    }

    lemma AlreadyCovered(less: seq<Clause>, ps: Clause)
      requires ConsistentOk(formula, clauses, trail) && trail.lims == [] && Covers(less, clauses, Facts(trail))
      requires exists q :: q in ps && (q in trail.lits || q.Not() in ps)
      ensures Covers(less + [ps], clauses, Facts(trail))
    {
      TrailOk(formula, clauses, trail);
      var q :| q in ps && (q in trail.lits || q.Not() in ps);
      if q in trail.lits {
        AllFacts(trail, q);
      }
      CoversClause(less, ps, clauses, Facts(trail));
    }

    /** What holds of the solver except that the newest clause of the formula is
        not yet covered. */
    ghost predicate Adding(less: seq<Clause>, ps: Clause, kept: Clause)
      reads this
    {
      && formula == less + [ps] && Ready(qhead) && Queued() && seen == {} && vars == VarsBelow(nVars)
      && Covers(less, clauses, Facts(trail)) && (forall c | 0 <= c < |clauses| :: |clauses[c]| > 1)
      && trail.lims == [] && qhead == |trail.lits| && (forall q | q in assumptions :: q.x in vars)
      && LitSet(kept) <= LitSet(ps) && KnownClause(kept, vars) && NoRepeats(kept)
      && Entails(formula, LitSet(kept)) && forall q | q in kept :: trail.IsFree(q)
    }

    /** A unit clause is a fact, and is propagated. */
    method AddUnit(ghost less: seq<Clause>, ghost ps: Clause, kept: Clause)
      requires Adding(less, ps, kept) && |kept| == 1 && ok
      modifies this`clauses, this`trail, this`watches, this`qhead, this`ok
      ensures Stable()
    {
      var p := kept[0];
      ghost var s := trail;
      assert LitSet(kept) == {p} && p in kept;
      StateOk(formula, clauses, trail, watches, watchesBin, qhead, p);
      UncheckedEnqueue(p, None);
      FactsMore(s, trail, p);
      CoversSame(less, clauses, clauses, Facts(s), Facts(trail));
      CoversClause(less, ps, clauses, Facts(trail));
      ghost var before, t := clauses, trail;
      var confl := Propagate();
      if confl.Some? {
        ZeroConflict(formula, clauses, trail, confl.value);
        ok := false;
      } else {
        StillFaithful(before, t);
      }
    }

    /** A longer clause is attached. */
    method AddLong(ghost less: seq<Clause>, ghost ps: Clause, kept: Clause)
      requires Adding(less, ps, kept) && |kept| > 1 && ok
      modifies this`clauses, this`watches, this`watchesBin
      ensures Stable() && clauses == old(clauses) + [kept]
    {
      MoreConsistent(formula, clauses, trail, kept);
      assert kept[0] in kept && kept[1] in kept && kept[0] != kept[1];
      if |kept| > 2 {
        AttachLong(clauses, watches, watchesBin, kept);
        AttachGuards(trail, watches, |clauses|, kept, qhead);
      } else {
        AttachBin(clauses, watches, watchesBin, kept);
        AttachGuards(trail, watchesBin, |clauses|, kept, qhead);
      }
      MoreKnown(clauses, trail, vars, kept);
      CoversMore(less, clauses, kept, Facts(trail));
      assert kept in clauses + [kept];
      CoversClause(less, ps, clauses + [kept], Facts(trail));
      clauses := clauses + [kept];
      AttachClause(|clauses| - 1);
    }
  }
}
