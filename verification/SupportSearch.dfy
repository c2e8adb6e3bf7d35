/** The search that decides whether a literal of a learnt clause follows from
    marked literals (src/sat/solvers/glucose/src/core/Solver.cc:926-960). */
module SupportSearch {
  import opened Trails
  import opened FirstUip
  import opened ClauseMinimization

  /** A false literal that was implied. */
  ghost predicate Implied(s: Trail, q: Lit) {
    FalseBy(s.lits, q, |s.lits|) && q.x in s.reason
  }

  /** The marks are those of before and the recorded literals from position top
      on. */
  ghost predicate MarkedSince(seen: set<nat>, toClear: seq<Lit>, before: set<nat>, top: nat) {
    && top <= |toClear| && seen == before + VarsOf(LitSet(toClear[top..]))
    && before !! VarsOf(LitSet(toClear[top..]))
  }

  lemma MarkOne(seen: set<nat>, toClear: seq<Lit>, before: set<nat>, top: nat, q: Lit)
    requires MarkedSince(seen, toClear, before, top) && q.x !in seen
    ensures MarkedSince(seen + {q.x}, toClear + [q], before, top)
  {
    assert (toClear + [q])[top..] == toClear[top..] + [q];
    LastAdded(toClear[top..], q);
    NewVariable(LitSet(toClear[top..]), q);
  }

  /** What is marked and no longer on the stack is supported, and so is the goal
      unless it is on the stack. */
  ghost predicate Explored(clauses: seq<Clause>, s: Trail, seen: set<nat>, before: set<nat>, goal: Lit, stack: set<Lit>) {
    && (forall q | q in stack :: Implied(s, q))
    && forall x | x in (seen - before) + {goal.x} :: x in VarsOf(stack) || Supported(clauses, s, x, seen)
  }

  lemma PushOne(clauses: seq<Clause>, s: Trail, seen: set<nat>, before: set<nat>, goal: Lit, stack: set<Lit>, q: Lit)
    requires Explored(clauses, s, seen, before, goal, stack) && Implied(s, q)
    ensures Explored(clauses, s, seen + {q.x}, before, goal, stack + {q})
  {
    var next := seen + {q.x};
    forall x | x in (next - before) + {goal.x}
      ensures x in VarsOf(stack + {q}) || Supported(clauses, s, x, next)
    {
      if x == q.x {
        assert q in stack + {q};
      } else if x in VarsOf(stack) {
        var r :| r in stack && r.x == x;
        assert r in stack + {q};
      } else {
        SupportedMore(clauses, s, x, seen, next);
      }
    }
  }

  lemma PopOne(clauses: seq<Clause>, s: Trail, seen: set<nat>, before: set<nat>, goal: Lit, stack: set<Lit>, p: Lit)
    requires Explored(clauses, s, seen, before, goal, stack + {p}) && Supported(clauses, s, p.x, seen)
    ensures Explored(clauses, s, seen, before, goal, stack)
  {
    assert forall q | q in stack :: q in stack + {p};
    forall x | x in (seen - before) + {goal.x}
      ensures x in VarsOf(stack) || Supported(clauses, s, x, seen)
    {
      if x in VarsOf(stack + {p}) {
        var r :| r in stack + {p} && r.x == x;
        assert r in stack || r == p;
      }
    }
  }

  lemma ExploredSame(a: seq<Clause>, b: seq<Clause>, s: Trail, seen: set<nat>, before: set<nat>, goal: Lit,
                     stack: set<Lit>)
    requires Explored(a, s, seen, before, goal, stack) && SameClauses(a, b)
    ensures Explored(b, s, seen, before, goal, stack)
  {
    forall x | x in (seen - before) + {goal.x} && x !in VarsOf(stack)
      ensures Supported(b, s, x, seen)
    {
      SupportedSame(a, b, s, x, seen);
    }
  }

  lemma StackGrows(stack: seq<Lit>, q: Lit)
    ensures LitSet(stack + [q]) == LitSet(stack) + {q}
  {
    LastAdded(stack, q);
  }

  /** A clause whose other literals are all seen or of level 0. */
  lemma BecomesSupported(clauses: seq<Clause>, s: Trail, p: Lit, seen: set<nat>)
    requires p.x in s.reason && s.reason[p.x] < |clauses| && |clauses[s.reason[p.x]]| > 0
    requires clauses[s.reason[p.x]][0] == p.Not()
    requires ReadTo(clauses[s.reason[p.x]], s, seen, |clauses[s.reason[p.x]]|)
    ensures Supported(clauses, s, p.x, seen)
  {
    var cls := clauses[s.reason[p.x]];
    forall q | q in cls && q.x != p.x
      ensures q.x in seen || (q.x in s.level && s.level[q.x] == 0)
    {
      var k :| 0 <= k < |cls| && cls[k] == q;
    }
  }

  /** The literals of the clause up to the position are seen or of level 0. */
  ghost predicate ReadTo(cls: Clause, s: Trail, seen: set<nat>, n: nat) {
    forall k | 1 <= k < n && k < |cls| :: cls[k].x in seen || (cls[k].x in s.level && s.level[cls[k].x] == 0)
  }

  // ----- when there is no support -----

  /** The reason of the variable contains an unmarked literal above level 0. */
  ghost predicate Opens(db: seq<Clause>, s: Trail, seen: set<nat>, x: nat, q: Lit) {
    && x in s.reason && s.reason[x] < |db| && q in LitSet(db[s.reason[x]]) && q.x != x
    && q.x !in seen && q.x in s.level && s.level[q.x] > 0
  }

  /** The search may go on with this variable. */
  predicate Eligible(s: Trail, levels: set<nat>, x: nat) {
    x in s.reason && x in s.level && s.level[x] % 32 in levels
  }

  /** Within n steps along reasons there is an unmarked literal that the search
      may not go on with. */
  ghost predicate Blocked(db: seq<Clause>, s: Trail, levels: set<nat>, seen: set<nat>, x: nat, n: nat)
    decreases n
  {
    && n > 0
    && exists q :: (Opens(db, s, seen, x, q)
                    && (Eligible(s, levels, q.x) ==> Blocked(db, s, levels, seen, q.x, n - 1)))
  }

  ghost predicate Unsupportable(db: seq<Clause>, s: Trail, levels: set<nat>, seen: set<nat>, x: nat) {
    exists n: nat :: Blocked(db, s, levels, seen, x, n)
  }

  lemma OpensBlocked(db: seq<Clause>, s: Trail, levels: set<nat>, seen: set<nat>, x: nat, q: Lit)
    requires Opens(db, s, seen, x, q)
    requires Eligible(s, levels, q.x) ==> Unsupportable(db, s, levels, seen, q.x)
    ensures Unsupportable(db, s, levels, seen, x)
  {
    if Eligible(s, levels, q.x) {
      var n: nat :| Blocked(db, s, levels, seen, q.x, n);
      assert Blocked(db, s, levels, seen, x, n + 1);
    } else {
      assert Blocked(db, s, levels, seen, x, 1);
    }
  }

  /** Everything marked since before may be gone on with, and a literal on the
      stack without support leaves the goal without support. */
  ghost predicate Searched(db: seq<Clause>, s: Trail, levels: set<nat>, before: set<nat>, goal: nat, seen: set<nat>,
                           stack: set<Lit>) {
    && before <= seen
    && (forall x | x in seen - before :: Eligible(s, levels, x))
    && (forall q | q in stack && Unsupportable(db, s, levels, before, q.x) :: Unsupportable(db, s, levels, before, goal))
  }

  lemma SearchOne(db: seq<Clause>, s: Trail, levels: set<nat>, before: set<nat>, goal: nat, seen: set<nat>,
                  stack: set<Lit>, p: Lit, q: Lit)
    requires Searched(db, s, levels, before, goal, seen, stack) && p in stack
    requires Opens(db, s, seen, p.x, q)
    ensures Eligible(s, levels, q.x) ==> Searched(db, s, levels, before, goal, seen + {q.x}, stack + {q})
    ensures !Eligible(s, levels, q.x) ==> Unsupportable(db, s, levels, before, goal)
  {
    assert Opens(db, s, before, p.x, q);
    if Eligible(s, levels, q.x) ==> Unsupportable(db, s, levels, before, q.x) {
      OpensBlocked(db, s, levels, before, p.x, q);
    }
  }

  /** What is supported by eligible marks is not blocked. */
  lemma {:induction false} SupportedNotBlocked(db: seq<Clause>, s: Trail, levels: set<nat>, before: set<nat>,
                                               seen: set<nat>, x: nat, n: nat)
    requires forall y | y in (seen - before) + {x} :: Supported(db, s, y, seen)
    requires forall y | y in seen - before :: Eligible(s, levels, y)
    ensures !Blocked(db, s, levels, before, x, n)
    decreases n
  {
    if n > 0 {
      assert x in (seen - before) + {x};
      assert Supported(db, s, x, seen);
      forall q | Opens(db, s, before, x, q)
        ensures Eligible(s, levels, q.x) && !Blocked(db, s, levels, before, q.x, n - 1)
      {
        assert q in db[s.reason[x]];
        SupportedNotBlocked(db, s, levels, before, seen, q.x, n - 1);
      }
    }
  }

  lemma NothingBlocked(db: seq<Clause>, s: Trail, levels: set<nat>, before: set<nat>, seen: set<nat>)
    requires forall y | y in seen - before :: Supported(db, s, y, seen) && Eligible(s, levels, y)
    ensures forall x | Supported(db, s, x, seen) || x in seen - before :: !Unsupportable(db, s, levels, before, x)
  {
    forall x, n: nat | Supported(db, s, x, seen) || x in seen - before
      ensures !Blocked(db, s, levels, before, x, n)
    {
      SupportedNotBlocked(db, s, levels, before, seen, x, n);
    }
  }

  /** What a search is for: the levels it may visit, the marks it found, the
      position from which it records its own, its literal, and the clauses at its
      start. */
  datatype Quest = Quest(levels: set<nat>, before: set<nat>, top: nat, goal: Lit, db: seq<Clause>)

  /** The whole state of the search: its marks, its stack, and what it shows. */
  ghost predicate SearchingNow(clauses: seq<Clause>, s: Trail, t: Quest, seen: set<nat>, toClear: seq<Lit>, stack: set<Lit>) {
    && MarkedSince(seen, toClear, t.before, t.top)
    && Explored(clauses, s, seen, t.before, t.goal, stack)
    && Searched(t.db, s, t.levels, t.before, t.goal.x, seen, stack)
  }

  /** The same, kept folded: the argument n does not matter. */
  ghost predicate SearchFolded(clauses: seq<Clause>, s: Trail, t: Quest, seen: set<nat>, toClear: seq<Lit>,
                               stack: set<Lit>, n: nat)
    decreases n
  {
    if n == 0 then SearchingNow(clauses, s, t, seen, toClear, stack)
    else SearchFolded(clauses, s, t, seen, toClear, stack, n - 1)
  }

  ghost predicate Searching(clauses: seq<Clause>, s: Trail, t: Quest, seen: set<nat>, toClear: seq<Lit>, stack: set<Lit>) {
    SearchFolded(clauses, s, t, seen, toClear, stack, t.top)
  }

  lemma {:induction false} SearchUnfold(clauses: seq<Clause>, s: Trail, t: Quest, seen: set<nat>, toClear: seq<Lit>,
                                        stack: set<Lit>, n: nat)
    ensures SearchFolded(clauses, s, t, seen, toClear, stack, n) <==> SearchingNow(clauses, s, t, seen, toClear, stack)
    decreases n
  {
    if n > 0 {
      SearchUnfold(clauses, s, t, seen, toClear, stack, n - 1);
    }
  }

  lemma Push(clauses: seq<Clause>, s: Trail, t: Quest, seen: set<nat>, toClear: seq<Lit>, stack: seq<Lit>, p: Lit, q: Lit)
    requires Searching(clauses, s, t, seen, toClear, LitSet(stack) + {p})
    requires Opens(t.db, s, seen, p.x, q) && FalseBy(s.lits, q, |s.lits|)
    ensures Eligible(s, t.levels, q.x) ==>
      Searching(clauses, s, t, seen + {q.x}, toClear + [q], LitSet(stack + [q]) + {p})
    ensures !Eligible(s, t.levels, q.x) ==> Unsupportable(t.db, s, t.levels, t.before, t.goal.x)
  {
    SearchUnfold(clauses, s, t, seen, toClear, LitSet(stack) + {p}, t.top);
    SearchOne(t.db, s, t.levels, t.before, t.goal.x, seen, LitSet(stack) + {p}, p, q);
    if Eligible(s, t.levels, q.x) {
      PushOne(clauses, s, seen, t.before, t.goal, LitSet(stack) + {p}, q);
      MarkOne(seen, toClear, t.before, t.top, q);
      StackGrows(stack, q);
      assert LitSet(stack) + {p} + {q} == LitSet(stack + [q]) + {p};
    }
    SearchUnfold(clauses, s, t, seen + {q.x}, toClear + [q], LitSet(stack + [q]) + {p}, t.top);
  }

  lemma Pop(clauses: seq<Clause>, s: Trail, t: Quest, seen: set<nat>, toClear: seq<Lit>, stack: set<Lit>, p: Lit)
    requires Searching(clauses, s, t, seen, toClear, stack + {p})
    requires p.x in s.reason && s.reason[p.x] < |clauses| && |clauses[s.reason[p.x]]| > 0
    requires clauses[s.reason[p.x]][0] == p.Not()
    requires ReadTo(clauses[s.reason[p.x]], s, seen, |clauses[s.reason[p.x]]|)
    ensures Searching(clauses, s, t, seen, toClear, stack)
  {
    SearchUnfold(clauses, s, t, seen, toClear, stack + {p}, t.top);
    BecomesSupported(clauses, s, p, seen);
    PopOne(clauses, s, seen, t.before, t.goal, stack, p);
    assert forall q | q in stack :: q in stack + {p};
    SearchUnfold(clauses, s, t, seen, toClear, stack, t.top);
  }

  lemma SearchSame(a: seq<Clause>, b: seq<Clause>, s: Trail, t: Quest, seen: set<nat>, toClear: seq<Lit>, stack: set<Lit>)
    requires Searching(a, s, t, seen, toClear, stack) && SameClauses(a, b)
    ensures Searching(b, s, t, seen, toClear, stack)
  {
    SearchUnfold(a, s, t, seen, toClear, stack, t.top);
    ExploredSame(a, b, s, seen, t.before, t.goal, stack);
    SearchUnfold(b, s, t, seen, toClear, stack, t.top);
  }

  lemma SearchStart(s: Trail, t: Quest, toClear: seq<Lit>)
    requires Implied(s, t.goal) && t.top == |toClear|
    ensures Searching(t.db, s, t, t.before, toClear, LitSet([t.goal]))
  {
    assert toClear[|toClear|..] == [];
    assert [t.goal][0] in LitSet([t.goal]);
    SearchUnfold(t.db, s, t, t.before, toClear, LitSet([t.goal]), t.top);
  }

  lemma SearchMarks(clauses: seq<Clause>, s: Trail, t: Quest, seen: set<nat>, toClear: seq<Lit>, stack: set<Lit>)
    requires Searching(clauses, s, t, seen, toClear, stack)
    ensures MarkedSince(seen, toClear, t.before, t.top) && forall q | q in stack :: Implied(s, q)
  {
    SearchUnfold(clauses, s, t, seen, toClear, stack, t.top);
  }

  /** With an empty stack every mark is supported and nothing was blocked. */
  lemma SearchDone(clauses: seq<Clause>, s: Trail, t: Quest, seen: set<nat>, toClear: seq<Lit>)
    requires Searching(clauses, s, t, seen, toClear, {}) && SameClauses(clauses, t.db)
    ensures Supported(clauses, s, t.goal.x, seen)
    ensures forall x | x in seen - t.before :: Supported(clauses, s, x, seen) && Eligible(s, t.levels, x)
    ensures !Unsupportable(t.db, s, t.levels, t.before, t.goal.x)
  {
    SearchUnfold(clauses, s, t, seen, toClear, {}, t.top);
    forall y | y in (seen - t.before) + {t.goal.x}
      ensures Supported(t.db, s, y, seen)
    {
      SupportedSame(clauses, t.db, s, y, seen);
    }
    NothingBlocked(t.db, s, t.levels, t.before, seen);
  }

  // ----- one search after another -----

  function AbstractOf(s: Trail, cls: Clause): set<nat>
    requires forall k | 1 <= k < |cls| :: cls[k].x in s.level
  {
    set k | 1 <= k < |cls| :: s.level[cls[k].x] % 32
  }

  /** The literals, but for the first, that a search does not find redundant when
      the others of the clause are marked. */
  ghost function DeepStays(db: seq<Clause>, s: Trail, cls: Clause): set<Lit>
    requires |cls| > 0 && forall k | 1 <= k < |cls| :: cls[k].x in s.level
  {
    set q | q in cls[1..]
            && (q.x !in s.reason || Unsupportable(db, s, AbstractOf(s, cls), VarsOf(LitSet(cls[1..])), q.x))
  }

  /** The literals, but for the first, whose reasons have other literals than
      those of the clause. */
  ghost function LocalStays(db: seq<Clause>, s: Trail, cls: Clause): set<Lit>
    requires |cls| > 0
  {
    set q | q in cls[1..] && !Supported(db, s, q.x, VarsOf(LitSet(cls[1..])))
  }

  /** More is marked than at first, and it was found redundant. */
  ghost predicate Grown(db: seq<Clause>, s: Trail, levels: set<nat>, first: set<nat>, seen: set<nat>) {
    first <= seen && forall x | x in seen - first :: Supported(db, s, x, seen) && Eligible(s, levels, x)
  }

  lemma {:induction false} BlockedLess(db: seq<Clause>, s: Trail, levels: set<nat>, less: set<nat>, more: set<nat>,
                                       x: nat, n: nat)
    requires Blocked(db, s, levels, more, x, n) && less <= more
    ensures Blocked(db, s, levels, less, x, n)
    decreases n
  {
    var q :| Opens(db, s, more, x, q) && (Eligible(s, levels, q.x) ==> Blocked(db, s, levels, more, q.x, n - 1));
    if Eligible(s, levels, q.x) {
      BlockedLess(db, s, levels, less, more, q.x, n - 1);
    }
    assert Opens(db, s, less, x, q);
  }

  lemma {:induction false} BlockedStill(db: seq<Clause>, s: Trail, levels: set<nat>, first: set<nat>, seen: set<nat>,
                                        x: nat, n: nat)
    requires Blocked(db, s, levels, first, x, n) && Grown(db, s, levels, first, seen)
    ensures Blocked(db, s, levels, seen, x, n)
    decreases n
  {
    var q :| Opens(db, s, first, x, q) && (Eligible(s, levels, q.x) ==> Blocked(db, s, levels, first, q.x, n - 1));
    NothingBlocked(db, s, levels, first, seen);
    assert q.x !in seen by {
      assert Eligible(s, levels, q.x) ==> Unsupportable(db, s, levels, first, q.x);
    }
    if Eligible(s, levels, q.x) {
      BlockedStill(db, s, levels, first, seen, q.x, n - 1);
    }
    assert Opens(db, s, seen, x, q);
  }

  /** The marks of successful searches change no later search. */
  lemma GrownSame(db: seq<Clause>, s: Trail, levels: set<nat>, first: set<nat>, seen: set<nat>, x: nat)
    requires Grown(db, s, levels, first, seen)
    ensures Unsupportable(db, s, levels, first, x) <==> Unsupportable(db, s, levels, seen, x)
  {
    if Unsupportable(db, s, levels, first, x) {
      var n: nat :| Blocked(db, s, levels, first, x, n);
      BlockedStill(db, s, levels, first, seen, x, n);
    }
    if Unsupportable(db, s, levels, seen, x) {
      var n: nat :| Blocked(db, s, levels, seen, x, n);
      BlockedLess(db, s, levels, first, seen, x, n);
    }
  }

  lemma GrownMore(clauses: seq<Clause>, db: seq<Clause>, s: Trail, levels: set<nat>, first: set<nat>, seen: set<nat>,
                  more: set<nat>)
    requires Grown(db, s, levels, first, seen) && seen <= more && SameClauses(clauses, db)
    requires forall x | x in more - seen :: Supported(clauses, s, x, more) && Eligible(s, levels, x)
    ensures Grown(db, s, levels, first, more)
  {
    forall x | x in more - first
      ensures Supported(db, s, x, more) && Eligible(s, levels, x)
    {
      if x in seen {
        SupportedMore(db, s, x, seen, more);
      } else {
        SupportedSame(clauses, db, s, x, more);
      }
    }
  }

  lemma {:induction false} BlockedSame(a: seq<Clause>, b: seq<Clause>, s: Trail, levels: set<nat>, seen: set<nat>,
                                       x: nat, n: nat)
    requires SameClauses(a, b) && Blocked(a, s, levels, seen, x, n)
    ensures Blocked(b, s, levels, seen, x, n)
    decreases n
  {
    var q :| Opens(a, s, seen, x, q) && (Eligible(s, levels, q.x) ==> Blocked(a, s, levels, seen, q.x, n - 1));
    if Eligible(s, levels, q.x) {
      BlockedSame(a, b, s, levels, seen, q.x, n - 1);
    }
    assert Opens(b, s, seen, x, q);
  }

  lemma UnsupportableSame(a: seq<Clause>, b: seq<Clause>, s: Trail, levels: set<nat>, seen: set<nat>, x: nat)
    requires SameClauses(a, b)
    ensures Unsupportable(a, s, levels, seen, x) <==> Unsupportable(b, s, levels, seen, x)
  {
    if Unsupportable(a, s, levels, seen, x) {
      var n: nat :| Blocked(a, s, levels, seen, x, n);
      BlockedSame(a, b, s, levels, seen, x, n);
    }
    if Unsupportable(b, s, levels, seen, x) {
      var n: nat :| Blocked(b, s, levels, seen, x, n);
      BlockedSame(b, a, s, levels, seen, x, n);
    }
  }

  /** Neither depends on the order of literals in clauses. */
  lemma StaysSame(a: seq<Clause>, b: seq<Clause>, s: Trail, cls: Clause)
    requires SameClauses(a, b) && |cls| > 0 && forall k | 1 <= k < |cls| :: cls[k].x in s.level
    ensures DeepStays(a, s, cls) == DeepStays(b, s, cls) && LocalStays(a, s, cls) == LocalStays(b, s, cls)
  {
    var seen := VarsOf(LitSet(cls[1..]));
    forall q | q in cls[1..]
      ensures Unsupportable(a, s, AbstractOf(s, cls), seen, q.x) <==> Unsupportable(b, s, AbstractOf(s, cls), seen, q.x)
      ensures Supported(a, s, q.x, seen) <==> Supported(b, s, q.x, seen)
    {
      UnsupportableSame(a, b, s, AbstractOf(s, cls), seen, q.x);
      SupportedBoth(a, b, s, q.x, seen);
    }
  }

  lemma SupportedBoth(a: seq<Clause>, b: seq<Clause>, s: Trail, x: nat, seen: set<nat>)
    requires SameClauses(a, b)
    ensures Supported(a, s, x, seen) <==> Supported(b, s, x, seen)
  {
    if Supported(a, s, x, seen) {
      SupportedSame(a, b, s, x, seen);
    }
    if Supported(b, s, x, seen) {
      SupportedSame(b, a, s, x, seen);
    }
  }
}
