/** The inductiveness oracle and the greatest safe inductive subset
    (src/pme/engine/consecution_checker.cpp, src/pme/util/find_safe_mis.cpp). */
module ConsecutionCheckers {
  import opened Ids
  import opened Cubes
  import opened ProofSets
  import opened StepQueries

  function SetOf(vec: seq<ClauseID>): set<ClauseID> {
    set id | id in vec
  }

  predicate Violates(p: Proof, s: set<ClauseID>, c: ClauseID, v: Valuation, w: Valuation)
    requires c < |p.clauses|
  {
    p.tr.Step(v, w) && SatSet(p, v, s) && SatClause(v, p.clauses[c]) && !SatClause(w, p.clauses[c])
  }

  // ----- the query -----

  /** getActivatedClause */
  function ActivatedClause(p: Proof, id: ClauseID): TermClause
    requires id < |p.clauses|
  {
    NowClause(p.clauses[id]) + [Off(id)]
  }

  function ActivatedClauses(p: Proof): set<TermClause> {
    set id: ClauseID | 0 <= id < |p.clauses| :: ActivatedClause(p, id)
  }

  /** A clause of the frame has the same literals. */
  predicate IsAdded(p: Proof, frame: set<ClauseID>, c: ClauseID)
    requires c < |p.clauses|
  {
    exists id | id in frame :: id < |p.clauses| && multiset(p.clauses[id]) == multiset(p.clauses[c])
  }

  /** The clause itself need not be added when the frame has it. */
  function SupportClauses(p: Proof, frame: set<ClauseID>, c: ClauseID): set<TermClause>
    requires c < |p.clauses|
  {
    if IsAdded(p, frame, c) then ActivatedClauses(p) else ActivatedClauses(p) + {NowClause(p.clauses[c])}
  }

  function Negated(cls: Clause): set<ID> {
    set lit | lit in cls :: Negate(lit)
  }

  function SupportAssumps(p: Proof, frame: set<ClauseID>, c: ClauseID): set<Term>
    requires c < |p.clauses|
  {
    OnAll(frame) + NextAll(Negated(p.clauses[c]))
  }

  lemma NegatedHold(v: Valuation, cls: Clause)
    ensures SatAll(v, Negated(cls)) <==> !SatClause(v, cls)
  {
    forall lit | lit in cls
      ensures Negate(lit) in Negated(cls) && Holds(v, Negate(lit)) == !Holds(v, lit)
    {
      NegateFlips(v, lit);
    }
  }

  lemma ActivatedHold(p: Proof, v: Valuation, w: Valuation, acts: set<nat>)
    ensures (forall cls | cls in ActivatedClauses(p) :: SomeHolds(v, w, acts, cls)) <==> SatSet(p, v, acts)
  {
    forall id: ClauseID | id < |p.clauses|
      ensures ActivatedClause(p, id) in ActivatedClauses(p)
      ensures SomeHolds(v, w, acts, ActivatedClause(p, id)) <==> (id in acts ==> SatClause(v, p.clauses[id]))
    {
      OrTermHolds(v, w, acts, NowClause(p.clauses[id]), Off(id));
      NowClauseHolds(v, w, acts, p.clauses[id]);
    }
  }

  lemma SameLiterals(v: Valuation, a: Clause, b: Clause)
    requires multiset(a) == multiset(b)
    ensures SatClause(v, a) <==> SatClause(v, b)
  {
    assert forall lit :: lit in a <==> lit in multiset(a);
    assert forall lit :: lit in b <==> lit in multiset(b);
  }

  lemma AssumpsHold(p: Proof, frame: set<ClauseID>, c: ClauseID, v: Valuation, w: Valuation, acts: set<nat>)
    requires c < |p.clauses|
    ensures AllHold(v, w, acts, SupportAssumps(p, frame, c)) <==> frame <= acts && !SatClause(w, p.clauses[c])
  {
    UnionHolds(v, w, acts, OnAll(frame), NextAll(Negated(p.clauses[c])));
    OnAllHold(v, w, acts, frame);
    NextAllHold(v, w, acts, Negated(p.clauses[c]));
    NegatedHold(w, p.clauses[c]);
  }

  /** A satisfying step violates the clause. */
  lemma SatViolates(p: Proof, frame: set<ClauseID>, c: ClauseID, v: Valuation, w: Valuation, acts: set<nat>)
    requires c < |p.clauses|
    requires Answers(p.tr, SupportClauses(p, frame, c), SupportAssumps(p, frame, c), v, w, acts)
    ensures Violates(p, frame, c, v, w)
  {
    AssumpsHold(p, frame, c, v, w, acts);
    ActivatedHold(p, v, w, acts);
    if IsAdded(p, frame, c) {
      var id :| id in frame && id < |p.clauses| && multiset(p.clauses[id]) == multiset(p.clauses[c]);
      SameLiterals(v, p.clauses[id], p.clauses[c]);
    } else {
      NowClauseHolds(v, w, acts, p.clauses[c]);
    }
  }

  /** The part of the frame whose activation literals are in the core. */
  function SupportOf(frame: set<ClauseID>, core: set<Term>): set<ClauseID> {
    set id | id in frame && On(id) in core
  }

  lemma ViolatesAnswers(p: Proof, frame: set<ClauseID>, support: set<ClauseID>, c: ClauseID, v: Valuation, w: Valuation)
    requires c < |p.clauses| && Violates(p, support, c, v, w)
    ensures Answers(p.tr, SupportClauses(p, frame, c), SupportAssumps(p, support, c), v, w, support)
  {
    AssumpsHold(p, support, c, v, w, support);
    ActivatedHold(p, v, w, support);
    NowClauseHolds(v, w, support, p.clauses[c]);
  }

  lemma UnsatSupports(p: Proof, frame: set<ClauseID>, c: ClauseID, core: set<Term>)
    requires c < |p.clauses| && core <= SupportAssumps(p, frame, c) && NoAnswer(p.tr, SupportClauses(p, frame, c), core)
    ensures Supports(p, SupportOf(frame, core), c)
  {
    var support := SupportOf(frame, core);
    assert core <= SupportAssumps(p, support, c);
    forall v, w | p.tr.Step(v, w) && SatSet(p, v, support) && SatClause(v, p.clauses[c])
      ensures SatClause(w, p.clauses[c])
    {
      if !SatClause(w, p.clauses[c]) {
        ViolatesAnswers(p, frame, support, c, v, w);
        assert Answers(p.tr, SupportClauses(p, frame, c), core, v, w, support);
      }
    }
  }

  class ConsecutionChecker {
    const p: Proof
    /** The second time frame of the latest model. */
    var next: Valuation

    constructor (p: Proof)
      ensures this.p == p
    {
      this.p := p;
      next := {};
    }

    /** supportSolve: a supporting part of the frame if it supports the clause,
        and a model that violates the clause if not. */
    method SupportSolve(frame: set<ClauseID>, c: ClauseID)
      returns (r: bool, support: set<ClauseID>, ghost v: Valuation)
      requires c < |p.clauses| && p.tr.WellFormed()
      modifies this
      ensures r <==> Supports(p, frame, c)
      ensures r ==> support <= frame && Supports(p, support, c)
      ensures !r ==> Violates(p, frame, c, v, next)
    {
      var sat, x, y, acts, core := Ask(p.tr, SupportClauses(p, frame, c), SupportAssumps(p, frame, c));
      r, support, v := !sat, {}, x;
      if sat {
        SatViolates(p, frame, c, x, y, acts);
        next := y;
      } else {
        support := SupportOf(frame, core);
        UnsatSupports(p, frame, c, core);
        SupportsMore(p, support, frame, c);
      }
    }

    /** solve */
    method Solve(frame: set<ClauseID>, c: ClauseID) returns (r: bool, ghost v: Valuation)
      requires c < |p.clauses| && p.tr.WellFormed()
      modifies this
      ensures r <==> Supports(p, frame, c)
      ensures !r ==> Violates(p, frame, c, v, next)
    {
      var support;
      r, support, v := SupportSolve(frame, c);
    }

    /** isInductive */
    method IsInductive(frame: seq<ClauseID>) returns (r: bool)
      requires SetOf(frame) <= p.All() && p.tr.WellFormed()
      modifies this
      ensures r <==> Inductive(p, SetOf(frame))
    {
      for i := 0 to |frame|
        invariant forall j | 0 <= j < i :: frame[j] < |p.clauses| && Supports(p, SetOf(frame), frame[j])
      {
        assert frame[i] in SetOf(frame);
        ghost var v;
        r, v := Solve(SetOf(frame), frame[i]);
        if !r {
          return false;
        }
      }
      return true;
    }

    /** isSafeInductive */
    method IsSafeInductive(vec: seq<ClauseID>, nec: set<ClauseID>) returns (r: bool)
      requires SetOf(vec) <= p.All() && p.tr.WellFormed()
      modifies this
      ensures r <==> SafeInductive(p, SetOf(vec), nec)
    {
      r := nec <= SetOf(vec);
      if r {
        r := IsInductive(vec);
      }
    }

    /** removeSATClauses: erases every clause that the model falsifies in its
        second frame, and gives up once a necessary one is erased. */
    method RemoveSatClauses(vec: seq<ClauseID>, nec: set<ClauseID>) returns (r: bool, kept: seq<ClauseID>)
      requires Ascending(vec) && SetOf(vec) <= p.All()
      ensures Ascending(kept) && SetOf(kept) <= SetOf(vec)
      ensures forall id | id in vec && id !in kept :: id < |p.clauses| && !SatClause(next, p.clauses[id])
      ensures r <==> nec * SetOf(vec) <= SetOf(kept)
      ensures r ==> forall id | id in kept :: id < |p.clauses| && SatClause(next, p.clauses[id])
    {
      kept := vec;
      var i: nat := 0;
      while i < |kept|
        invariant i <= |kept| && Ascending(kept) && SetOf(kept) <= SetOf(vec)
        invariant forall id | id in vec && id !in kept :: id < |p.clauses| && !SatClause(next, p.clauses[id]) && id !in nec
        invariant forall j | 0 <= j < i :: kept[j] < |p.clauses| && SatClause(next, p.clauses[kept[j]])
        decreases |kept| - i
      {
        var id := kept[i];
        assert id in SetOf(kept);
        if !SatClause(next, p.clauses[id]) {
          SubtractKeeps(kept, i);
          kept := SubtractLit(kept, i);
          if id in nec {
            assert id in vec && id !in kept;
            return false, kept;
          }
        } else {
          i := i + 1;
        }
      }
      return true, kept;
    }
  }
}
