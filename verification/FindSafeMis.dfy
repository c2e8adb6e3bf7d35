/** The greatest safe inductive subset (src/pme/util/find_safe_mis.cpp). */
module FindSafeMises {
  import opened Ids
  import opened Cubes
  import opened ProofSets
  import opened ConsecutionCheckers

  /** No inductive subset of orig has lost a clause in s. */
  ghost predicate KeepsInductive(p: Proof, orig: set<ClauseID>, s: set<ClauseID>) {
    s <= orig && forall t | t <= orig && Inductive(p, t) :: t <= s
  }

  /** A counterexample to s removes all the clauses that it falsifies. */
  lemma RemoveFalsified(p: Proof, orig: set<ClauseID>, s: set<ClauseID>, less: set<ClauseID>, v: Valuation, w: Valuation)
    requires KeepsInductive(p, orig, s) && p.tr.Step(v, w) && SatSet(p, v, s) && less <= s
    requires forall id | id in s && id !in less :: id < |p.clauses| && !SatClause(w, p.clauses[id])
    ensures KeepsInductive(p, orig, less)
  {
    forall t | t <= orig && Inductive(p, t)
      ensures t <= less
    {
      forall id | id in t
        ensures id in less
      {
        if id !in less {
          WitnessExcludes(p, s, t, v, w, id);
        }
      }
    }
  }

  lemma NecessaryLost(p: Proof, orig: set<ClauseID>, s: set<ClauseID>, nec: set<ClauseID>)
    requires KeepsInductive(p, orig, s) && !(nec <= s)
    ensures !HasSafe(p, orig, nec)
  {
    forall t | t <= orig && Inductive(p, t)
      ensures !(nec <= t)
    {
      assert t <= s;
    }
  }

  lemma AllSupported(p: Proof, orig: set<ClauseID>, vec: seq<ClauseID>, nec: set<ClauseID>)
    requires KeepsInductive(p, orig, SetOf(vec)) && SetOf(vec) <= p.All() && nec <= SetOf(vec)
    requires forall j | 0 <= j < |vec| :: vec[j] < |p.clauses| && Supports(p, SetOf(vec), vec[j])
    ensures GreatestInductive(p, SetOf(vec), orig) && HasSafe(p, orig, nec)
  {
    GreatestDecides(p, SetOf(vec), orig, nec);
  }

  /** The position of the first element not below id. */
  method LowerBound(vec: seq<ClauseID>, id: ClauseID) returns (i: nat)
    ensures i <= |vec| && (forall j | 0 <= j < i :: vec[j] < id) && (i < |vec| ==> vec[i] >= id)
  {
    i := 0;
    while i < |vec| && vec[i] < id
      invariant i <= |vec| && forall j | 0 <= j < i :: vec[j] < id
    {
      i := i + 1;
    }
  }

  lemma RestShrinks(vec: seq<ClauseID>, i: nat, kept: seq<ClauseID>, next: nat)
    requires Ascending(vec) && Ascending(kept) && i < |vec| && vec[i] !in kept && SetOf(kept) <= SetOf(vec)
    requires next <= |kept| && (next < |kept| ==> kept[next] >= vec[i])
    ensures |kept| - next < |vec| - i
  {
    forall lit | lit in kept
      ensures lit in vec
    {
      assert lit in SetOf(kept);
    }
    if next < |kept| {
      assert kept[next] in kept;
    }
    var left, right := kept[next..], vec[i + 1..];
    forall j | 0 <= j < |left|
      ensures left[j] in right
    {
      var x := kept[next + j];
      assert x in kept && x >= kept[next];
      var n :| 0 <= n < |vec| && vec[n] == x;
      assert vec[n] == right[n - i - 1];
    }
    SubCubeSize(left, right);
  }

  /** findSafeMIS: is there a safe inductive subset? If so, the greatest
      inductive subset is returned. */
  method FindSafeMis(solver: ConsecutionChecker, orig: seq<ClauseID>, nec: set<ClauseID>)
    returns (r: bool, vec: seq<ClauseID>)
    requires SetOf(orig) <= solver.p.All() && solver.p.tr.WellFormed()
    modifies solver
    ensures r <==> HasSafe(solver.p, SetOf(orig), nec)
    ensures r ==> SafeInductive(solver.p, SetOf(vec), nec) && GreatestInductive(solver.p, SetOf(vec), SetOf(orig))
    ensures r ==> vec == orig || Ascending(vec)
  {
    var p := solver.p;
    ghost var all := SetOf(orig);
    vec := orig;
    if !(nec <= SetOf(vec)) {
      return false, vec;
    }
    var good := solver.IsSafeInductive(vec, nec);
    if good {
      return true, vec;
    }
    vec := SortLits(SetOf(vec));
    var removed := true;
    while removed
      invariant Ascending(vec) && nec <= SetOf(vec) && KeepsInductive(p, all, SetOf(vec))
      invariant !removed ==> forall j | 0 <= j < |vec| :: vec[j] < |p.clauses| && Supports(p, SetOf(vec), vec[j])
      decreases |vec|, removed
    {
      removed, r, vec := Sweep(solver, vec, nec, all);
      if !r {
        return;
      }
    }
    AllSupported(p, all, vec, nec);
    return true, vec;
  }

  /** One pass over the clauses, erasing those that have lost their support. */
  method Sweep(solver: ConsecutionChecker, before: seq<ClauseID>, nec: set<ClauseID>, ghost all: set<ClauseID>)
    returns (removed: bool, maybe: bool, vec: seq<ClauseID>)
    requires all <= solver.p.All() && solver.p.tr.WellFormed()
    requires Ascending(before) && nec <= SetOf(before) && KeepsInductive(solver.p, all, SetOf(before))
    modifies solver
    ensures !maybe ==> !HasSafe(solver.p, all, nec)
    ensures maybe ==> Ascending(vec) && nec <= SetOf(vec) && KeepsInductive(solver.p, all, SetOf(vec))
    ensures removed && maybe ==> |vec| < |before|
    ensures !removed ==> maybe && vec == before
    ensures !removed ==> forall j | 0 <= j < |vec| :: vec[j] < |solver.p.clauses| && Supports(solver.p, SetOf(vec), vec[j])
  {
    var p := solver.p;
    vec, removed, maybe := before, false, true;
    var i: nat := 0;
    while i < |vec|
      invariant i <= |vec| && Ascending(vec) && nec <= SetOf(vec) && KeepsInductive(p, all, SetOf(vec))
      invariant removed ==> |vec| < |before|
      invariant !removed ==> vec == before
      invariant !removed ==> forall j | 0 <= j < i :: vec[j] < |p.clauses| && Supports(p, SetOf(vec), vec[j])
      decreases |vec| - i
    {
      var id := vec[i];
      assert id in SetOf(vec) && id in p.All();
      var supported, v := solver.Solve(SetOf(vec), id);
      if supported {
        i := i + 1;
      } else {
        removed := true;
        ghost var old_vec := vec;
        maybe, vec := Erase(solver, vec, i, nec, all, v);
        if !maybe {
          return;
        }
        var next := LowerBound(vec, id);
        RestShrinks(old_vec, i, vec, next);
        i := next;
      }
    }
  }

  /** Erases an unsupported clause and all that its counterexample falsifies. */
  method Erase(solver: ConsecutionChecker, vec: seq<ClauseID>, i: nat, nec: set<ClauseID>, ghost all: set<ClauseID>,
               ghost v: Valuation)
    returns (maybe: bool, kept: seq<ClauseID>)
    requires all <= solver.p.All() && i < |vec| && vec[i] < |solver.p.clauses|
    requires Ascending(vec) && nec <= SetOf(vec) && KeepsInductive(solver.p, all, SetOf(vec))
    requires Violates(solver.p, SetOf(vec), vec[i], v, solver.next)
    ensures !maybe ==> !HasSafe(solver.p, all, nec)
    ensures maybe ==> Ascending(kept) && nec <= SetOf(kept) && KeepsInductive(solver.p, all, SetOf(kept))
    ensures maybe ==> SetOf(kept) <= SetOf(vec) && vec[i] !in kept && |kept| < |vec|
  {
    var p := solver.p;
    SubtractKeeps(vec, i);
    kept := SubtractLit(vec, i);
    RemoveFalsified(p, all, SetOf(vec), SetOf(kept), v, solver.next);
    if vec[i] in nec {
      NecessaryLost(p, all, SetOf(kept), nec);
      return false, kept;
    }
    var less;
    maybe, less := solver.RemoveSatClauses(kept, nec);
    RemoveFalsified(p, all, SetOf(kept), SetOf(less), v, solver.next);
    if !maybe {
      NecessaryLost(p, all, SetOf(less), nec);
    }
    SubsetLength(less, kept);
    kept := less;
  }

  lemma SubsetLength(a: seq<ClauseID>, b: seq<ClauseID>)
    requires Ascending(a) && Ascending(b) && SetOf(a) <= SetOf(b)
    ensures |a| <= |b|
  {
    forall lit | lit in a
      ensures lit in b
    {
      assert lit in SetOf(a);
    }
    SubCubeSize(a, b);
  }
}
