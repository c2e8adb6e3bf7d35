/** SISI: one minimal safe inductive subset, from below by necessary clauses and
    from above by feasible ones (src/pme/minimization/sisi.cpp). */
module SisiMinimizers {
  import opened Collections
  import opened Cubes
  import opened ProofSets
  import opened ConsecutionCheckers
  import opened FindSafeMises
  import opened MinimalSupports
  import opened SupportClosures

  /** Every safe inductive subset of the feasible clauses has the necessary ones. */
  ghost predicate NecInside(p: Proof, nec: set<ClauseID>, feas: set<ClauseID>) {
    forall x | x <= feas && SafeInductive(p, x, {p.property}) :: nec <= x
  }

  /** Without this clause there would be no safe inductive subset. */
  lemma NecGrows(p: Proof, nec: set<ClauseID>, feas: set<ClauseID>, id: ClauseID)
    requires NecInside(p, nec, feas) && !HasSafe(p, feas - {id}, nec)
    ensures NecInside(p, nec + {id}, feas)
  {
    forall x | x <= feas && SafeInductive(p, x, {p.property})
      ensures nec + {id} <= x
    {
      if id !in x {
        assert SafeInductive(p, x, nec) && x <= feas - {id};
      }
    }
  }

  /** The clauses that every safe inductive subset of the feasible ones has. */
  ghost function Necessary(p: Proof, feas: set<ClauseID>): set<ClauseID> {
    set c | c in feas && !HasSafe(p, feas - {c}, {p.property})
  }

  /** Which clauses are known to be necessary makes no difference. */
  lemma SafeAlike(p: Proof, nec: set<ClauseID>, feas: set<ClauseID>, s: set<ClauseID>)
    requires NecInside(p, nec, feas) && p.property in nec && s <= feas
    ensures HasSafe(p, s, nec) <==> HasSafe(p, s, {p.property})
  {
    if HasSafe(p, s, {p.property}) {
      var t :| t <= s && SafeInductive(p, t, {p.property});
      assert SafeInductive(p, t, nec);
    }
    if HasSafe(p, s, nec) {
      var t :| t <= s && SafeInductive(p, t, nec);
      assert SafeInductive(p, t, {p.property});
    }
  }

  lemma NecIsNecessary(p: Proof, nec: set<ClauseID>, feas: set<ClauseID>)
    requires NecInside(p, nec, feas) && nec <= feas
    ensures nec <= Necessary(p, feas)
  {
    forall c | c in nec
      ensures !HasSafe(p, feas - {c}, {p.property})
    {
      forall t | t <= feas - {c}
        ensures !SafeInductive(p, t, {p.property})
      {
        assert c !in t;
      }
    }
  }

  /** A clause is necessary exactly when all safe inductive subsets have it. */
  lemma NecessaryMeans(p: Proof, feas: set<ClauseID>, c: ClauseID)
    requires c in feas
    ensures c in Necessary(p, feas) <==> forall x | x <= feas && SafeInductive(p, x, {p.property}) :: c in x
  {
    if HasSafe(p, feas - {c}, {p.property}) {
      var t :| t <= feas - {c} && SafeInductive(p, t, {p.property});
      assert t <= feas && c !in t;
    } else {
      forall x | x <= feas && SafeInductive(p, x, {p.property})
        ensures c in x
      {
        assert c !in x ==> x <= feas - {c};
      }
    }
  }

  ghost predicate Closed(p: Proof, s: set<ClauseID>, feas: set<ClauseID>) {
    forall c | c in s && c < |p.clauses| :: Supports(p, feas, c)
  }

  lemma ClosedMore(p: Proof, s: set<ClauseID>, feas: set<ClauseID>, more: set<ClauseID>)
    requires Closed(p, s, feas) && feas <= more
    ensures Closed(p, s, more)
  {
    forall c | c in s && c < |p.clauses|
      ensures Supports(p, more, c)
    {
      SupportsMore(p, feas, more, c);
    }
  }

  /** A clause kept because its removal leaves nothing safe. */
  ghost predicate Kept(p: Proof, keep: set<ClauseID>, feas: set<ClauseID>, nec: set<ClauseID>) {
    nec <= keep && forall c | c in keep && c !in nec :: !HasSafe(p, feas - {c}, nec)
  }

  /** Kept clauses survive when the feasible set shrinks to a safe subset. */
  lemma KeptShrinks(p: Proof, keep: set<ClauseID>, feas: set<ClauseID>, less: set<ClauseID>, nec: set<ClauseID>)
    requires Kept(p, keep, feas, nec) && less <= feas && SafeInductive(p, less, nec)
    ensures Kept(p, keep, less, nec) && keep <= less
  {
    forall c | c in keep && c !in nec
      ensures c in less && !HasSafe(p, less - {c}, nec)
    {
      if c !in less {
        SafeWithout(p, feas, less, nec, c);
      }
      if HasSafe(p, less - {c}, nec) {
        HasSafeMore(p, less - {c}, feas - {c}, nec);
      }
    }
  }

  lemma SafeWithout(p: Proof, feas: set<ClauseID>, less: set<ClauseID>, nec: set<ClauseID>, c: ClauseID)
    requires less <= feas && SafeInductive(p, less, nec) && c !in less
    ensures HasSafe(p, feas - {c}, nec)
  {
    assert less <= feas - {c};
  }

  lemma KeptIsMinimal(p: Proof, feas: set<ClauseID>, nec: set<ClauseID>)
    requires SafeInductive(p, feas, nec) && Kept(p, feas, feas, nec)
    requires p.property in nec && NecInside(p, nec, feas)
    ensures MinimalSafe(p, feas, {p.property})
  {
    forall x | x < feas
      ensures !SafeInductive(p, x, {p.property})
    {
      if SafeInductive(p, x, {p.property}) {
        assert SafeInductive(p, x, nec);
        SmallerSpares(p, feas, x, nec);
      }
    }
  }

  lemma DistinctSizes(all: seq<ClauseID>, keep: set<ClauseID>)
    requires Ascending(all) && SetOf(all) <= keep
    ensures |all| <= |keep|
  {
    LitsSize(all);
    assert SetOf(all) == Lits(all);
    SubsetSize(SetOf(all), keep);
  }

  class Sisi {
    const p: Proof
    const indSolver: ConsecutionChecker
    var all: set<ClauseID>
    var nec: set<ClauseID>
    var feas: set<ClauseID>

    ghost predicate Valid()
      reads this
    {
      && indSolver.p == p && p.tr.WellFormed() && p.property in nec && nec <= feas <= p.All() && NecInside(p, nec, feas)
    }

    constructor (p: Proof)
      requires p.Valid() && p.tr.WellFormed()
      ensures Valid() && fresh(indSolver) && this.p == p
      ensures all == p.All() && feas == p.All() && nec == {p.property}
    {
      this.p := p;
      indSolver := new ConsecutionChecker(p);
      all, feas, nec := p.All(), p.All(), {p.property};
    }

    method FindSis(s: set<ClauseID>) returns (found: bool, mis: set<ClauseID>)
      requires indSolver.p == p && p.tr.WellFormed() && s <= p.All()
      modifies indSolver
      ensures found <==> HasSafe(p, s, nec)
      ensures found ==> mis <= s && SafeInductive(p, mis, nec) && mis == Greatest(p, s)
    {
      var sorted := SortLits(s);
      assert SetOf(sorted) == s;
      var vec;
      found, vec := FindSafeMis(indSolver, sorted, nec);
      mis := SetOf(vec);
      if found {
        GreatestIs(p, s, mis);
      }
    }

    /** refineNEC: a clause is necessary if nothing safe is left without it. */
    method RefineNec()
      requires Valid()
      modifies this`nec, indSolver
      ensures Valid() && old(nec) <= nec
      ensures forall c | c in feas && c !in nec :: HasSafe(p, feas - {c}, old(nec))
      ensures nec == Necessary(p, feas)
    {
      var rest := feas;
      NecIsNecessary(p, nec, feas);
      while rest != {}
        invariant Valid() && old(nec) <= nec <= Necessary(p, feas) && rest <= feas
        invariant forall c | c in feas - rest && c !in nec :: HasSafe(p, feas - {c}, {p.property})
        decreases rest
      {
        var id :| id in rest;
        rest := rest - {id};
        if id in nec {
          continue;
        }
        SafeAlike(p, nec, feas, feas - {id});
        var found, mis := FindSis(feas - {id});
        if !found {
          NecGrows(p, nec, feas, id);
          nec := nec + {id};
        }
      }
      forall c | c in feas && c !in nec
        ensures HasSafe(p, feas - {c}, old(nec))
      {
        SafeAlike(p, old(nec), feas, feas - {c});
      }
    }

    /** Where refineFEAS has got to. */
    ghost predicate Underway(known: set<ClauseID>, from: ClauseID, path: seq<Closing>)
      reads this
    {
      && indSolver.p == p && p.tr.WellFormed() && Inductive(p, all)
      && p.property in nec && nec <= feas <= all <= p.All() && NecInside(p, nec, all)
      && known <= feas && Closed(p, known, feas)
      && ClosesAll(p, all, path) && path[0] == Closing(nec, {}, 0) && path[|path| - 1] == Closing(feas, known, from)
    }

    /** refineFEAS: the closure of the necessary clauses under support. */
    method RefineFeas()
      requires Valid() && feas == all && Inductive(p, all)
      modifies this`feas, indSolver
      ensures Valid() && SafeInductive(p, feas, nec)
      ensures MayClose(p, all, nec, feas)
      ensures Inductive(p, nec) ==> feas == nec
    {
      feas := nec;
      var known: set<ClauseID> := {};
      ghost var path, from := [Closing(nec, {}, 0)], 0;
      while known != feas
        invariant Underway(known, from, path) && (known != feas ==> from == 0)
        decreases all - feas, feas - known
      {
        known, from, path := Iterate(known, path);
      }
      assert ClosesBy(p, all, nec, feas, path);
      if Inductive(p, nec) {
        ClosedAlready(p, all, nec, feas);
      }
    }

    /** One iteration over the feasible clauses. */
    method Iterate(before: set<ClauseID>, ghost sofar: seq<Closing>)
      returns (known: set<ClauseID>, ghost end: ClauseID, ghost path: seq<Closing>)
      requires Underway(before, 0, sofar) && before != feas
      modifies this`feas, indSolver
      ensures Underway(known, end, path) && (known != feas ==> end == 0)
      ensures old(feas) <= feas && (feas == old(feas) ==> before < known)
    {
      known, path := before, sofar;
      var from: ClauseID := 0;
      while Ahead(feas, from) != {}
        invariant Underway(known, from, path) && old(feas) <= feas && (feas == old(feas) ==> before <= known)
        invariant feas == old(feas) && known == before ==> forall x | x in feas && x < from :: x in known
        decreases all - feas, feas - known, Ahead(feas, from)
      {
        known, from, path := Visit(known, from, path);
      }
      end := from;
      if known != feas {
        ClosesMore(p, all, path, Closing(feas, known, 0));
        end, path := 0, path + [Closing(feas, known, 0)];
      }
      assert forall x | x in feas && x !in Ahead(feas, from) :: x < from;
    }

    /** The next clause: its support joins the feasible ones if they do not support
        it. */
    method Visit(before: set<ClauseID>, start: ClauseID, ghost sofar: seq<Closing>)
      returns (known: set<ClauseID>, from: ClauseID, ghost path: seq<Closing>)
      requires Underway(before, start, sofar) && Ahead(feas, start) != {}
      modifies this`feas, indSolver
      ensures Underway(known, from, path) && old(feas) <= feas && (feas == old(feas) ==> before <= known)
      ensures feas == old(feas) && known == before ==>
        Ahead(feas, from) < Ahead(feas, start) && forall x | x in feas && start <= x < from :: x in known
    {
      var c := PopLeast(Ahead(feas, start));
      ghost var a := Closing(feas, before, start);
      PassedBy(feas, start, c);
      known, from := before, c + 1;
      if c !in known {
        var supported, v := indSolver.Solve(feas, c);
        known := known + {c};
        if supported {
          ClosedMore(p, before, feas, feas);
        } else {
          AddSupport(before, c);
          var least := PopLeast(feas);
          from := least + 1;
        }
      }
      ghost var b := Closing(feas, known, from);
      ClosesOn(p, all, sofar, a, c, b);
      path := sofar + [b];
    }

    /** A support of the clause within all clauses, narrowed. */
    method AddSupport(ghost known: set<ClauseID>, c: ClauseID)
      requires indSolver.p == p && p.tr.WellFormed() && Inductive(p, all) && feas <= all <= p.All()
      requires c in feas && c < |p.clauses| && !Supports(p, feas, c) && Closed(p, known, feas)
      modifies this`feas, indSolver
      ensures old(feas) < feas <= all && Closed(p, known + {c}, feas)
      ensures exists s :: MaySupport(p, all, c, s) && feas == old(feas) + s
    {
      assert Supports(p, all, c);
      var found, part, w := indSolver.SupportSolve(all, c);
      var support := FindMinimalSupport(indSolver, part, c);
      assert MaySupport(p, all, c, support);
      if support <= feas {
        SupportsMore(p, support, feas, c);
      }
      SupportsMore(p, support, feas + support, c);
      ClosedMore(p, known, feas, feas + support);
      feas := feas + support;
    }

    /** bruteForceMinimize: deletes what can be spared, until all is kept. */
    method BruteForceMinimize() returns (proof: set<ClauseID>)
      requires Valid() && SafeInductive(p, feas, nec)
      modifies indSolver
      ensures proof <= feas && MinimalSafe(p, proof, {p.property})
      ensures proof == Shrunk(p, feas, 0)
    {
      var keep := nec;
      var rest := SortLits(feas);
      var i: nat := 0;
      ghost var from: ClauseID := 0;
      DeletingStart(p, nec, feas, rest);
      while |keep| < |rest|
        invariant DeletingOk(p, nec, feas, keep, rest, i, from)
        decreases |rest|, |rest| - |keep|, |rest| - i
      {
        DeletingAt(p, nec, feas, keep, rest, i, from);
        var id := rest[i];
        if id in keep {
          DeletingSkip(p, nec, feas, keep, rest, i, from);
          i := i + 1;
          continue;
        }
        var found, test := FindSis(SetOf(rest) - {id});
        if found {
          var less := SortLits(test);
          DeletingDrop(p, nec, feas, keep, rest, i, from, less);
          rest, i := less, 0;
        } else {
          DeletingKeep(p, nec, feas, keep, rest, i, from);
          keep, i := keep + {id}, i + 1;
        }
        from := id + 1;
      }
      DeletingEnd(p, nec, feas, keep, rest, i, from);
      proof := keep;
    }

    /** isMinimal */
    method IsMinimal() returns (r: bool)
      requires Valid() && SafeInductive(p, feas, nec)
      modifies indSolver
      ensures r <==> MinimalSafe(p, feas, {p.property})
    {
      var rest, keep := feas - nec, nec;
      while rest != {}
        invariant rest <= feas - nec && keep == feas - rest && Kept(p, keep, feas, nec)
        decreases rest
      {
        var id :| id in rest;
        var found, test := FindSis(feas - {id});
        if found {
          assert test < feas && SafeInductive(p, test, {p.property});
          return false;
        }
        keep, rest := keep + {id}, rest - {id};
      }
      assert keep == feas;
      KeptIsMinimal(p, feas, nec);
      return true;
    }

    /** SISIMinimizer::doMinimize */
    method DoMinimize() returns (minimized: set<ClauseID>)
      requires Valid() && feas == all && Inductive(p, all)
      modifies this, indSolver
      ensures Valid() && MinimalSafe(p, minimized, {p.property})
      ensures MayClose(p, old(all), Necessary(p, old(all)), feas) && nec == Necessary(p, feas)
      ensures minimized == Shrunk(p, feas, 0)
    {
      RefineNec();
      RefineFeas();
      assert MayClose(p, old(all), Necessary(p, old(all)), feas);
      RefineNec();
      minimized := BruteForceMinimize();
    }
  }

  /** The clauses below from are all kept. */
  ghost predicate KeptBelow(p: Proof, rest: set<ClauseID>, keep: set<ClauseID>, from: ClauseID) {
    forall c | c in rest && c < from :: c in keep
  }

  /** Kept clauses cannot be dropped. */
  lemma KeptStay(p: Proof, nec: set<ClauseID>, feas: set<ClauseID>, keep: set<ClauseID>, rest: set<ClauseID>)
    requires NecInside(p, nec, feas) && p.property in nec && rest <= feas && Kept(p, keep, rest, nec)
    ensures forall c | c in keep :: c == p.property || !HasSafe(p, rest - {c}, {p.property})
  {
    forall c | c in keep
      ensures !HasSafe(p, rest - {c}, {p.property})
    {
      if c in nec {
        forall t | t <= rest - {c}
          ensures !SafeInductive(p, t, {p.property})
        {
          assert c !in t;
        }
      } else {
        SafeAlike(p, nec, feas, rest - {c});
      }
    }
  }

  /** The first clause that is not kept is the next one to be tried. */
  lemma ShrunkTries(p: Proof, nec: set<ClauseID>, feas: set<ClauseID>, keep: set<ClauseID>, rest: seq<ClauseID>, i: nat,
                    from: ClauseID)
    requires NecInside(p, nec, feas) && p.property in nec && feas <= p.All() && SetOf(rest) <= feas
    requires Kept(p, keep, SetOf(rest), nec) && Ascending(rest) && i < |rest| && rest[i] !in keep
    requires (forall j | 0 <= j < i :: rest[j] in keep) && KeptBelow(p, SetOf(rest), keep, from)
    ensures var s, id := SetOf(rest), rest[i];
      && (forall c | c in s && c < id :: c in keep) && s - {id} <= p.All()
      && Shrunk(p, s, from)
         == Shrunk(p, if HasSafe(p, s - {id}, nec) then Greatest(p, s - {id}) else s, id + 1)
  {
    var s, id := SetOf(rest), rest[i];
    assert id in s;
    forall c | c in s && c < id
      ensures c in keep
    {
      var j :| 0 <= j < |rest| && rest[j] == c;
      assert j < i;
    }
    KeptStay(p, nec, feas, keep, s);
    ShrunkKeeps(p, s, from, id);
    SafeAlike(p, nec, feas, s - {id});
  }

  /** The loop of bruteForceMinimize: rest is what is left of the feasible clauses,
      and those below from need not be tried any more. */
  ghost predicate Deleting(p: Proof, nec: set<ClauseID>, feas: set<ClauseID>, keep: set<ClauseID>, rest: seq<ClauseID>,
                           i: nat, from: ClauseID) {
    && NecInside(p, nec, feas) && p.property in nec && feas <= p.All()
    && i <= |rest| && Ascending(rest) && SetOf(rest) <= feas && SafeInductive(p, SetOf(rest), nec)
    && keep <= SetOf(rest) && Kept(p, keep, SetOf(rest), nec) && (forall j | 0 <= j < i :: rest[j] in keep)
    && KeptBelow(p, SetOf(rest), keep, from) && Shrunk(p, SetOf(rest), from) == Shrunk(p, feas, 0)
  }

  /** The same, kept folded: the argument n does not matter. */
  ghost predicate DeletingFolded(p: Proof, nec: set<ClauseID>, feas: set<ClauseID>, keep: set<ClauseID>, rest: seq<ClauseID>,
                                 i: nat, from: ClauseID, n: nat)
    decreases n
  {
    if n == 0 then Deleting(p, nec, feas, keep, rest, i, from)
    else DeletingFolded(p, nec, feas, keep, rest, i, from, n - 1)
  }

  ghost predicate DeletingOk(p: Proof, nec: set<ClauseID>, feas: set<ClauseID>, keep: set<ClauseID>, rest: seq<ClauseID>,
                             i: nat, from: ClauseID) {
    DeletingFolded(p, nec, feas, keep, rest, i, from, |p.clauses|)
  }

  lemma {:induction false} DeletingUnfold(p: Proof, nec: set<ClauseID>, feas: set<ClauseID>, keep: set<ClauseID>,
                                          rest: seq<ClauseID>, i: nat, from: ClauseID, n: nat)
    ensures DeletingFolded(p, nec, feas, keep, rest, i, from, n) <==> Deleting(p, nec, feas, keep, rest, i, from)
    decreases n
  {
    if n > 0 {
      DeletingUnfold(p, nec, feas, keep, rest, i, from, n - 1);
    }
  }

  lemma DeletingIs(p: Proof, nec: set<ClauseID>, feas: set<ClauseID>, keep: set<ClauseID>, rest: seq<ClauseID>, i: nat,
                   from: ClauseID)
    ensures DeletingOk(p, nec, feas, keep, rest, i, from) <==> Deleting(p, nec, feas, keep, rest, i, from)
  {
    DeletingUnfold(p, nec, feas, keep, rest, i, from, |p.clauses|);
  }

  lemma DeletingStart(p: Proof, nec: set<ClauseID>, feas: set<ClauseID>, rest: seq<ClauseID>)
    requires NecInside(p, nec, feas) && p.property in nec && nec <= feas <= p.All() && SafeInductive(p, feas, nec)
    requires Ascending(rest) && Lits(rest) == feas
    ensures DeletingOk(p, nec, feas, nec, rest, 0, 0)
  {
    DeletingIs(p, nec, feas, nec, rest, 0, 0);
    assert SetOf(rest) == feas;
  }

  lemma DeletingAt(p: Proof, nec: set<ClauseID>, feas: set<ClauseID>, keep: set<ClauseID>, rest: seq<ClauseID>, i: nat,
                   from: ClauseID)
    requires DeletingOk(p, nec, feas, keep, rest, i, from) && |keep| < |rest|
    ensures i < |rest| && SetOf(rest) - {rest[i]} <= p.All()
  {
    DeletingIs(p, nec, feas, keep, rest, i, from);
    if i == |rest| {
      DistinctSizes(rest, keep);
    }
  }

  lemma DeletingSkip(p: Proof, nec: set<ClauseID>, feas: set<ClauseID>, keep: set<ClauseID>, rest: seq<ClauseID>, i: nat,
                     from: ClauseID)
    requires DeletingOk(p, nec, feas, keep, rest, i, from) && i < |rest| && rest[i] in keep
    ensures DeletingOk(p, nec, feas, keep, rest, i + 1, from)
  {
    DeletingIs(p, nec, feas, keep, rest, i, from);
    DeletingIs(p, nec, feas, keep, rest, i + 1, from);
  }

  lemma ShrunkDrops(p: Proof, nec: set<ClauseID>, feas: set<ClauseID>, keep: set<ClauseID>, rest: seq<ClauseID>, i: nat,
                    from: ClauseID, t: set<ClauseID>)
    requires Deleting(p, nec, feas, keep, rest, i, from) && i < |rest| && rest[i] !in keep
    requires SetOf(rest) - {rest[i]} <= p.All() && HasSafe(p, SetOf(rest) - {rest[i]}, nec)
    requires t == Greatest(p, SetOf(rest) - {rest[i]})
    ensures t <= p.All() && Shrunk(p, t, rest[i] + 1) == Shrunk(p, feas, 0) && KeptBelow(p, t, keep, rest[i] + 1)
  {
    ShrunkTries(p, nec, feas, keep, rest, i, from);
    assert t <= SetOf(rest) - {rest[i]};
  }

  lemma DropNext(p: Proof, nec: set<ClauseID>, feas: set<ClauseID>, keep: set<ClauseID>, rest: seq<ClauseID>, i: nat,
                 from: ClauseID, less: seq<ClauseID>)
    requires Deleting(p, nec, feas, keep, rest, i, from) && i < |rest| && rest[i] !in keep
    requires SetOf(rest) - {rest[i]} <= p.All() && HasSafe(p, SetOf(rest) - {rest[i]}, nec)
    requires Ascending(less) && SetOf(less) == Greatest(p, SetOf(rest) - {rest[i]}) && SafeInductive(p, SetOf(less), nec)
    ensures Deleting(p, nec, feas, keep, less, 0, rest[i] + 1) && |less| < |rest|
  {
    ShrunkDrops(p, nec, feas, keep, rest, i, from, SetOf(less));
    KeptShrinks(p, keep, SetOf(rest), SetOf(less), nec);
    SortedShorter(less, rest, rest[i]);
  }

  lemma DeletingDrop(p: Proof, nec: set<ClauseID>, feas: set<ClauseID>, keep: set<ClauseID>, rest: seq<ClauseID>, i: nat,
                     from: ClauseID, less: seq<ClauseID>)
    requires DeletingOk(p, nec, feas, keep, rest, i, from) && i < |rest| && rest[i] !in keep
    requires SetOf(rest) - {rest[i]} <= p.All() && HasSafe(p, SetOf(rest) - {rest[i]}, nec)
    requires Ascending(less) && Lits(less) == Greatest(p, SetOf(rest) - {rest[i]}) && SafeInductive(p, Lits(less), nec)
    ensures DeletingOk(p, nec, feas, keep, less, 0, rest[i] + 1) && |less| < |rest|
  {
    DeletingIs(p, nec, feas, keep, rest, i, from);
    assert SetOf(less) == Lits(less);
    DropNext(p, nec, feas, keep, rest, i, from, less);
    DeletingIs(p, nec, feas, keep, less, 0, rest[i] + 1);
  }

  lemma KeepNext(p: Proof, nec: set<ClauseID>, feas: set<ClauseID>, keep: set<ClauseID>, rest: seq<ClauseID>, i: nat,
                 from: ClauseID)
    requires Deleting(p, nec, feas, keep, rest, i, from) && i < |rest| && rest[i] !in keep
    requires !HasSafe(p, SetOf(rest) - {rest[i]}, nec)
    ensures Deleting(p, nec, feas, keep + {rest[i]}, rest, i + 1, rest[i] + 1) && |keep + {rest[i]}| <= |rest|
  {
    var s, id := SetOf(rest), rest[i];
    assert id in s;
    ShrunkTries(p, nec, feas, keep, rest, i, from);
    SubsetOfSorted(keep + {id}, rest);
    assert KeptBelow(p, s, keep + {id}, id + 1);
  }

  lemma DeletingKeep(p: Proof, nec: set<ClauseID>, feas: set<ClauseID>, keep: set<ClauseID>, rest: seq<ClauseID>, i: nat,
                     from: ClauseID)
    requires DeletingOk(p, nec, feas, keep, rest, i, from) && i < |rest| && rest[i] !in keep
    requires !HasSafe(p, SetOf(rest) - {rest[i]}, nec)
    ensures DeletingOk(p, nec, feas, keep + {rest[i]}, rest, i + 1, rest[i] + 1) && |keep + {rest[i]}| <= |rest|
  {
    DeletingIs(p, nec, feas, keep, rest, i, from);
    KeepNext(p, nec, feas, keep, rest, i, from);
    DeletingIs(p, nec, feas, keep + {rest[i]}, rest, i + 1, rest[i] + 1);
  }

  lemma DeletingEnd(p: Proof, nec: set<ClauseID>, feas: set<ClauseID>, keep: set<ClauseID>, rest: seq<ClauseID>, i: nat,
                    from: ClauseID)
    requires DeletingOk(p, nec, feas, keep, rest, i, from) && |keep| >= |rest| && feas <= p.All()
    ensures keep <= feas && MinimalSafe(p, keep, {p.property}) && keep == Shrunk(p, feas, 0)
  {
    DeletingIs(p, nec, feas, keep, rest, i, from);
    SameAsKept(rest, keep);
    NecSmaller(p, nec, feas, keep);
    KeptIsMinimal(p, keep, nec);
    KeptStay(p, nec, feas, keep, keep);
    ShrunkKeeps(p, keep, from, if from < |p.clauses| then |p.clauses| else from);
  }

  lemma NecSmaller(p: Proof, nec: set<ClauseID>, feas: set<ClauseID>, less: set<ClauseID>)
    requires NecInside(p, nec, feas) && less <= feas
    ensures NecInside(p, nec, less)
  {
  }

  lemma SortedShorter(less: seq<ClauseID>, rest: seq<ClauseID>, id: ClauseID)
    requires Ascending(less) && Ascending(rest) && id in rest && SetOf(less) <= SetOf(rest) - {id}
    ensures |less| < |rest|
  {
    LitsSize(less);
    LitsSize(rest);
    assert SetOf(less) == Lits(less) && SetOf(rest) == Lits(rest);
    StrictlySmaller(SetOf(less), SetOf(rest), id);
  }

  lemma SubsetOfSorted(keep: set<ClauseID>, rest: seq<ClauseID>)
    requires Ascending(rest) && keep <= SetOf(rest)
    ensures |keep| <= |rest|
  {
    LitsSize(rest);
    assert SetOf(rest) == Lits(rest);
    SubsetSize(keep, SetOf(rest));
  }

  lemma SameAsKept(rest: seq<ClauseID>, keep: set<ClauseID>)
    requires Ascending(rest) && keep <= SetOf(rest) && |keep| >= |rest|
    ensures keep == SetOf(rest)
  {
    LitsSize(rest);
    assert SetOf(rest) == Lits(rest);
    assert SetOf(rest) == keep + (SetOf(rest) - keep);
    assert SetOf(rest) - keep == {};
  }
}
