/** The finder of collapse sets: a MaxSAT solver over two time frames that keeps as
    many clauses active as it can (src/pme/engine/collapse_set_finder.cpp). */
module CollapseFinders {
  import opened Ids
  import opened VariableManagers
  import opened TransitionRelations
  import opened MaxSatSpec
  import opened Unrollings
  import opened PboMaxSat
  import opened ProofSets
  import opened CollapseSets
  import opened CollapseQueries

  // ----- the finder's state as a value -----

  datatype Finder = Finder(layout: Layout, found: seq<Listed>, inited: bool, store: Store)

  ghost predicate PlainProof(p: Proof) {
    p.tr.WellFormed() && ClausesPlain(p)
  }

  function NamesOf(p: Proof, l: Layout): set<ID> {
    p.tr.Vars() + l.copies.Values + Elems(l.act) + Elems(l.check)
  }

  ghost predicate AllKnown(s: Store, names: set<ID>) {
    forall x | x in names :: x < s.next && x !in s.hidden
  }

  /** The two variables of each clause, before the time frames are laid out. */
  ghost predicate Prepared(p: Proof, l: Layout) {
    && |l.act| == |p.clauses| && |l.check| == |p.clauses|
    && (forall i | 0 <= i < |l.act| :: CopyOk(p.tr, l.act[i]) && CopyOk(p.tr, l.check[i]))
    && (forall i, j | 0 <= i < j < |l.act| :: l.act[i] != l.act[j] && l.check[i] != l.check[j])
    && forall i, j | 0 <= i < |l.act| && 0 <= j < |l.act| :: l.act[i] != l.check[j]
  }

  predicate Sized(p: Proof, l: Layout) {
    |l.act| == |p.clauses| && |l.check| == |p.clauses|
  }

  /** How many clauses can still be active when c loses its support: the number
      kept by the maximiser for the query of c. */
  function Cached(p: Proof, f: Finder, c: ClauseID): nat
    requires c < |p.clauses| && Sized(p, f.layout)
  {
    f.store.LastOf(multiset(QueryOf(p, f.layout, c)))
  }

  /** A listed set leaves at least as many clauses active as the kept number. */
  ghost predicate Within(p: Proof, f: Finder, e: Listed)
    requires Sized(p, f.layout)
  {
    e.id < |p.clauses| && |e.collapse| + Cached(p, f, e.id) <= |p.clauses|
  }

  /** The sets listed for one clause never get smaller. */
  ghost predicate SizesGrow(found: seq<Listed>) {
    forall i, j | 0 <= i < j < |found| && found[i].id == found[j].id :: |found[i].collapse| <= |found[j].collapse|
  }

  ghost predicate Loaded(p: Proof, f: Finder) {
    && LayoutOk(p, f.layout) && f.store.opt == f.layout.act && ListKnown(p, f.found)
    && f.store.clauses == FinderCnf(p, f.layout, f.found)
    && AllWithin(p, f) && SizesGrow(f.found)
  }

  ghost predicate Fresh(p: Proof, f: Finder) {
    && Prepared(p, f.layout) && f.layout.copies == map[] && f.found == []
    && f.store.clauses == [] && f.store.opt == [] && !f.store.inited && f.store.last == map[]
  }

  ghost predicate Sensible(p: Proof, f: Finder) {
    && PlainProof(p) && ListOk(p, f.found) && f.store.Ok() && AllKnown(f.store, NamesOf(p, f.layout))
    && if f.inited then Loaded(p, f) else Fresh(p, f)
  }

  ghost predicate Folded(p: Proof, f: Finder, n: nat) {
    if n == 0 then Sensible(p, f) else Folded(p, f, n - 1)
  }

  /** The invariant, kept folded: the argument n does not matter. */
  ghost predicate FinderOk(p: Proof, f: Finder) {
    Folded(p, f, |p.clauses|)
  }

  lemma {:induction false} Unfold(p: Proof, f: Finder, n: nat)
    ensures Folded(p, f, n) <==> Sensible(p, f)
  {
    if n > 0 {
      Unfold(p, f, n - 1);
    }
  }

  lemma FinderIs(p: Proof, f: Finder)
    ensures FinderOk(p, f) <==> Sensible(p, f)
  {
    Unfold(p, f, |p.clauses|);
  }

  lemma {:induction false} AllSize(n: nat)
    ensures |IDsBelow(n)| == n
  {
    if n > 0 {
      AllSize(n - 1);
      assert n - 1 !in IDsBelow(n - 1);
    }
  }

  // ----- which literals the solver knows -----

  predicate Over(names: set<ID>, lits: seq<ID>) {
    forall lit | lit in lits :: Strip(lit) in names || Strip(lit) == ID_FALSE
  }

  lemma OverKnown(s: Store, names: set<ID>, lits: seq<ID>)
    requires s.Ok() && AllKnown(s, names) && Over(names, lits)
    ensures s.Known(lits)
  {
    PboMaxSat.OkMeans(s);
    forall lit | lit in lits
      ensures Strip(lit) < s.next && Strip(lit) !in s.hidden
    {
    }
  }

  lemma StillAllKnown(s: Store, t: Store, names: set<ID>)
    requires AllKnown(s, names) && KeepsKnown(s.Words(), t.Words())
    ensures AllKnown(t, names)
  {
  }

  lemma PlainOver(p: Proof, l: Layout, cls: Clause)
    requires PlainClause(p.tr, cls)
    ensures Over(NamesOf(p, l), cls)
  {
    forall lit | lit in cls
      ensures Strip(lit) in NamesOf(p, l) || Strip(lit) == ID_FALSE
    {
      assert Plain(p.tr, lit);
    }
  }

  lemma PrimedStrip(p: Proof, l: Layout, lit: ID)
    requires CopiesOk(p.tr, l.copies) && Plain(p.tr, lit)
    ensures Strip(PrimedLit(l.copies, lit)) in NamesOf(p, l) || Strip(PrimedLit(l.copies, lit)) == ID_FALSE
  {
    if Strip(lit) in l.copies {
      var y := l.copies[Strip(lit)];
      assert CopyOk(p.tr, y) && y in l.copies.Values && Strip(Negate(y)) == y;
    }
  }

  lemma PrimedOver(p: Proof, l: Layout, cls: Clause)
    requires CopiesOk(p.tr, l.copies) && PlainClause(p.tr, cls)
    ensures Over(NamesOf(p, l), PrimedClause(l.copies, cls))
  {
    var primed := PrimedClause(l.copies, cls);
    forall lit | lit in primed
      ensures Strip(lit) in NamesOf(p, l) || Strip(lit) == ID_FALSE
    {
      var i :| 0 <= i < |primed| && primed[i] == lit;
      assert cls[i] in cls;
      PrimedStrip(p, l, cls[i]);
    }
  }

  lemma OverConcat(names: set<ID>, a: seq<ID>, b: seq<ID>)
    requires Over(names, a) && Over(names, b)
    ensures Over(names, a + b)
  {
  }

  lemma OneOver(names: set<ID>, x: ID)
    requires x in names && !IsNegated(x)
    ensures Over(names, [x]) && Over(names, [Negate(x)])
  {
    assert Strip(Negate(x)) == x && Strip(x) == x;
  }

  lemma OwnVar(p: Proof, l: Layout, i: ClauseID)
    requires Prepared(p, l) && i < |p.clauses|
    ensures Over(NamesOf(p, l), [l.act[i]]) && Over(NamesOf(p, l), [Negate(l.act[i])])
    ensures Over(NamesOf(p, l), [l.check[i]]) && Over(NamesOf(p, l), [Negate(l.check[i])])
  {
    assert CopyOk(p.tr, l.act[i]) && CopyOk(p.tr, l.check[i]);
    assert l.act[i] in Elems(l.act) && l.check[i] in Elems(l.check);
    OneOver(NamesOf(p, l), l.act[i]);
    OneOver(NamesOf(p, l), l.check[i]);
  }

  lemma LaidOutPrepared(p: Proof, l: Layout)
    requires LayoutOk(p, l)
    ensures Prepared(p, l)
  {
    forall i | 0 <= i < |l.act|
      ensures CopyOk(p.tr, l.act[i]) && CopyOk(p.tr, l.check[i])
    {
      assert NewVar(p, l.copies, l.act[i]) && NewVar(p, l.copies, l.check[i]);
    }
  }

  lemma QueryOver(p: Proof, l: Layout, c: ClauseID)
    requires LayoutOk(p, l) && c < |p.clauses|
    ensures Over(NamesOf(p, l), QueryOf(p, l, c))
  {
    LaidOutPrepared(p, l);
    assert p.clauses[c] in p.clauses;
    PlainNegated(p.tr, p.clauses[c]);
    PrimedOver(p, l, NegateVec(p.clauses[c]));
    OwnVar(p, l, c);
    OverConcat(NamesOf(p, l), [l.act[c]], [l.check[c]]);
    assert [l.act[c]] + [l.check[c]] == [l.act[c], l.check[c]];
    OverConcat(NamesOf(p, l), PrimedClause(l.copies, NegateVec(p.clauses[c])), [l.act[c], l.check[c]]);
  }

  lemma {:induction false} ActsOver(p: Proof, l: Layout, k: set<ClauseID>, n: nat)
    requires Prepared(p, l) && n <= |l.act|
    ensures Over(NamesOf(p, l), ActsIn(l, k, n))
  {
    if n > 0 {
      ActsOver(p, l, k, n - 1);
      OwnVar(p, l, n - 1);
    }
  }

  lemma BlockOver(p: Proof, l: Layout, e: Listed)
    requires LayoutOk(p, l) && e.id < |p.clauses|
    ensures Over(NamesOf(p, l), BlockClause(l, e)) && BlockClause(l, e) != []
  {
    LaidOutPrepared(p, l);
    ActsOver(p, l, e.collapse, |l.act|);
    OwnVar(p, l, e.id);
    OverConcat(NamesOf(p, l), ActsIn(l, e.collapse, |l.act|), [Negate(l.check[e.id])]);
  }

  // ----- a query -----

  /** The maximiser has answered the query of c with n active clauses. */
  ghost predicate Answered(p: Proof, f: Finder, t: Store, c: ClauseID, n: nat) {
    && Sized(p, f.layout) && c < |p.clauses| && n <= Cached(p, f, c)
    && KeepsKnown(f.store.Words(), t.Words()) && t.clauses == f.store.clauses && t.opt == f.store.opt
    && t.last == f.store.last[multiset(QueryOf(p, f.layout, c)) := n]
  }

  lemma Asked(p: Proof, f: Finder, t: Store, c: ClauseID, n: nat)
    requires FinderOk(p, f) && f.inited && Answered(p, f, t, c, n) && t.Ok()
    ensures FinderOk(p, f.(store := t)) && Cached(p, f.(store := t), c) == n
  {
    var g := f.(store := t);
    FinderIs(p, f);
    StillAllKnown(f.store, t, NamesOf(p, f.layout));
    forall e | e in f.found
      ensures Within(p, g, e)
    {
      StillWithin(p, f, t, c, n, e);
    }
    FinderIs(p, g);
  }

  lemma StillWithin(p: Proof, f: Finder, t: Store, c: ClauseID, n: nat, e: Listed)
    requires LayoutOk(p, f.layout) && Answered(p, f, t, c, n) && Within(p, f, e)
    ensures Within(p, f.(store := t), e)
  {
    if e.id != c {
      QueriesApart(p, f.layout, e.id, c);
    }
  }

  /** A new set for c that leaves exactly the kept number active is no smaller
      than those listed before. */
  lemma BoundKeepsOrder(p: Proof, f: Finder, e: Listed)
    requires Sized(p, f.layout)
    requires AllWithin(p, f) && SizesGrow(f.found)
    requires e.id < |p.clauses| && |e.collapse| + Cached(p, f, e.id) == |p.clauses|
    ensures SizesGrow(f.found + [e])
  {
    var more := f.found + [e];
    forall i, j | 0 <= i < j < |more| && more[i].id == more[j].id
      ensures |more[i].collapse| <= |more[j].collapse|
    {
      assert more[i] in f.found && Within(p, f, more[i]);
    }
  }

  function Blocked(f: Finder, e: Listed): Finder
    requires e.id < |f.layout.check|
  {
    f.(found := f.found + [e], store := WithClause(f.store, BlockClause(f.layout, e)))
  }

  lemma BlockedOk(p: Proof, f: Finder, e: Listed)
    requires FinderOk(p, f) && f.inited && Sized(p, f.layout) && e.id < |p.clauses|
    requires MinimalCollapse(p, e.id, e.collapse) && !IsListed(f.found, e.id, e.collapse)
    requires |e.collapse| + Cached(p, f, e.id) == |p.clauses|
    ensures FinderOk(p, Blocked(f, e))
    ensures BlockClause(f.layout, e) != [] && f.store.Known(BlockClause(f.layout, e))
  {
    FinderIs(p, f);
    var g := Blocked(f, e);
    BlockOver(p, f.layout, e);
    OverKnown(f.store, NamesOf(p, f.layout), BlockClause(f.layout, e));
    ClauseOk(f.store, BlockClause(f.layout, e));
    ListNext(p, f.found, e.id, e.collapse);
    BlockedLoaded(p, f, e);
    FinderIs(p, g);
  }

  ghost predicate AllWithin(p: Proof, f: Finder)
    requires Sized(p, f.layout)
  {
    forall e | e in f.found :: Within(p, f, e)
  }

  lemma BlockedWithin(p: Proof, f: Finder, e: Listed)
    requires Sized(p, f.layout) && AllWithin(p, f) && e.id < |p.clauses|
    requires |e.collapse| + Cached(p, f, e.id) == |p.clauses|
    ensures AllWithin(p, Blocked(f, e))
  {
    var g := Blocked(f, e);
    forall d | d in g.found
      ensures Within(p, g, d)
    {
      if d != e {
        assert d in f.found && Within(p, f, d);
      }
    }
  }

  lemma BlockedKnown(p: Proof, found: seq<Listed>, e: Listed)
    requires ListKnown(p, found) && e.id < |p.clauses| && e.collapse <= p.All()
    ensures ListKnown(p, found + [e])
  {
    forall d | d in found + [e]
      ensures d.id < |p.clauses| && d.collapse <= p.All()
    {
      assert d in found || d == e;
    }
  }

  lemma BlockedLoaded(p: Proof, f: Finder, e: Listed)
    requires Loaded(p, f) && e.id < |p.clauses| && e.collapse <= p.All()
    requires |e.collapse| + Cached(p, f, e.id) == |p.clauses|
    ensures Loaded(p, Blocked(f, e))
  {
    BlockedKnown(p, f.found, e);
    BoundKeepsOrder(p, f, e);
    BlockedWithin(p, f, e);
    CnfNext(p, f.layout, f.found, e);
  }

  /** There is a minimal collapse set of c that is not listed, and k is a smallest
      such set; or there is none. */
  ghost predicate FindsNext(p: Proof, found: seq<Listed>, c: ClauseID, ok: bool, k: set<ClauseID>)
    requires c < |p.clauses|
  {
    && (ok <==> exists l :: MinimalCollapse(p, c, l) && !IsListed(found, c, l))
    && (ok ==> MinimalCollapse(p, c, k) && !IsListed(found, c, k) && k != {} && Smallest(p, found, c, k))
  }

  // ----- setting up -----

  /** Two variables per clause, in the order in which they were taken. */
  ghost predicate Numbered(lo: ID, act: seq<ID>, check: seq<ID>) {
    && |act| == |check| && (forall i | 0 <= i < |act| :: act[i] == lo + 4 * i)
    && forall i | 0 <= i < |check| :: check[i] == lo + 4 * i + 2
  }

  lemma NumberedPrepared(p: Proof, lo: ID, act: seq<ID>, check: seq<ID>)
    requires Numbered(lo, act, check) && |act| == |p.clauses| && MIN_ID <= lo && !IsNegated(lo)
    requires forall x | x in p.tr.Vars() :: x < lo
    ensures Prepared(p, Layout(map[], act, check))
  {
    forall i | 0 <= i < |act|
      ensures CopyOk(p.tr, act[i]) && CopyOk(p.tr, check[i])
    {
      assert act[i] == lo + 4 * i && check[i] == lo + 4 * i + 2;
    }
    forall i, j | 0 <= i < |act| && 0 <= j < |act|
      ensures act[i] != check[j]
    {
      assert act[i] == lo + 4 * i && check[j] == lo + 4 * j + 2;
    }
  }

  lemma NumberedKnown(p: Proof, lo: ID, act: seq<ID>, check: seq<ID>, s: Store)
    requires Numbered(lo, act, check) && s.hidden == {} && s.next == lo + 4 * |act|
    requires forall x | x in p.tr.Vars() :: x < lo
    ensures AllKnown(s, NamesOf(p, Layout(map[], act, check)))
  {
    forall x | x in NamesOf(p, Layout(map[], act, check))
      ensures x < s.next
    {
      if i :| 0 <= i < |act| && act[i] == x {
      } else if i :| 0 <= i < |check| && check[i] == x {
      } else {
        assert x in p.tr.Vars();
      }
    }
  }

  /** The variables of the second frame were taken from lo on. */
  ghost predicate Taken(copies: Copies, vars: set<ID>, lo: ID, hi: ID) {
    && copies.Keys == vars && (forall x | x in copies :: lo <= copies[x] < hi && !IsNegated(copies[x]))
    && forall x, y | x in copies && y in copies && x != y :: copies[x] != copies[y]
  }

  lemma TakenNext(copies: Copies, vars: set<ID>, lo: ID, hi: ID, x: ID)
    requires Taken(copies, vars, lo, hi) && x !in vars && lo <= hi && !IsNegated(hi)
    ensures Taken(copies[x := hi], vars + {x}, lo, hi + ID_INCR)
  {
  }

  lemma TakenLayout(p: Proof, l: Layout, copies: Copies, lo: ID, hi: ID)
    requires PlainProof(p) && Prepared(p, l) && Taken(copies, p.tr.Vars(), lo, hi)
    requires MIN_ID <= lo && forall x | x in NamesOf(p, l) :: x < lo
    ensures LayoutOk(p, Layout(copies, l.act, l.check))
  {
    forall x | x in copies
      ensures CopyOk(p.tr, copies[x])
    {
      assert copies[x] in p.tr.Vars() ==> copies[x] in NamesOf(p, l);
    }
    forall x | x in NamesOf(p, l)
      ensures x !in copies.Values
    {
      assert forall y | y in copies :: copies[y] >= lo;
    }
    forall i | 0 <= i < |l.act|
      ensures NewVar(p, copies, l.act[i]) && NewVar(p, copies, l.check[i])
    {
      assert CopyOk(p.tr, l.act[i]) && CopyOk(p.tr, l.check[i]);
      assert l.act[i] in Elems(l.act) && l.check[i] in Elems(l.check);
      assert l.act[i] in NamesOf(p, l) && l.check[i] in NamesOf(p, l);
    }
  }

  lemma TakenKnown(p: Proof, l: Layout, copies: Copies, lo: ID, s: Store)
    requires AllKnown(s.(next := lo), NamesOf(p, l)) && Taken(copies, p.tr.Vars(), lo, s.next) && lo <= s.next
    requires forall x | x in s.hidden :: x < lo
    ensures AllKnown(s, NamesOf(p, Layout(copies, l.act, l.check)))
  {
    forall x | x in NamesOf(p, Layout(copies, l.act, l.check))
      ensures x < s.next && x !in s.hidden
    {
      if x in copies.Values {
        var y :| y in copies && copies[y] == x;
      } else {
        assert x in NamesOf(p, l);
      }
    }
  }

  ghost predicate Fit(names: set<ID>, cnf: seq<Clause>) {
    forall cls | cls in cnf :: cls != [] && Over(names, cls)
  }

  lemma FitConcat(names: set<ID>, a: seq<Clause>, b: seq<Clause>)
    requires Fit(names, a) && Fit(names, b)
    ensures Fit(names, a + b)
  {
    forall cls | cls in a + b
      ensures cls != [] && Over(names, cls)
    {
      assert cls in a || cls in b;
    }
  }

  lemma PlainFit(p: Proof, l: Layout, cnf: seq<Clause>)
    requires PlainCnf(p.tr, cnf) && forall cls | cls in cnf :: cls != []
    ensures Fit(NamesOf(p, l), cnf)
  {
    forall cls | cls in cnf
      ensures cls != [] && Over(NamesOf(p, l), cls)
    {
      PlainOver(p, l, cls);
    }
  }

  lemma PrimedFit(p: Proof, l: Layout, cnf: seq<Clause>)
    requires CopiesOk(p.tr, l.copies) && PlainCnf(p.tr, cnf) && forall cls | cls in cnf :: cls != []
    ensures Fit(NamesOf(p, l), PrimedCnf(l.copies, cnf))
  {
    var primed := PrimedCnf(l.copies, cnf);
    forall cls | cls in primed
      ensures cls != [] && Over(NamesOf(p, l), cls)
    {
      var i :| 0 <= i < |primed| && primed[i] == cls;
      assert cnf[i] in cnf;
      PrimedOver(p, l, cnf[i]);
    }
  }

  lemma {:induction false} GatesNonEmpty(gates: seq<AndGate>)
    ensures forall cls | cls in GatesCnf(gates) :: cls != []
  {
    if gates != [] {
      GatesNonEmpty(gates[..|gates| - 1]);
    }
  }

  lemma LatchFit(p: Proof, l: Layout, latch: Latch)
    requires CopiesOk(p.tr, l.copies) && Plain(p.tr, latch.id) && Plain(p.tr, latch.next)
    ensures Fit(NamesOf(p, l), LatchClauses(l.copies, latch))
  {
    var next := PrimedLit(l.copies, latch.id);
    PrimedStrip(p, l, latch.id);
    StripNegate(next);
    StripNegate(latch.next);
    assert Over(NamesOf(p, l), [Negate(latch.next), next]);
    assert Over(NamesOf(p, l), [latch.next, Negate(next)]);
  }

  lemma StripNegate(lit: ID)
    ensures Strip(Negate(lit)) == Strip(lit)
  {
  }

  lemma {:induction false} LatchesFit(p: Proof, l: Layout, latches: seq<Latch>)
    requires CopiesOk(p.tr, l.copies) && forall latch | latch in latches :: Plain(p.tr, latch.id) && Plain(p.tr, latch.next)
    ensures Fit(NamesOf(p, l), LatchesCnf(l.copies, latches))
  {
    if latches != [] {
      var less, last := latches[..|latches| - 1], latches[|latches| - 1];
      LatchesFit(p, l, less);
      LatchFit(p, l, last);
      FitConcat(NamesOf(p, l), LatchesCnf(l.copies, less), LatchClauses(l.copies, last));
    }
  }

  lemma UnrolledFit(p: Proof, l: Layout)
    requires PlainProof(p) && CopiesOk(p.tr, l.copies)
    ensures Fit(NamesOf(p, l), Unrolled(p.tr, l.copies))
  {
    var cnf := GatesCnf(p.tr.gates);
    AllPlain(p.tr);
    GatesNonEmpty(p.tr.gates);
    PlainFit(p, l, cnf);
    PrimedFit(p, l, cnf);
    forall latch | latch in p.tr.latches
      ensures Plain(p.tr, latch.id) && Plain(p.tr, latch.next)
    {
      assert latch.id in p.tr.LatchIDs() && latch.id in p.tr.Vars();
      BeforeKnown(p.tr, |p.tr.gates|, Strip(latch.next));
    }
    LatchesFit(p, l, p.tr.latches);
    FitConcat(NamesOf(p, l), cnf, PrimedCnf(l.copies, cnf));
    FitConcat(NamesOf(p, l), cnf + PrimedCnf(l.copies, cnf), LatchesCnf(l.copies, p.tr.latches));
  }

  lemma OneActivatedFit(p: Proof, l: Layout, i: ClauseID)
    requires ClausesPlain(p) && Prepared(p, l) && i < |p.clauses|
    ensures Over(NamesOf(p, l), p.clauses[i] + [Negate(l.act[i])])
  {
    assert p.clauses[i] in p.clauses;
    PlainOver(p, l, p.clauses[i]);
    OwnVar(p, l, i);
    OverConcat(NamesOf(p, l), p.clauses[i], [Negate(l.act[i])]);
  }

  lemma {:induction false} ActivatedFit(p: Proof, l: Layout, n: nat)
    requires ClausesPlain(p) && Prepared(p, l) && n <= |p.clauses|
    ensures Fit(NamesOf(p, l), Activated(p, l, n))
  {
    if n > 0 {
      ActivatedFit(p, l, n - 1);
      OneActivatedFit(p, l, n - 1);
      FitConcat(NamesOf(p, l), Activated(p, l, n - 1), [p.clauses[n - 1] + [Negate(l.act[n - 1])]]);
    }
  }

  lemma CnfFits(p: Proof, l: Layout, s: Store)
    requires LayoutOk(p, l) && s.Ok() && AllKnown(s, NamesOf(p, l))
    ensures forall cls | cls in FinderCnf(p, l, []) :: cls != [] && s.Known(cls)
  {
    LaidOutPrepared(p, l);
    UnrolledFit(p, l);
    ActivatedFit(p, l, |p.clauses|);
    FitConcat(NamesOf(p, l), Unrolled(p.tr, l.copies), Activated(p, l, |p.clauses|));
    var cnf := FinderCnf(p, l, []);
    assert cnf == Unrolled(p.tr, l.copies) + Activated(p, l, |p.clauses|);
    forall cls | cls in cnf
      ensures cls != [] && s.Known(cls)
    {
      OverKnown(s, NamesOf(p, l), cls);
    }
  }

  lemma ActsKnown(p: Proof, l: Layout, s: Store)
    requires LayoutOk(p, l) && s.Ok() && AllKnown(s, NamesOf(p, l))
    ensures forall x | x in l.act :: s.Known([x])
  {
    LaidOutPrepared(p, l);
    forall x | x in l.act
      ensures s.Known([x])
    {
      var i :| 0 <= i < |l.act| && l.act[i] == x;
      OwnVar(p, l, i);
      OverKnown(s, NamesOf(p, l), [x]);
    }
  }

  lemma ReadyToSearch(p: Proof, f: Finder)
    requires PlainProof(p) && LayoutOk(p, f.layout) && f.inited && f.found == [] && f.store.Ok()
    requires AllKnown(f.store, NamesOf(p, f.layout))
    requires f.store.opt == f.layout.act && f.store.clauses == FinderCnf(p, f.layout, [])
    ensures FinderOk(p, f)
  {
    FinderIs(p, f);
  }

  class CollapseSetFinder {
    const p: Proof
    const pbo: PboMaxSatSolver
    var solverInited: bool
    var act: seq<ID>
    var check: seq<ID>
    var copies: Copies
    /** What was blocked, in that order. */
    ghost var found: seq<Listed>

    ghost function State(): Finder
      reads this, pbo, pbo.vm, pbo.solver, pbo.cardinality
    {
      Finder(Layout(copies, act, check), found, solverInited, pbo.Abs())
    }

    ghost predicate Valid()
      reads this, pbo, pbo.vm, pbo.solver, pbo.cardinality
    {
      pbo.Valid() && FinderOk(p, State())
    }

    lemma CircuitKnown()
      requires Valid()
      ensures p.tr.WellFormed()
    {
      FinderIs(p, State());
    }

    /** The finder with all the clauses of the proof. */
    constructor (vm: VariableManager, p: Proof)
      requires vm.Valid() && PlainProof(p) && forall x | x in p.tr.Vars() :: x < vm.nextID
      modifies vm
      ensures Valid() && this.p == p && pbo.vm == vm && found == []
      ensures fresh(pbo) && fresh(pbo.solver) && fresh(pbo.cardinality)
    {
      this.p := p;
      pbo := new PboMaxSatSolver(vm);
      solverInited, act, check, copies, found := false, [], [], map[], [];
      new;
      ghost var lo := vm.nextID;
      ghost var s := pbo.Abs();
      for id := 0 to |p.clauses|
        modifies this, vm
        invariant Numbered(lo, act, check) && |act| == id && vm.nextID == lo + 4 * id && vm.Valid()
        invariant copies == map[] && found == [] && !solverInited && pbo.Abs() == s.(next := vm.nextID)
      {
        var a := vm.GetNewID();
        var c := vm.GetNewID();
        act, check := act + [a], check + [c];
      }
      LaterOk(s, vm.nextID);
      NumberedPrepared(p, lo, act, check);
      NumberedKnown(p, lo, act, check, pbo.Abs());
      FinderIs(p, State());
    }

    /** Variables for the second time frame. */
    method TakeCopies() returns (m: Copies)
      requires pbo.vm.Valid()
      modifies pbo.vm
      ensures pbo.vm.Valid() && old(pbo.vm.nextID) <= pbo.vm.nextID
      ensures Taken(m, p.tr.Vars(), old(pbo.vm.nextID), pbo.vm.nextID)
    {
      m := map[];
      var rest := p.tr.Vars();
      while rest != {}
        invariant rest <= p.tr.Vars() && pbo.vm.Valid() && old(pbo.vm.nextID) <= pbo.vm.nextID
        invariant Taken(m, p.tr.Vars() - rest, old(pbo.vm.nextID), pbo.vm.nextID)
        decreases rest
      {
        var x :| x in rest;
        TakenNext(m, p.tr.Vars() - rest, old(pbo.vm.nextID), pbo.vm.nextID, x);
        var y := pbo.vm.GetNewID();
        m := m[x := y];
        assert p.tr.Vars() - rest + {x} == p.tr.Vars() - (rest - {x});
        rest := rest - {x};
      }
      assert p.tr.Vars() - rest == p.tr.Vars();
    }

    method InitSolver()
      requires Valid() && !solverInited
      modifies this, pbo, pbo.vm, pbo.solver, pbo.cardinality
      ensures Valid() && solverInited && found == old(found)
    {
      ghost var f := State();
      FinderIs(p, f);
      PboMaxSat.OkMeans(f.store);
      copies := TakeCopies();
      LaterOk(f.store, pbo.vm.nextID);
      TakenLayout(p, f.layout, copies, f.store.next, pbo.vm.nextID);
      TakenKnown(p, f.layout, copies, f.store.next, pbo.Abs());
      Load();
      solverInited := true;
      ReadyToSearch(p, State());
    }

    /** Adds the clauses, and every activation variable to be maximised. */
    method Load()
      requires PlainProof(p) && pbo.Valid() && LayoutOk(p, Layout(copies, act, check))
      requires AllKnown(pbo.Abs(), NamesOf(p, Layout(copies, act, check)))
      requires pbo.clauses == [] && pbo.optimizationSet == []
      modifies pbo, pbo.solver, pbo.cardinality
      ensures pbo.Valid() && AllKnown(pbo.Abs(), NamesOf(p, Layout(copies, act, check)))
      ensures pbo.optimizationSet == act && pbo.clauses == FinderCnf(p, Layout(copies, act, check), [])
    {
      ghost var l := Layout(copies, act, check);
      CnfFits(p, l, pbo.Abs());
      ActsKnown(p, l, pbo.Abs());
      pbo.AddClauses(FinderCnf(p, Layout(copies, act, check), []));
      pbo.AddAllForOptimization(act);
    }

    /** find: the clauses that the best answer leaves inactive. */
    method Find(c: ClauseID) returns (ok: bool, collapse: set<ClauseID>)
      requires Valid() && c < |p.clauses| && Inductive(p, p.All())
      modifies this, pbo, pbo.vm, pbo.solver, pbo.cardinality
      ensures Valid() && solverInited && found == old(found) && Sized(p, State().layout)
      ensures FindsNext(p, found, c, ok, collapse)
      ensures ok ==> |collapse| + Cached(p, State(), c) == |p.clauses|
    {
      if !solverInited {
        InitSolver();
      }
      ok := Ask(c);
      collapse := Read(c, ok);
    }

    /** What the answer says. */
    method Read(c: ClauseID, ok: bool) returns (collapse: set<ClauseID>)
      requires Valid() && solverInited && c < |p.clauses| && Inductive(p, p.All()) && Sized(p, State().layout)
      requires ok <==> Feasible(pbo.clauses, multiset(QueryOf(p, State().layout, c)))
      requires ok ==> Best(pbo.solver.model, pbo.clauses, pbo.optimizationSet, multiset(QueryOf(p, State().layout, c)))
      requires Cached(p, State(), c) == if ok then Count(pbo.solver.model, act) else 0
      ensures FindsNext(p, found, c, ok, collapse)
      ensures ok ==> |collapse| + Cached(p, State(), c) == |p.clauses|
    {
      collapse := {};
      if ok {
        AnswerFacts(p, State(), c, pbo.solver.model);
        collapse := Inactive();
      } else {
        NoAnswerFacts(p, State(), c);
      }
    }

    /** The maximiser's answer to the query of c. */
    method Ask(c: ClauseID) returns (ok: bool)
      requires Valid() && solverInited && c < |p.clauses|
      modifies pbo, pbo.vm, pbo.solver, pbo.cardinality
      ensures Valid() && Sized(p, State().layout)
      ensures ok <==> Feasible(pbo.clauses, multiset(QueryOf(p, State().layout, c)))
      ensures ok ==> Best(pbo.solver.model, pbo.clauses, pbo.optimizationSet, multiset(QueryOf(p, State().layout, c)))
      ensures Cached(p, State(), c) == if ok then Count(pbo.solver.model, act) else 0
    {
      ghost var f := State();
      QueryFacts(p, f, c);
      ok := pbo.AssumpSolve(QueryOf(p, Layout(copies, act, check), c));
      Asked(p, f, pbo.Abs(), c, if ok then Count(pbo.solver.model, act) else 0);
    }

    /** The clauses whose activation variable is false in the model. */
    method Inactive() returns (collapse: set<ClauseID>)
      requires |act| == |p.clauses|
      ensures collapse == p.All() - Among(act, pbo.solver.model)
    {
      collapse := {};
      for id := 0 to |p.clauses|
        invariant collapse == set i: ClauseID | i < id && act[i] !in pbo.solver.model
      {
        if act[id] !in pbo.solver.model {
          collapse := collapse + {id};
        }
      }
      assert forall i: ClauseID :: i in p.All() <==> i < |p.clauses|;
    }

    /** findAndBlock: the smallest minimal collapse set of c not listed yet, which is
        no smaller than those listed before. */
    method FindAndBlock(c: ClauseID) returns (ok: bool, collapse: set<ClauseID>)
      requires Valid() && c < |p.clauses| && Inductive(p, p.All())
      modifies this, pbo, pbo.vm, pbo.solver, pbo.cardinality
      ensures Valid()
      ensures FindsNext(p, old(found), c, ok, collapse)
      ensures found == if ok then old(found) + [Listed(c, collapse)] else old(found)
    {
      ok, collapse := Find(c);
      if ok {
        ghost var f := State();
        BlockedOk(p, f, Listed(c, collapse));
        pbo.AddClause(BlockClause(Layout(copies, act, check), Listed(c, collapse)));
        found := found + [Listed(c, collapse)];
        assert State() == Blocked(f, Listed(c, collapse));
      }
    }

    /** The sets listed for one clause never get smaller, and none is listed
        twice. */
    lemma ListedInOrder(i: nat, j: nat)
      requires Valid() && i < j < |found| && found[i].id == found[j].id
      ensures |found[i].collapse| <= |found[j].collapse| && found[i].collapse != found[j].collapse
    {
      FinderIs(p, State());
      assert found[j] !in found[..j] && found[..j][i] == found[i];
    }
  }

  /** What the query of a clause needs. */
  lemma QueryFacts(p: Proof, f: Finder, c: ClauseID)
    requires FinderOk(p, f) && f.inited && c < |p.clauses|
    ensures Sized(p, f.layout) && f.store.Known(QueryOf(p, f.layout, c)) && f.store.Ok()
    ensures f.store.opt == f.layout.act
  {
    FinderIs(p, f);
    QueryOver(p, f.layout, c);
    OverKnown(f.store, NamesOf(p, f.layout), QueryOf(p, f.layout, c));
  }

  lemma AnswerFacts(p: Proof, f: Finder, c: ClauseID, u: Valuation)
    requires FinderOk(p, f) && f.inited && c < |p.clauses| && Sized(p, f.layout) && Inductive(p, p.All())
    requires Best(u, f.store.clauses, f.store.opt, multiset(QueryOf(p, f.layout, c)))
    ensures FindsNext(p, f.found, c, true, p.All() - Among(f.layout.act, u))
    ensures |p.All() - Among(f.layout.act, u)| + Count(u, f.layout.act) == |p.clauses|
  {
    FinderIs(p, f);
    var acts := Among(f.layout.act, u);
    BestModel(p, f.layout, f.found, c, u);
    BestIsSmallest(p, f.found, c, acts);
    InductiveNonEmpty(p, c, p.All() - acts);
    SizeOfRest(p.All(), acts);
    AllSize(|p.clauses|);
  }

  lemma NoAnswerFacts(p: Proof, f: Finder, c: ClauseID)
    requires FinderOk(p, f) && f.inited && c < |p.clauses| && Sized(p, f.layout)
    requires !Feasible(f.store.clauses, multiset(QueryOf(p, f.layout, c)))
    ensures FindsNext(p, f.found, c, false, {})
  {
    FinderIs(p, f);
    forall a: set<ClauseID> | a <= p.All()
      ensures !HasQuery(p, f.found, c, a)
    {
      NoModelNoQuery(p, f.layout, f.found, c, a);
    }
    forall k | MinimalCollapse(p, c, k)
      ensures IsListed(f.found, c, k)
    {
      NoQueryAllListed(p, f.found, c, k);
    }
  }
}
