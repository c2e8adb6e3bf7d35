/** The clauses behind the search for collapse sets
    (src/pme/engine/collapse_set_finder.cpp:36-175). */
module CollapseQueries {
  import opened Ids
  import opened NetworkProofs
  import opened Unrollings
  import opened PboMaxSat
  import opened ProofSets
  import opened CollapseSets

  /** The variables of the second time frame, and two variables per clause: is it
      active, and is its support being checked? */
  datatype Layout = Layout(copies: Copies, act: seq<ID>, check: seq<ID>)

  predicate ClausesPlain(p: Proof) {
    forall cls | cls in p.clauses :: PlainClause(p.tr, cls)
  }

  predicate NewVar(p: Proof, copies: Copies, x: ID) {
    CopyOk(p.tr, x) && x !in copies.Values
  }

  ghost predicate LayoutOk(p: Proof, l: Layout) {
    && p.tr.WellFormed() && ClausesPlain(p) && CopiesOk(p.tr, l.copies)
    && |l.act| == |p.clauses| && |l.check| == |p.clauses|
    && (forall i | 0 <= i < |l.act| :: NewVar(p, l.copies, l.act[i]) && NewVar(p, l.copies, l.check[i]))
    && (forall i, j | 0 <= i < j < |l.act| :: l.act[i] != l.act[j] && l.check[i] != l.check[j])
    && forall i, j | 0 <= i < |l.act| && 0 <= j < |l.act| :: l.act[i] != l.check[j]
  }

  /** The clauses whose variable is true. */
  function Among(vars: seq<ID>, u: Valuation): set<ClauseID> {
    set i: ClauseID | i < |vars| && vars[i] in u
  }

  // ----- the clauses -----

  /** getActivatedClause, for the first n */
  function Activated(p: Proof, l: Layout, n: nat): seq<Clause>
    requires n <= |p.clauses| && |l.act| == |p.clauses|
  {
    if n == 0 then [] else Activated(p, l, n - 1) + [p.clauses[n - 1] + [Negate(l.act[n - 1])]]
  }

  /** The activation literals of the set, in order. */
  function ActsIn(l: Layout, k: set<ClauseID>, n: nat): seq<ID>
    requires n <= |l.act|
  {
    if n == 0 then [] else ActsIn(l, k, n - 1) + if n - 1 in k then [l.act[n - 1]] else []
  }

  function BlockClause(l: Layout, e: Listed): Clause
    requires e.id < |l.check|
  {
    ActsIn(l, e.collapse, |l.act|) + [Negate(l.check[e.id])]
  }

  function Blocks(l: Layout, found: seq<Listed>): seq<Clause>
    requires forall e | e in found :: e.id < |l.check|
  {
    if found == [] then []
    else
      assert found[|found| - 1] in found;
      Blocks(l, found[..|found| - 1]) + [BlockClause(l, found[|found| - 1])]
  }

  function FinderCnf(p: Proof, l: Layout, found: seq<Listed>): seq<Clause>
    requires |l.act| == |p.clauses| && forall e | e in found :: e.id < |l.check|
  {
    Unrolled(p.tr, l.copies) + Activated(p, l, |p.clauses|) + Blocks(l, found)
  }

  lemma CnfNext(p: Proof, l: Layout, found: seq<Listed>, e: Listed)
    requires |l.act| == |p.clauses| && e.id < |l.check| && forall e | e in found :: e.id < |l.check|
    ensures forall d | d in found + [e] :: d.id < |l.check|
    ensures FinderCnf(p, l, found + [e]) == FinderCnf(p, l, found) + [BlockClause(l, e)]
  {
    assert (found + [e])[..|found|] == found;
  }

  // ----- what they mean -----

  lemma OneActivated(p: Proof, l: Layout, u: Valuation, i: ClauseID)
    requires LayoutOk(p, l) && ID_FALSE !in u && i < |p.clauses|
    ensures SatClause(u, p.clauses[i] + [Negate(l.act[i])])
       <==> (i in Among(l.act, u) ==> SatClause(First(p.tr, u), p.clauses[i]))
  {
    assert NewVar(p, l.copies, l.act[i]) && p.clauses[i] in p.clauses;
    ClauseConcat(u, p.clauses[i], [Negate(l.act[i])]);
    OneLiteral(u, Negate(l.act[i]));
    FirstSat(p.tr, u, p.clauses[i]);
  }

  lemma {:induction false} ActivatedMeans(p: Proof, l: Layout, u: Valuation, n: nat)
    requires LayoutOk(p, l) && ID_FALSE !in u && n <= |p.clauses|
    ensures Models(u, Activated(p, l, n))
       <==> forall i: ClauseID | i < n && i in Among(l.act, u) :: SatClause(First(p.tr, u), p.clauses[i])
  {
    if n > 0 {
      var cls := p.clauses[n - 1] + [Negate(l.act[n - 1])];
      ActivatedMeans(p, l, u, n - 1);
      OneActivated(p, l, u, n - 1);
      ModelsConcat(u, Activated(p, l, n - 1), [cls]);
      OneClause(u, cls);
    }
  }

  lemma OneClause(u: Valuation, cls: Clause)
    ensures Models(u, [cls]) <==> SatClause(u, cls)
  {
    assert cls in [cls];
  }

  lemma {:induction false} ActsInMeans(p: Proof, l: Layout, k: set<ClauseID>, u: Valuation, n: nat)
    requires LayoutOk(p, l) && n <= |l.act|
    ensures SatClause(u, ActsIn(l, k, n)) <==> exists d: ClauseID | d < n && d in k :: d in Among(l.act, u)
  {
    if n > 0 {
      var i := n - 1;
      ActsInMeans(p, l, k, u, i);
      assert NewVar(p, l.copies, l.act[i]);
      ClauseConcat(u, ActsIn(l, k, i), if i in k then [l.act[i]] else []);
      OneLiteral(u, l.act[i]);
    }
  }

  /** The set is blocked while its clause is being checked. */
  predicate NotBlocked(e: Listed, acts: set<ClauseID>, checks: set<ClauseID>) {
    e.id !in checks || exists d | d in e.collapse :: d in acts
  }

  lemma BlockMeans(p: Proof, l: Layout, e: Listed, u: Valuation)
    requires LayoutOk(p, l) && e.id < |p.clauses| && e.collapse <= p.All()
    ensures SatClause(u, BlockClause(l, e)) <==> NotBlocked(e, Among(l.act, u), Among(l.check, u))
  {
    var acts := ActsIn(l, e.collapse, |l.act|);
    ActsInMeans(p, l, e.collapse, u, |l.act|);
    assert NewVar(p, l.copies, l.check[e.id]);
    ClauseConcat(u, acts, [Negate(l.check[e.id])]);
    OneLiteral(u, Negate(l.check[e.id]));
  }

  lemma {:induction false} BlocksMean(p: Proof, l: Layout, found: seq<Listed>, u: Valuation)
    requires LayoutOk(p, l) && forall e | e in found :: e.id < |p.clauses| && e.collapse <= p.All()
    ensures Models(u, Blocks(l, found)) <==> forall e | e in found :: NotBlocked(e, Among(l.act, u), Among(l.check, u))
  {
    if found != [] {
      var less, e := found[..|found| - 1], found[|found| - 1];
      BlocksMean(p, l, less, u);
      BlockMeans(p, l, e, u);
      ModelsConcat(u, Blocks(l, less), [BlockClause(l, e)]);
      OneClause(u, BlockClause(l, e));
      assert forall d :: d in found <==> d in less || d == e by {
        assert found == less + [e];
      }
    }
  }

  ghost predicate CnfHolds(p: Proof, found: seq<Listed>, v: Valuation, w: Valuation, acts: set<ClauseID>, checks: set<ClauseID>) {
    p.tr.Step(v, w) && SatSet(p, v, acts) && forall e | e in found :: NotBlocked(e, acts, checks)
  }

  lemma CnfMeans(p: Proof, l: Layout, found: seq<Listed>, u: Valuation)
    requires LayoutOk(p, l) && ID_FALSE !in u
    requires forall e | e in found :: e.id < |p.clauses| && e.collapse <= p.All()
    ensures Models(u, FinderCnf(p, l, found))
       <==> CnfHolds(p, found, First(p.tr, u), Second(l.copies, u), Among(l.act, u), Among(l.check, u))
  {
    var frames, active := Unrolled(p.tr, l.copies), Activated(p, l, |p.clauses|);
    UnrolledMeans(p.tr, l.copies, u);
    ActivatedMeans(p, l, u, |p.clauses|);
    BlocksMean(p, l, found, u);
    ModelsConcat(u, frames, active);
    ModelsConcat(u, frames + active, Blocks(l, found));
  }

  // ----- the query for one clause -----

  /** The clause is active and checked, and its copy is false. */
  function QueryOf(p: Proof, l: Layout, c: ClauseID): Cube
    requires c < |p.clauses| && |l.act| == |p.clauses| && |l.check| == |p.clauses|
  {
    PrimedClause(l.copies, NegateVec(p.clauses[c])) + [l.act[c], l.check[c]]
  }

  lemma AsCube(u: Valuation, cube: Cube)
    ensures (forall lit | lit in multiset(cube) :: Holds(u, lit)) <==> SatCube(u, cube)
  {
    assert forall lit :: lit in multiset(cube) <==> lit in cube;
  }

  lemma CubeConcat(u: Valuation, a: Cube, b: Cube)
    ensures SatCube(u, a + b) <==> SatCube(u, a) && SatCube(u, b)
  {
    assert forall lit :: lit in a + b <==> lit in a || lit in b;
  }

  lemma TwoCube(u: Valuation, a: ID, b: ID)
    ensures SatCube(u, [a, b]) <==> Holds(u, a) && Holds(u, b)
  {
    assert a in [a, b] && b in [a, b];
  }

  lemma QueryCube(p: Proof, l: Layout, c: ClauseID, u: Valuation)
    requires LayoutOk(p, l) && c < |p.clauses| && ID_FALSE !in u
    ensures (forall lit | lit in multiset(QueryOf(p, l, c)) :: Holds(u, lit))
       <==> !SatClause(Second(l.copies, u), p.clauses[c]) && c in Among(l.act, u) && c in Among(l.check, u)
  {
    AsCube(u, QueryOf(p, l, c));
    CubeConcat(u, PrimedClause(l.copies, NegateVec(p.clauses[c])), [l.act[c], l.check[c]]);
    TwoCube(u, l.act[c], l.check[c]);
    PrimedCube(p, l, c, u);
    assert NewVar(p, l.copies, l.act[c]) && NewVar(p, l.copies, l.check[c]);
  }

  lemma PrimedCube(p: Proof, l: Layout, c: ClauseID, u: Valuation)
    requires LayoutOk(p, l) && c < |p.clauses| && ID_FALSE !in u
    ensures SatCube(u, PrimedClause(l.copies, NegateVec(p.clauses[c]))) <==> !SatClause(Second(l.copies, u), p.clauses[c])
  {
    var cls := p.clauses[c];
    assert cls in p.clauses;
    PlainNegated(p.tr, cls);
    SecondCube(p.tr, l.copies, u, NegateVec(cls));
    NegatedClause(Second(l.copies, u), cls);
  }

  ghost predicate ListKnown(p: Proof, found: seq<Listed>) {
    forall e | e in found :: e.id < |p.clauses| && e.collapse <= p.All()
  }

  /** A model of the solver's clauses under the assumptions is a query. */
  lemma ModelIsQuery(p: Proof, l: Layout, found: seq<Listed>, c: ClauseID, u: Valuation)
    requires LayoutOk(p, l) && ListKnown(p, found) && c < |p.clauses|
    requires Meets(u, FinderCnf(p, l, found), multiset(QueryOf(p, l, c)))
    ensures CollapseQuery(p, found, c, First(p.tr, u), Second(l.copies, u), Among(l.act, u), Among(l.check, u))
    ensures HasQuery(p, found, c, Among(l.act, u)) && Among(l.act, u) <= p.All()
  {
    CnfMeans(p, l, found, u);
    QueryCube(p, l, c, u);
    var checks := Among(l.check, u);
    assert First(p.tr, u) <= p.tr.Vars() && Second(l.copies, u) <= p.tr.Vars() && checks <= p.All();
  }

  function ValuesOf(vars: seq<ID>, s: set<ClauseID>): Valuation {
    set i | i in s && i < |vars| :: vars[i]
  }

  /** The valuation for two frames and the chosen clauses. */
  function Chosen(l: Layout, v: Valuation, w: Valuation, acts: set<ClauseID>, checks: set<ClauseID>): Valuation {
    Joined(l.copies, v, w) + (ValuesOf(l.act, acts) + ValuesOf(l.check, checks))
  }

  lemma ChosenMeans(p: Proof, l: Layout, v: Valuation, w: Valuation, acts: set<ClauseID>, checks: set<ClauseID>)
    requires LayoutOk(p, l) && v <= p.tr.Vars() && w <= p.tr.Vars() && acts <= p.All() && checks <= p.All()
    ensures var u := Chosen(l, v, w, acts, checks);
      && First(p.tr, u) == v && Second(l.copies, u) == w && Among(l.act, u) == acts && Among(l.check, u) == checks
      && ID_FALSE !in u
  {
    var u := Chosen(l, v, w, acts, checks);
    var more := ValuesOf(l.act, acts) + ValuesOf(l.check, checks);
    NewVars(p, l, acts, checks);
    JoinedFrames(p.tr, l.copies, v, w, more);
    JoinedAvoids(p, l, v, w);
    forall i: ClauseID | i < |l.act|
      ensures l.act[i] in u <==> i in acts
      ensures l.check[i] in u <==> i in checks
    {
      assert NewVar(p, l.copies, l.act[i]) && NewVar(p, l.copies, l.check[i]);
      ActChosen(p, l, acts, checks, i);
    }
  }

  lemma NewVars(p: Proof, l: Layout, acts: set<ClauseID>, checks: set<ClauseID>)
    requires LayoutOk(p, l)
    ensures forall x | x in ValuesOf(l.act, acts) + ValuesOf(l.check, checks) :: NewVar(p, l.copies, x)
  {
    forall x | x in ValuesOf(l.act, acts) + ValuesOf(l.check, checks)
      ensures NewVar(p, l.copies, x)
    {
      if x in ValuesOf(l.act, acts) {
        var i :| i in acts && i < |l.act| && l.act[i] == x;
        assert NewVar(p, l.copies, l.act[i]);
      } else {
        var i :| i in checks && i < |l.check| && l.check[i] == x;
        assert NewVar(p, l.copies, l.check[i]);
      }
    }
  }

  lemma JoinedAvoids(p: Proof, l: Layout, v: Valuation, w: Valuation)
    requires LayoutOk(p, l) && v <= p.tr.Vars() && w <= p.tr.Vars()
    ensures ID_FALSE !in Joined(l.copies, v, w)
    ensures forall x | NewVar(p, l.copies, x) :: x !in Joined(l.copies, v, w)
  {
    forall x | x in Joined(l.copies, v, w)
      ensures x in p.tr.Vars() || (x in l.copies.Values && CopyOk(p.tr, x))
    {
      if x !in v {
        var y :| y in l.copies && y in w && l.copies[y] == x;
        assert CopyOk(p.tr, l.copies[y]);
      }
    }
  }

  lemma ActChosen(p: Proof, l: Layout, acts: set<ClauseID>, checks: set<ClauseID>, i: ClauseID)
    requires LayoutOk(p, l) && i < |l.act|
    ensures l.act[i] in ValuesOf(l.act, acts) + ValuesOf(l.check, checks) <==> i in acts
    ensures l.check[i] in ValuesOf(l.act, acts) + ValuesOf(l.check, checks) <==> i in checks
  {
    if l.act[i] in ValuesOf(l.act, acts) {
      var j :| j in acts && j < |l.act| && l.act[j] == l.act[i];
      assert i == j;
    }
    if l.check[i] in ValuesOf(l.check, checks) {
      var j :| j in checks && j < |l.check| && l.check[j] == l.check[i];
      assert i == j;
    }
  }

  /** And every query is such a model. */
  lemma QueryIsModel(p: Proof, l: Layout, found: seq<Listed>, c: ClauseID, v: Valuation, w: Valuation, acts: set<ClauseID>,
                     checks: set<ClauseID>)
    requires LayoutOk(p, l) && ListKnown(p, found) && c < |p.clauses|
    requires v <= p.tr.Vars() && w <= p.tr.Vars() && acts <= p.All() && checks <= p.All()
    requires CollapseQuery(p, found, c, v, w, acts, checks)
    ensures var u := Chosen(l, v, w, acts, checks);
      Meets(u, FinderCnf(p, l, found), multiset(QueryOf(p, l, c))) && Among(l.act, u) == acts
  {
    var u := Chosen(l, v, w, acts, checks);
    ChosenMeans(p, l, v, w, acts, checks);
    CnfMeans(p, l, found, u);
    QueryCube(p, l, c, u);
  }

  // ----- counting -----

  function AmongFirst(vars: seq<ID>, u: Valuation, n: nat): set<ClauseID>
    requires n <= |vars|
  {
    set i: ClauseID | i < n && vars[i] in u
  }

  lemma AmongNext(vars: seq<ID>, u: Valuation, n: nat)
    requires n < |vars|
    ensures |AmongFirst(vars, u, n + 1)| == |AmongFirst(vars, u, n)| + if vars[n] in u then 1 else 0
  {
    var less := AmongFirst(vars, u, n);
    assert AmongFirst(vars, u, n + 1) == if vars[n] in u then less + {n} else less;
  }

  lemma {:induction false} CountAmong(vars: seq<ID>, u: Valuation, n: nat)
    requires n <= |vars| && forall i | 0 <= i < |vars| :: !IsNegated(vars[i])
    ensures Count(u, vars[..n]) == |AmongFirst(vars, u, n)|
  {
    if n > 0 {
      CountAmong(vars, u, n - 1);
      assert vars[..n] == vars[..n - 1] + [vars[n - 1]];
      CountConcat(u, vars[..n - 1], [vars[n - 1]]);
      AmongNext(vars, u, n - 1);
    } else {
      assert AmongFirst(vars, u, 0) == {};
    }
  }

  lemma CountActs(p: Proof, l: Layout, u: Valuation)
    requires LayoutOk(p, l)
    ensures Count(u, l.act) == |Among(l.act, u)|
  {
    forall i | 0 <= i < |l.act|
      ensures !IsNegated(l.act[i])
    {
      assert NewVar(p, l.copies, l.act[i]);
    }
    CountAmong(l.act, u, |l.act|);
    assert l.act[..|l.act|] == l.act;
    assert Among(l.act, u) == AmongFirst(l.act, u, |l.act|);
  }

  /** What the maximiser answers is a best query. */
  lemma BestModel(p: Proof, l: Layout, found: seq<Listed>, c: ClauseID, u: Valuation)
    requires LayoutOk(p, l) && ListKnown(p, found) && c < |p.clauses|
    requires Best(u, FinderCnf(p, l, found), l.act, multiset(QueryOf(p, l, c)))
    ensures BestQuery(p, found, c, Among(l.act, u)) && Among(l.act, u) <= p.All()
    ensures Count(u, l.act) == |Among(l.act, u)|
  {
    ModelIsQuery(p, l, found, c, u);
    CountActs(p, l, u);
    forall other: set<ClauseID> | other <= p.All() && HasQuery(p, found, c, other)
      ensures |other| <= |Among(l.act, u)|
    {
      var v, w, checks :| v <= p.tr.Vars() && w <= p.tr.Vars() && checks <= p.All()
        && CollapseQuery(p, found, c, v, w, other, checks);
      QueryIsModel(p, l, found, c, v, w, other, checks);
      CountActs(p, l, Chosen(l, v, w, other, checks));
    }
  }

  lemma NoModelNoQuery(p: Proof, l: Layout, found: seq<Listed>, c: ClauseID, a: set<ClauseID>)
    requires LayoutOk(p, l) && ListKnown(p, found) && c < |p.clauses| && a <= p.All()
    requires !Feasible(FinderCnf(p, l, found), multiset(QueryOf(p, l, c)))
    ensures !HasQuery(p, found, c, a)
  {
    if HasQuery(p, found, c, a) {
      var v, w, checks :| v <= p.tr.Vars() && w <= p.tr.Vars() && checks <= p.All()
        && CollapseQuery(p, found, c, v, w, a, checks);
      QueryIsModel(p, l, found, c, v, w, a, checks);
    }
  }

  /** Different clauses have different queries. */
  lemma QueriesApart(p: Proof, l: Layout, c: ClauseID, d: ClauseID)
    requires LayoutOk(p, l) && c < |p.clauses| && d < |p.clauses| && c != d
    ensures multiset(QueryOf(p, l, c)) != multiset(QueryOf(p, l, d))
  {
    var q := QueryOf(p, l, d);
    assert l.check[c] in QueryOf(p, l, c) && l.check[c] in multiset(QueryOf(p, l, c));
    if l.check[c] in q {
      assert NewVar(p, l.copies, l.check[c]);
      CheckElsewhere(p, l, c, d);
    }
  }

  lemma CheckElsewhere(p: Proof, l: Layout, c: ClauseID, d: ClauseID)
    requires LayoutOk(p, l) && c < |p.clauses| && d < |p.clauses| && c != d
    ensures l.check[c] !in QueryOf(p, l, d)
  {
    var neg := NegateVec(p.clauses[d]);
    assert NewVar(p, l.copies, l.check[c]) && p.clauses[d] in p.clauses;
    forall i | 0 <= i < |neg|
      ensures PrimedLit(l.copies, neg[i]) != l.check[c]
    {
      assert p.clauses[d][i] in p.clauses[d];
      PlainNegate(p.tr, p.clauses[d][i]);
      PrimedElsewhere(p, l, neg[i], l.check[c]);
    }
  }

  lemma NegateOdd(x: ID)
    requires !IsNegated(x)
    ensures IsNegated(Negate(x))
  {
  }

  lemma PrimedElsewhere(p: Proof, l: Layout, lit: ID, x: ID)
    requires LayoutOk(p, l) && Plain(p.tr, lit) && NewVar(p, l.copies, x)
    ensures PrimedLit(l.copies, lit) != x
  {
    if Strip(lit) in l.copies {
      var y := l.copies[Strip(lit)];
      assert CopyOk(p.tr, y) && y in l.copies.Values;
      NegateOdd(y);
    } else {
      PlainOutside(p, l, lit);
    }
  }

  lemma PlainOutside(p: Proof, l: Layout, lit: ID)
    requires LayoutOk(p, l) && Plain(p.tr, lit) && Strip(lit) !in l.copies
    ensures lit < MIN_ID
  {
  }
}
