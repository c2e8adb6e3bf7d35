/** Collapse sets: what has to be removed from a proof for a clause to lose its
    support (src/pme/engine/collapse_set_finder.cpp). */
module CollapseSets {
  import opened Collections
  import opened Ids
  import opened ProofSets
  import opened SeedMaps

  /** The clauses of the proof that fail in a state. */
  function Failing(p: Proof, v: Valuation): set<ClauseID> {
    set id | id in p.All() && !SatClause(v, p.clauses[id])
  }

  /** Without the clauses of k, but with c itself, c is not supported. */
  ghost predicate Collapses(p: Proof, c: ClauseID, k: set<ClauseID>)
    requires c < |p.clauses|
  {
    k <= p.All() && c !in k && exists v, w :: p.tr.Step(v, w) && Failing(p, v) <= k && !SatClause(w, p.clauses[c])
  }

  ghost predicate MinimalCollapse(p: Proof, c: ClauseID, k: set<ClauseID>)
    requires c < |p.clauses|
  {
    Collapses(p, c, k) && forall l | l < k :: !Collapses(p, c, l)
  }

  lemma {:induction false} MinimalCollapseInside(p: Proof, c: ClauseID, k: set<ClauseID>)
    requires c < |p.clauses| && Collapses(p, c, k)
    ensures exists l :: l <= k && MinimalCollapse(p, c, l)
    decreases k
  {
    if l :| l < k && Collapses(p, c, l) {
      MinimalCollapseInside(p, c, l);
      var m :| m <= l && MinimalCollapse(p, c, m);
      assert m <= k;
    } else {
      assert MinimalCollapse(p, c, k);
    }
  }

  /** A set that misses a collapse set of c does not support c. */
  lemma MissedCollapse(p: Proof, s: set<ClauseID>, c: ClauseID, k: set<ClauseID>)
    requires c < |p.clauses| && Collapses(p, c, k) && s !! k
    ensures !Supports(p, s, c)
  {
    var v, w :| p.tr.Step(v, w) && Failing(p, v) <= k && !SatClause(w, p.clauses[c]);
    assert SatSet(p, v, s) && SatClause(v, p.clauses[c]) by {
      forall id | (id in s || id == c) && id < |p.clauses|
        ensures SatClause(v, p.clauses[id])
      {
        assert id in p.All() && id !in k;
      }
    }
  }

  /** An unsupported clause has a minimal collapse set outside the set. */
  lemma UnsupportedMisses(p: Proof, s: set<ClauseID>, c: ClauseID) returns (k: set<ClauseID>)
    requires c < |p.clauses| && !Supports(p, s, c)
    ensures MinimalCollapse(p, c, k) && s !! k
  {
    var v, w :| p.tr.Step(v, w) && SatSet(p, v, s) && SatClause(v, p.clauses[c]) && !SatClause(w, p.clauses[c]);
    var l := Failing(p, v);
    assert Collapses(p, c, l);
    MinimalCollapseInside(p, c, l);
    k :| k <= l && MinimalCollapse(p, c, k);
    assert s !! l;
  }

  /** Hitting-set duality: a set supports c exactly when it meets every minimal
      collapse set of c. */
  lemma SupportHitsCollapses(p: Proof, s: set<ClauseID>, c: ClauseID)
    requires c < |p.clauses|
    ensures Supports(p, s, c) <==> forall k | MinimalCollapse(p, c, k) :: !(s !! k)
  {
    if Supports(p, s, c) {
      forall k | MinimalCollapse(p, c, k)
        ensures !(s !! k)
      {
        if s !! k {
          MissedCollapse(p, s, c, k);
        }
      }
    } else {
      var k := UnsupportedMisses(p, s, c);
    }
  }

  /** collapseClause: c is not selected, or some clause of the collapse set is. */
  function CollapseClause(c: ClauseID, k: set<ClauseID>): SeedClause {
    SeedClause(k, {c})
  }

  lemma CollapseClauseHolds(p: Proof, c: ClauseID, k: set<ClauseID>, x: set<ClauseID>, nec: set<ClauseID>)
    requires c < |p.clauses| && Collapses(p, c, k) && SafeInductive(p, x, nec)
    ensures SatSeed(x, CollapseClause(c, k))
  {
    if c in x && x !! k {
      MissedCollapse(p, x, c, k);
    }
  }

  // ----- the finder -----

  datatype Listed = Listed(id: ClauseID, collapse: set<ClauseID>)

  predicate IsListed(found: seq<Listed>, c: ClauseID, k: set<ClauseID>) {
    Listed(c, k) in found
  }

  /** What the finder has listed: minimal collapse sets, none twice. */
  ghost predicate ListOk(p: Proof, found: seq<Listed>) {
    && (forall i | 0 <= i < |found| :: found[i].id < |p.clauses| && MinimalCollapse(p, found[i].id, found[i].collapse))
    && forall i | 0 <= i < |found| :: found[i] !in found[..i]
  }

  /** No set of the clause that is not listed yet is smaller. */
  ghost predicate Smallest(p: Proof, found: seq<Listed>, c: ClauseID, k: set<ClauseID>) {
    c < |p.clauses| && forall l | MinimalCollapse(p, c, l) && !IsListed(found, c, l) :: |k| <= |l|
  }

  lemma ListNext(p: Proof, found: seq<Listed>, c: ClauseID, k: set<ClauseID>)
    requires ListOk(p, found) && c < |p.clauses| && MinimalCollapse(p, c, k) && !IsListed(found, c, k)
    ensures ListOk(p, found + [Listed(c, k)])
  {
    var more := found + [Listed(c, k)];
    forall i | 0 <= i < |more|
      ensures more[i] !in more[..i]
    {
      assert more[..i] == if i < |found| then found[..i] else found;
    }
  }

  /** The pairs that can still be listed. */
  ghost function Unlisted(p: Proof, found: seq<Listed>): set<(ClauseID, set<ClauseID>)> {
    set c, k: set<ClauseID> | c in p.All() && k <= p.All() && !IsListed(found, c, k) :: (c, k)
  }

  lemma UnlistedShrinks(p: Proof, found: seq<Listed>, c: ClauseID, k: set<ClauseID>)
    requires c < |p.clauses| && k <= p.All() && !IsListed(found, c, k)
    ensures |Unlisted(p, found + [Listed(c, k)])| < |Unlisted(p, found)|
  {
    StrictlySmaller(Unlisted(p, found + [Listed(c, k)]), Unlisted(p, found), (c, k));
  }

  /** The query for c: a step whose first state satisfies the active clauses,
      among them c, while the second falsifies c.  A listed set is blocked only
      while its own clause is being checked. */
  predicate CollapseQuery(p: Proof, found: seq<Listed>, c: ClauseID, v: Valuation, w: Valuation, acts: set<ClauseID>,
                          checks: set<ClauseID>)
    requires c < |p.clauses|
  {
    && p.tr.Step(v, w) && SatSet(p, v, acts) && c in acts && c in checks && !SatClause(w, p.clauses[c])
    && forall l | l in found :: l.id !in checks || exists d | d in l.collapse :: d in acts
  }

  /** The sets that the query can leave inactive. */
  ghost predicate Candidate(p: Proof, found: seq<Listed>, c: ClauseID, k: set<ClauseID>)
    requires c < |p.clauses|
  {
    Collapses(p, c, k) && forall l | l in found && l.id == c :: !(l.collapse <= k)
  }

  lemma QueryIsCandidate(p: Proof, found: seq<Listed>, c: ClauseID, v: Valuation, w: Valuation, acts: set<ClauseID>,
                         checks: set<ClauseID>)
    requires c < |p.clauses| && acts <= p.All() && CollapseQuery(p, found, c, v, w, acts, checks)
    ensures Candidate(p, found, c, p.All() - acts)
  {
    assert Failing(p, v) <= p.All() - acts;
    forall l | l in found && l.id == c
      ensures !(l.collapse <= p.All() - acts)
    {
    }
  }

  lemma CandidateIsQuery(p: Proof, found: seq<Listed>, c: ClauseID, k: set<ClauseID>) returns (v: Valuation, w: Valuation)
    requires c < |p.clauses| && Candidate(p, found, c, k)
    requires forall l | l in found :: l.collapse <= p.All()
    ensures CollapseQuery(p, found, c, v, w, p.All() - k, {c}) && v <= p.tr.Vars() && w <= p.tr.Vars()
  {
    v, w :| p.tr.Step(v, w) && Failing(p, v) <= k && !SatClause(w, p.clauses[c]);
    forall id | id in p.All() - k && id < |p.clauses|
      ensures SatClause(v, p.clauses[id])
    {
      assert id !in Failing(p, v);
    }
    forall l | l in found && l.id == c
      ensures exists d | d in l.collapse :: d in p.All() - k
    {
      var d :| d in l.collapse && d !in k;
      assert d in p.All() - k;
    }
  }

  /** The best answer of the maximiser: no answer has more active clauses. */
  predicate BestQuery(p: Proof, found: seq<Listed>, c: ClauseID, acts: set<ClauseID>)
    requires c < |p.clauses|
  {
    && HasQuery(p, found, c, acts)
    && forall other: set<ClauseID> | other <= p.All() && HasQuery(p, found, c, other) :: |other| <= |acts|
  }

  predicate HasQuery(p: Proof, found: seq<Listed>, c: ClauseID, acts: set<ClauseID>)
    requires c < |p.clauses|
  {
    exists v, w, checks | v <= p.tr.Vars() && w <= p.tr.Vars() && checks <= p.All() ::
      CollapseQuery(p, found, c, v, w, acts, checks)
  }

  lemma HasQueryIsCandidate(p: Proof, found: seq<Listed>, c: ClauseID, acts: set<ClauseID>)
    requires c < |p.clauses| && acts <= p.All() && ListOk(p, found)
    ensures HasQuery(p, found, c, acts) <==> Candidate(p, found, c, p.All() - acts)
  {
    if HasQuery(p, found, c, acts) {
      var v, w, checks :| v <= p.tr.Vars() && w <= p.tr.Vars() && checks <= p.All()
        && CollapseQuery(p, found, c, v, w, acts, checks);
      QueryIsCandidate(p, found, c, v, w, acts, checks);
    }
    if Candidate(p, found, c, p.All() - acts) {
      var v, w := CandidateIsQuery(p, found, c, p.All() - acts);
      assert p.All() - (p.All() - acts) == acts;
      assert {c} <= p.All();
    }
  }

  /** A candidate contains a minimal collapse set that is not listed. */
  lemma CandidateNotListed(p: Proof, found: seq<Listed>, c: ClauseID, k: set<ClauseID>)
    requires c < |p.clauses| && Candidate(p, found, c, k)
    ensures exists l :: l <= k && MinimalCollapse(p, c, l) && !IsListed(found, c, l)
  {
    MinimalCollapseInside(p, c, k);
    var l :| l <= k && MinimalCollapse(p, c, l);
  }

  /** An unlisted minimal collapse set contains no listed one. */
  lemma NotListedCandidate(p: Proof, found: seq<Listed>, c: ClauseID, k: set<ClauseID>)
    requires c < |p.clauses| && MinimalCollapse(p, c, k) && !IsListed(found, c, k) && ListOk(p, found)
    ensures Candidate(p, found, c, k)
  {
    forall l | l in found && l.id == c
      ensures !(l.collapse <= k)
    {
      var i :| 0 <= i < |found| && found[i] == l;
      assert MinimalCollapse(p, c, l.collapse);
      if l.collapse <= k {
        CollapsesApart(p, c, l.collapse, k);
      }
    }
  }

  lemma CollapsesApart(p: Proof, c: ClauseID, k: set<ClauseID>, l: set<ClauseID>)
    requires c < |p.clauses| && MinimalCollapse(p, c, k) && MinimalCollapse(p, c, l) && k <= l
    ensures k == l
  {
    assert !(k < l);
  }

  /** What the maximiser leaves inactive is a smallest unlisted minimal set. */
  lemma BestIsSmallest(p: Proof, found: seq<Listed>, c: ClauseID, acts: set<ClauseID>)
    requires c < |p.clauses| && ListOk(p, found) && acts <= p.All() && BestQuery(p, found, c, acts)
    ensures var k := p.All() - acts;
      MinimalCollapse(p, c, k) && !IsListed(found, c, k) && Smallest(p, found, c, k)
  {
    var k := p.All() - acts;
    HasQueryIsCandidate(p, found, c, acts);
    forall l | MinimalCollapse(p, c, l) && !IsListed(found, c, l)
      ensures |k| <= |l|
    {
      NotListedCandidate(p, found, c, l);
      NoLargerThanBest(p, found, c, acts, l);
    }
    CandidateNotListed(p, found, c, k);
    var l :| l <= k && MinimalCollapse(p, c, l) && !IsListed(found, c, l);
    SameSize(l, k);
  }

  lemma NoLargerThanBest(p: Proof, found: seq<Listed>, c: ClauseID, acts: set<ClauseID>, l: set<ClauseID>)
    requires c < |p.clauses| && ListOk(p, found) && acts <= p.All() && BestQuery(p, found, c, acts)
    requires Candidate(p, found, c, l)
    ensures |p.All() - acts| <= |l|
  {
    var other := p.All() - l;
    assert p.All() - other == l;
    HasQueryIsCandidate(p, found, c, other);
    SizeOfRest(p.All(), acts);
    SizeOfRest(p.All(), other);
  }

  lemma SizeOfRest(all: set<ClauseID>, s: set<ClauseID>)
    requires s <= all
    ensures |all - s| == |all| - |s|
  {
    assert all == s + (all - s);
  }

  lemma SameSize(l: set<ClauseID>, k: set<ClauseID>)
    requires l <= k && |k| <= |l|
    ensures l == k
  {
    SizeOfRest(k, l);
    assert k - l == {};
    assert k == l + (k - l);
  }

  lemma InductiveNonEmpty(p: Proof, c: ClauseID, k: set<ClauseID>)
    requires c < |p.clauses| && Inductive(p, p.All()) && Collapses(p, c, k)
    ensures k != {}
  {
    if k == {} {
      MissedCollapse(p, p.All(), c, k);
    }
  }

  lemma NoQueryAllListed(p: Proof, found: seq<Listed>, c: ClauseID, k: set<ClauseID>)
    requires c < |p.clauses| && ListOk(p, found) && MinimalCollapse(p, c, k)
    requires forall a: set<ClauseID> | a <= p.All() :: !HasQuery(p, found, c, a)
    ensures IsListed(found, c, k)
  {
    if !IsListed(found, c, k) {
      NotListedCandidate(p, found, c, k);
      var a := p.All() - k;
      assert p.All() - a == k;
      HasQueryIsCandidate(p, found, c, a);
    }
  }
}
