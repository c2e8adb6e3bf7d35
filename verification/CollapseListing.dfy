/** Listing one more collapse set for each unsupported clause of a candidate
    (src/pme/minimization/camsis.cpp:97-104, src/pme/minimization/marco.cpp:522-534). */
module CollapseListings {
  import opened Collections
  import opened ProofSets
  import opened SeedMaps
  import opened CollapseSets
  import opened CollapseFinders

  ghost function UnsupportedIn(p: Proof, s: set<ClauseID>): set<ClauseID> {
    set c | c in s && c < |p.clauses| && !Supports(p, s, c)
  }

  lemma NoneUnsupported(p: Proof, s: set<ClauseID>)
    requires s <= p.All()
    ensures UnsupportedIn(p, s) == {} <==> Inductive(p, s)
  {
    if Inductive(p, s) {
      assert forall c | c in s && c < |p.clauses| :: Supports(p, s, c);
    } else {
      var c :| c in s && c < |p.clauses| && !Supports(p, s, c);
      assert c in UnsupportedIn(p, s);
    }
  }

  ghost predicate NothingToList(p: Proof, found: seq<Listed>, c: ClauseID)
    requires c < |p.clauses|
  {
    forall k | MinimalCollapse(p, c, k) :: IsListed(found, c, k)
  }

  /** What findAndBlock may list next for its clause. */
  ghost predicate NextListed(p: Proof, found: seq<Listed>, l: Listed) {
    && l.id < |p.clauses| && MinimalCollapse(p, l.id, l.collapse) && !IsListed(found, l.id, l.collapse)
    && Smallest(p, found, l.id, l.collapse)
  }

  /** One new collapse set for each of the clauses. */
  ghost predicate Listing(p: Proof, found: seq<Listed>, ids: set<ClauseID>, news: seq<Listed>) {
    && (forall l | l in news :: l.id in ids && NextListed(p, found, l))
    && (forall c | c in ids :: exists l :: l in news && l.id == c)
    && forall i, j | 0 <= i < j < |news| :: news[i].id != news[j].id
  }

  function CollapseClauses(news: seq<Listed>): seq<SeedClause> {
    if news == [] then []
    else CollapseClauses(news[..|news| - 1]) + [CollapseClause(news[|news| - 1].id, news[|news| - 1].collapse)]
  }

  lemma CollapseClausesMore(news: seq<Listed>, l: Listed)
    ensures CollapseClauses(news + [l]) == CollapseClauses(news) + [CollapseClause(l.id, l.collapse)]
  {
    assert (news + [l])[..|news|] == news;
  }

  lemma {:induction false} CollapseClauseIn(news: seq<Listed>, l: Listed)
    requires l in news
    ensures CollapseClause(l.id, l.collapse) in CollapseClauses(news)
    decreases |news|
  {
    var n := |news| - 1;
    if news[n] != l {
      assert l in news[..n];
      CollapseClauseIn(news[..n], l);
    }
  }

  lemma NextIsListed(p: Proof, found: seq<Listed>, c: ClauseID, ok: bool, k: set<ClauseID>)
    requires c < |p.clauses| && FindsNext(p, found, c, ok, k)
    ensures ok <==> !NothingToList(p, found, c)
    ensures ok ==> NextListed(p, found, Listed(c, k))
  {
  }

  /** One set has been listed for each clause outside rest, kept folded: the
      argument n does not matter. */
  ghost predicate FoldedListing(p: Proof, found: seq<Listed>, ids: set<ClauseID>, news: seq<Listed>, n: nat)
    decreases n
  {
    if n == 0 then Listing(p, found, ids, news) else FoldedListing(p, found, ids, news, n - 1)
  }

  ghost predicate ListedFrom(p: Proof, found: seq<Listed>, unsupported: set<ClauseID>, rest: set<ClauseID>, news: seq<Listed>) {
    FoldedListing(p, found, unsupported - rest, news, |p.clauses|)
  }

  lemma {:induction false} UnfoldListing(p: Proof, found: seq<Listed>, ids: set<ClauseID>, news: seq<Listed>, n: nat)
    ensures FoldedListing(p, found, ids, news, n) <==> Listing(p, found, ids, news)
    decreases n
  {
    if n > 0 {
      UnfoldListing(p, found, ids, news, n - 1);
    }
  }

  lemma NoneListed(p: Proof, found: seq<Listed>, unsupported: set<ClauseID>)
    ensures ListedFrom(p, found, unsupported, unsupported, [])
  {
    UnfoldListing(p, found, {}, [], |p.clauses|);
    assert unsupported - unsupported == {};
  }

  /** Sets listed for other clauses do not matter. */
  lemma NothingListed(p: Proof, found: seq<Listed>, unsupported: set<ClauseID>, rest: set<ClauseID>, news: seq<Listed>,
                      c: ClauseID)
    requires c < |p.clauses| && c in rest && ListedFrom(p, found, unsupported, rest, news)
    requires NothingToList(p, found + news, c)
    ensures NothingToList(p, found, c)
  {
    UnfoldListing(p, found, unsupported - rest, news, |p.clauses|);
    forall k | MinimalCollapse(p, c, k)
      ensures IsListed(found, c, k)
    {
      assert IsListed(found + news, c, k) && Listed(c, k) !in news;
    }
  }

  lemma ListedAll(p: Proof, found: seq<Listed>, unsupported: set<ClauseID>, news: seq<Listed>)
    requires ListedFrom(p, found, unsupported, {}, news)
    ensures Listing(p, found, unsupported, news)
    ensures forall c | c in unsupported && c < |p.clauses| :: !NothingToList(p, found, c)
  {
    assert unsupported - {} == unsupported;
    UnfoldListing(p, found, unsupported, news, |p.clauses|);
    forall c | c in unsupported && c < |p.clauses|
      ensures !NothingToList(p, found, c)
    {
      var l :| l in news && l.id == c;
      assert NextListed(p, found, l);
    }
  }

  /** Refinement leaves fewer sets to list and no more seeds. */
  lemma RefinedFewer(p: Proof, found: seq<Listed>, clauses: seq<SeedClause>, unsupported: set<ClauseID>,
                     rest: set<ClauseID>, news: seq<Listed>)
    requires ListedFrom(p, found, unsupported, rest, news)
    ensures |Unlisted(p, found + news)| <= |Unlisted(p, found)|
    ensures !(unsupported <= rest) ==> |Unlisted(p, found + news)| < |Unlisted(p, found)|
    ensures |Seeds(p.All(), clauses + CollapseClauses(news))| <= |Seeds(p.All(), clauses)|
  {
    UnfoldListing(p, found, unsupported - rest, news, |p.clauses|);
    UnlistedFewer(p, found, unsupported - rest, news);
    SeedsFewer(p.All(), clauses, CollapseClauses(news));
    if !(unsupported <= rest) {
      var c :| c in unsupported && c !in rest;
      assert c in unsupported - rest;
    }
  }

  lemma UnlistedFewer(p: Proof, found: seq<Listed>, ids: set<ClauseID>, news: seq<Listed>)
    requires Listing(p, found, ids, news)
    ensures |Unlisted(p, found + news)| <= |Unlisted(p, found)|
    ensures ids != {} ==> |Unlisted(p, found + news)| < |Unlisted(p, found)|
  {
    var less, all := Unlisted(p, found + news), Unlisted(p, found);
    forall c, k: set<ClauseID> | (c, k) in less
      ensures (c, k) in all
    {
      assert !IsListed(found + news, c, k);
      assert !IsListed(found, c, k);
    }
    SubsetSize(less, all);
    if ids != {} {
      var c :| c in ids;
      var l :| l in news && l.id == c;
      assert NextListed(p, found, l) && IsListed(found + news, l.id, l.collapse);
      StrictlySmaller(less, all, (l.id, l.collapse));
    }
  }

  lemma SeedsFewer(all: set<ClauseID>, clauses: seq<SeedClause>, more: seq<SeedClause>)
    ensures |Seeds(all, clauses + more)| <= |Seeds(all, clauses)|
  {
    forall s | s in Seeds(all, clauses + more)
      ensures s in Seeds(all, clauses)
    {
      assert forall cls | cls in clauses :: cls in clauses + more;
    }
    SubsetSize(Seeds(all, clauses + more), Seeds(all, clauses));
  }

  lemma OneMore(p: Proof, found: seq<Listed>, clauses: seq<SeedClause>, unsupported: set<ClauseID>, rest: set<ClauseID>,
                news: seq<Listed>, l: Listed)
    requires rest <= unsupported && l.id in rest && ListedFrom(p, found, unsupported, rest, news)
    requires NextListed(p, found + news, l)
    ensures ListedFrom(p, found, unsupported, rest - {l.id}, news + [l])
    ensures (found + news) + [l] == found + (news + [l])
    ensures (clauses + CollapseClauses(news)) + [CollapseClause(l.id, l.collapse)] == clauses + CollapseClauses(news + [l])
  {
    ListedNext(p, found, unsupported, rest, news, l);
    CollapseClausesMore(news, l);
  }

  lemma ListedNext(p: Proof, found: seq<Listed>, unsupported: set<ClauseID>, rest: set<ClauseID>, news: seq<Listed>,
                   l: Listed)
    requires rest <= unsupported && l.id in rest && ListedFrom(p, found, unsupported, rest, news)
    requires NextListed(p, found + news, l)
    ensures ListedFrom(p, found, unsupported, rest - {l.id}, news + [l])
  {
    var ids := unsupported - rest;
    UnfoldListing(p, found, ids, news, |p.clauses|);
    ListingNext(p, found, ids, news, l);
    assert unsupported - (rest - {l.id}) == ids + {l.id};
    UnfoldListing(p, found, ids + {l.id}, news + [l], |p.clauses|);
  }

  /** What is listed next for another clause could have been listed first. */
  lemma ListedFirst(p: Proof, found: seq<Listed>, ids: set<ClauseID>, news: seq<Listed>, l: Listed)
    requires (forall e | e in news :: e.id in ids) && l.id !in ids && NextListed(p, found + news, l)
    ensures NextListed(p, found, l)
  {
    forall k
      ensures IsListed(found + news, l.id, k) <==> IsListed(found, l.id, k)
    {
      assert Listed(l.id, k) !in news;
    }
  }

  lemma StillCovered(ids: set<ClauseID>, news: seq<Listed>, l: Listed)
    requires forall c | c in ids :: exists e :: e in news && e.id == c
    ensures forall c | c in ids + {l.id} :: exists e :: e in news + [l] && e.id == c
  {
    var more := news + [l];
    forall c | c in ids + {l.id}
      ensures exists e :: e in more && e.id == c
    {
      if c in ids {
        var e :| e in news && e.id == c;
        assert e in more;
      } else {
        assert l in more;
      }
    }
  }

  lemma StillApart(ids: set<ClauseID>, news: seq<Listed>, l: Listed)
    requires (forall e | e in news :: e.id in ids) && l.id !in ids
    requires forall i, j | 0 <= i < j < |news| :: news[i].id != news[j].id
    ensures forall i, j | 0 <= i < j < |news| + 1 :: (news + [l])[i].id != (news + [l])[j].id
  {
    assert forall i | 0 <= i < |news| :: news[i] in news;
  }

  lemma ListingNext(p: Proof, found: seq<Listed>, ids: set<ClauseID>, news: seq<Listed>, l: Listed)
    requires Listing(p, found, ids, news) && l.id !in ids && NextListed(p, found + news, l)
    ensures Listing(p, found, ids + {l.id}, news + [l])
  {
    ListedFirst(p, found, ids, news, l);
    StillCovered(ids, news, l);
    StillApart(ids, news, l);
  }
}
