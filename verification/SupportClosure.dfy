/** How the feasible clauses of SISI come about (src/pme/minimization/sisi.cpp:65-104):
    from the necessary ones, by adding supports of clauses that are not supported
    yet. */
module SupportClosures {
  import opened Cubes
  import opened ProofSets
  import opened MinimalSupports

  /** The feasible clauses, those known to be supported, and where the iteration over
      the feasible ones has got to. */
  datatype Closing = Closing(feas: set<ClauseID>, known: set<ClauseID>, from: ClauseID)

  /** Some support within all, narrowed to s. */
  ghost predicate MaySupport(p: Proof, all: set<ClauseID>, c: ClauseID, s: set<ClauseID>)
    requires c < |p.clauses|
  {
    exists part :: part <= all && Supports(p, part, c) && MayFind(p, c, part, s)
  }

  /** The iteration is at clause c: after an addition it goes on behind the first
      feasible clause. */
  ghost predicate ClosesAt(p: Proof, all: set<ClauseID>, a: Closing, c: ClauseID, b: Closing)
    requires c < |p.clauses|
  {
    if c in a.known then b == a.(from := c + 1)
    else if Supports(p, a.feas, c) then b == Closing(a.feas, a.known + {c}, c + 1)
    else
      && b.known == a.known + {c} && b.from > 0 && IsLeast(b.feas, b.from - 1)
      && exists s :: MaySupport(p, all, c, s) && b.feas == a.feas + s
  }

  /** One turn of the loops. */
  ghost predicate Closes(p: Proof, all: set<ClauseID>, a: Closing, b: Closing) {
    if Ahead(a.feas, a.from) == {} then a.known != a.feas && b == a.(from := 0)
    else exists c: ClauseID :: IsLeast(Ahead(a.feas, a.from), c) && c < |p.clauses| && ClosesAt(p, all, a, c, b)
  }

  ghost predicate ClosesAll(p: Proof, all: set<ClauseID>, path: seq<Closing>) {
    path != [] && forall k | 1 <= k < |path| :: Closes(p, all, path[k - 1], path[k])
  }

  /** refineFEAS can go from the necessary clauses nec to the feasible ones feas. */
  ghost predicate MayClose(p: Proof, all: set<ClauseID>, nec: set<ClauseID>, feas: set<ClauseID>) {
    exists path: seq<Closing> :: ClosesBy(p, all, nec, feas, path)
  }

  ghost predicate ClosesBy(p: Proof, all: set<ClauseID>, nec: set<ClauseID>, feas: set<ClauseID>, path: seq<Closing>) {
    && ClosesAll(p, all, path) && path[0] == Closing(nec, {}, 0)
    && path[|path| - 1].feas == feas && path[|path| - 1].known == feas
  }

  lemma ClosesBack(p: Proof, all: set<ClauseID>, a: Closing, c: ClauseID, b: Closing)
    requires IsLeast(Ahead(a.feas, a.from), c) && c < |p.clauses| && ClosesAt(p, all, a, c, b)
    ensures Closes(p, all, a, b)
  {
  }

  lemma ClosesOn(p: Proof, all: set<ClauseID>, path: seq<Closing>, a: Closing, c: ClauseID, b: Closing)
    requires ClosesAll(p, all, path) && path[|path| - 1] == a
    requires IsLeast(Ahead(a.feas, a.from), c) && c < |p.clauses| && ClosesAt(p, all, a, c, b)
    ensures ClosesAll(p, all, path + [b]) && (path + [b])[0] == path[0]
  {
    ClosesBack(p, all, a, c, b);
    ClosesMore(p, all, path, b);
  }

  /** Behind its least element the rest of the iteration is shorter. */
  lemma PassedBy(feas: set<ClauseID>, from: ClauseID, c: ClauseID)
    requires IsLeast(Ahead(feas, from), c)
    ensures c in feas && Ahead(feas, c + 1) < Ahead(feas, from)
    ensures forall x | x in feas && from <= x < c + 1 :: x == c
  {
    assert c in Ahead(feas, from) && c !in Ahead(feas, c + 1);
    forall x | x in feas && from <= x < c + 1
      ensures x == c
    {
      assert x in Ahead(feas, from);
    }
  }

  lemma ClosesMore(p: Proof, all: set<ClauseID>, path: seq<Closing>, b: Closing)
    requires ClosesAll(p, all, path) && Closes(p, all, path[|path| - 1], b)
    ensures ClosesAll(p, all, path + [b])
  {
    var more := path + [b];
    forall k | 1 <= k < |more|
      ensures Closes(p, all, more[k - 1], more[k])
    {
      assert more[k - 1] == path[k - 1];
      assert k < |path| ==> more[k] == path[k];
    }
  }

  // ----- what may join -----

  /** A clause joins only as part of a support of a clause that the set did not
      support. */
  ghost predicate Grows(p: Proof, all: set<ClauseID>, feas: set<ClauseID>, more: set<ClauseID>) {
    exists c, s :: c in feas && c < |p.clauses| && !Supports(p, feas, c) && MaySupport(p, all, c, s) && more == feas + s
  }

  lemma ClosesGrows(p: Proof, all: set<ClauseID>, a: Closing, b: Closing)
    requires Closes(p, all, a, b)
    ensures b.feas == a.feas || Grows(p, all, a.feas, b.feas)
  {
    if Ahead(a.feas, a.from) != {} {
      var c: ClauseID :| IsLeast(Ahead(a.feas, a.from), c) && c < |p.clauses| && ClosesAt(p, all, a, c, b);
      assert c in a.feas;
    }
  }

  /** Every clause that is feasible in the end, and was not necessary, joined so. */
  lemma {:induction false} JoinedSo(p: Proof, all: set<ClauseID>, path: seq<Closing>, k: nat, d: ClauseID)
    requires ClosesAll(p, all, path) && k < |path| && d in path[k].feas && d !in path[0].feas
    ensures exists j :: 0 <= j < k && d !in path[j].feas && d in path[j + 1].feas
                        && Grows(p, all, path[j].feas, path[j + 1].feas)
  {
    if d in path[k - 1].feas {
      JoinedSo(p, all, path, k - 1, d);
    } else {
      var j := k - 1;
      assert Closes(p, all, path[j], path[j + 1]);
      ClosesGrows(p, all, path[j], path[j + 1]);
    }
  }

  /** Nothing joins necessary clauses that are inductive already. */
  lemma {:induction false} InductiveStays(p: Proof, all: set<ClauseID>, path: seq<Closing>, k: nat)
    requires ClosesAll(p, all, path) && k < |path| && Inductive(p, path[0].feas)
    ensures path[k].feas == path[0].feas
  {
    if k > 0 {
      InductiveStays(p, all, path, k - 1);
      assert Closes(p, all, path[k - 1], path[k]);
      ClosesGrows(p, all, path[k - 1], path[k]);
    }
  }

  lemma ClosedAlready(p: Proof, all: set<ClauseID>, nec: set<ClauseID>, feas: set<ClauseID>)
    requires MayClose(p, all, nec, feas) && Inductive(p, nec)
    ensures feas == nec
  {
    var path :| ClosesBy(p, all, nec, feas, path);
    InductiveStays(p, all, path, |path| - 1);
  }
}
