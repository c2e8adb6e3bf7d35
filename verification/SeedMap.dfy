/** The map of unexplored clause sets (seed solvers of
    src/pme/minimization/marco.cpp and camsis.cpp). */
module SeedMaps {
  import opened Collections
  import opened ProofSets

  /** A clause over selection variables: some clause of pos is selected, or some
      clause of neg is not. */
  datatype SeedClause = SeedClause(pos: set<ClauseID>, neg: set<ClauseID>)

  predicate SatSeed(s: set<ClauseID>, cls: SeedClause) {
    (exists id | id in cls.pos :: id in s) || (exists id | id in cls.neg :: id !in s)
  }

  predicate Unexplored(s: set<ClauseID>, clauses: seq<SeedClause>) {
    forall cls | cls in clauses :: SatSeed(s, cls)
  }

  /** Blocks the set and all its supersets. */
  function UpClause(s: set<ClauseID>): SeedClause {
    SeedClause({}, s)
  }

  /** Blocks the set and all its subsets. */
  function DownClause(all: set<ClauseID>, s: set<ClauseID>): SeedClause {
    SeedClause(all - s, {})
  }

  lemma UpBlocks(s: set<ClauseID>, t: set<ClauseID>)
    ensures SatSeed(t, UpClause(s)) <==> !(s <= t)
  {
  }

  lemma DownBlocks(all: set<ClauseID>, s: set<ClauseID>, t: set<ClauseID>)
    requires t <= all
    ensures SatSeed(t, DownClause(all, s)) <==> !(t <= s)
  {
  }

  lemma UnexploredMore(s: set<ClauseID>, clauses: seq<SeedClause>, cls: SeedClause)
    ensures Unexplored(s, clauses + [cls]) <==> Unexplored(s, clauses) && SatSeed(s, cls)
  {
    assert forall c :: c in clauses + [cls] <==> c in clauses || c == cls;
  }

  ghost function Seeds(all: set<ClauseID>, clauses: seq<SeedClause>): set<set<ClauseID>> {
    set s: set<ClauseID> | s <= all && Unexplored(s, clauses)
  }

  /** A clause that excludes an unexplored set leaves fewer. */
  lemma SeedsShrink(all: set<ClauseID>, clauses: seq<SeedClause>, cls: SeedClause, s: set<ClauseID>)
    requires s <= all && Unexplored(s, clauses) && !SatSeed(s, cls)
    ensures |Seeds(all, clauses + [cls])| < |Seeds(all, clauses)|
  {
    SeedsNotMore(all, clauses, cls);
    UnexploredMore(s, clauses, cls);
    StrictlySmaller(Seeds(all, clauses + [cls]), Seeds(all, clauses), s);
  }

  lemma SeedsNotMore(all: set<ClauseID>, clauses: seq<SeedClause>, cls: SeedClause)
    ensures Seeds(all, clauses + [cls]) <= Seeds(all, clauses)
    ensures |Seeds(all, clauses + [cls])| <= |Seeds(all, clauses)|
  {
    forall t | t in Seeds(all, clauses + [cls])
      ensures t in Seeds(all, clauses)
    {
      UnexploredMore(t, clauses, cls);
    }
    SubsetSize(Seeds(all, clauses + [cls]), Seeds(all, clauses));
  }

  predicate IsMinimum(all: set<ClauseID>, clauses: seq<SeedClause>, s: set<ClauseID>) {
    s <= all && Unexplored(s, clauses) && forall t: set<ClauseID> | t <= all && Unexplored(t, clauses) :: |s| <= |t|
  }

  predicate IsMaximum(all: set<ClauseID>, clauses: seq<SeedClause>, s: set<ClauseID>) {
    s <= all && Unexplored(s, clauses) && forall t: set<ClauseID> | t <= all && Unexplored(t, clauses) :: |t| <= |s|
  }

  predicate Mentions(cls: SeedClause, id: ClauseID) {
    id in cls.pos || id in cls.neg
  }

  /** The clauses that no seed clause mentions. */
  function Unmentioned(all: set<ClauseID>, clauses: seq<SeedClause>): set<ClauseID> {
    set id | id in all && forall cls | cls in clauses :: !Mentions(cls, id)
  }

  lemma SelectUnmentioned(all: set<ClauseID>, clauses: seq<SeedClause>, s: set<ClauseID>)
    requires Unexplored(s, clauses)
    ensures Unexplored(s + Unmentioned(all, clauses), clauses)
  {
    var more := s + Unmentioned(all, clauses);
    forall cls | cls in clauses
      ensures SatSeed(more, cls)
    {
      assert SatSeed(s, cls);
      if id :| id in cls.pos && id in s {
        assert id in more;
      } else {
        var id :| id in cls.neg && id !in s;
        assert Mentions(cls, id);
      }
    }
  }

  // ----- what the map and the record promise each other -----

  /** No unexplored set contains this one. */
  ghost predicate BlockedUp(clauses: seq<SeedClause>, x: set<ClauseID>) {
    forall s | Unexplored(s, clauses) :: !(x <= s)
  }

  /** Every minimal safe set not recorded is unexplored; every recorded one is
      blocked upwards; and the necessary clauses are always selected. */
  ghost predicate MapOk(p: Proof, nec: set<ClauseID>, clauses: seq<SeedClause>, recorded: set<set<ClauseID>>) {
    && p.Valid()
    && (forall x | MinimalSafe(p, x, nec) && x !in recorded :: Unexplored(x, clauses))
    && (forall x | x in recorded :: MinimalSafe(p, x, nec) && BlockedUp(clauses, x))
    && forall id | id in nec :: SeedClause({id}, {}) in clauses
  }

  /** One unit clause for each necessary clause. */
  predicate UnitsOf(nec: set<ClauseID>, clauses: seq<SeedClause>) {
    && (forall id | id in nec :: SeedClause({id}, {}) in clauses)
    && forall cls | cls in clauses :: exists id :: id in nec && cls == SeedClause({id}, {})
  }

  lemma MapStart(p: Proof, nec: set<ClauseID>, clauses: seq<SeedClause>)
    requires p.Valid() && UnitsOf(nec, clauses)
    ensures MapOk(p, nec, clauses, {})
  {
    forall x | MinimalSafe(p, x, nec)
      ensures Unexplored(x, clauses)
    {
      forall cls | cls in clauses
        ensures SatSeed(x, cls)
      {
        var id :| id in nec && cls == SeedClause({id}, {});
        assert id in cls.pos && id in x;
      }
    }
  }

  lemma NecessarySelected(p: Proof, nec: set<ClauseID>, clauses: seq<SeedClause>, recorded: set<set<ClauseID>>, s: set<ClauseID>)
    requires MapOk(p, nec, clauses, recorded) && Unexplored(s, clauses)
    ensures nec <= s
  {
    forall id | id in nec
      ensures id in s
    {
      assert SatSeed(s, SeedClause({id}, {}));
    }
  }

  /** A recorded set is in no unexplored one. */
  lemma RecordedExplored(p: Proof, nec: set<ClauseID>, clauses: seq<SeedClause>, recorded: set<set<ClauseID>>, s: set<ClauseID>,
                         x: set<ClauseID>)
    requires MapOk(p, nec, clauses, recorded) && Unexplored(s, clauses) && x in recorded
    ensures !(x <= s)
  {
    assert BlockedUp(clauses, x);
  }

  /** A minimum unexplored set contains a safe set only if it is itself a
      minimal one that is not yet recorded. */
  lemma MinimumIsMinimal(p: Proof, nec: set<ClauseID>, clauses: seq<SeedClause>, recorded: set<set<ClauseID>>, s: set<ClauseID>,
                         t: set<ClauseID>)
    requires MapOk(p, nec, clauses, recorded) && IsMinimum(p.All(), clauses, s)
    requires t <= s && SafeInductive(p, t, nec)
    ensures t == s && MinimalSafe(p, s, nec) && s !in recorded
  {
    MinimalInside(p, t, nec);
    var x :| x <= t && MinimalSafe(p, x, nec);
    if x in recorded {
      RecordedExplored(p, nec, clauses, recorded, s, x);
    }
    assert Unexplored(x, clauses) && x <= p.All();
    if x != s {
      assert x < s;
      ProperSmaller(x, s);
    }
  }

  lemma ProperSmaller(x: set<ClauseID>, s: set<ClauseID>)
    requires x < s
    ensures |x| < |s|
  {
    var e :| e in s && e !in x;
    StrictlySmaller(x, s, e);
  }

  lemma StillBlocked(clauses: seq<SeedClause>, cls: SeedClause, x: set<ClauseID>)
    requires BlockedUp(clauses, x)
    ensures BlockedUp(clauses + [cls], x)
  {
    forall s | Unexplored(s, clauses + [cls])
      ensures !(x <= s)
    {
      UnexploredMore(s, clauses, cls);
    }
  }

  lemma NowBlocked(clauses: seq<SeedClause>, x: set<ClauseID>, y: set<ClauseID>)
    requires x <= y
    ensures BlockedUp(clauses + [UpClause(x)], y)
  {
    forall s | Unexplored(s, clauses + [UpClause(x)])
      ensures !(y <= s)
    {
      UnexploredMore(s, clauses, UpClause(x));
      UpBlocks(x, s);
    }
  }

  /** Recording a set that together with the necessary clauses is a minimal safe
      one. */
  lemma RecordOk(p: Proof, nec: set<ClauseID>, clauses: seq<SeedClause>, recorded: set<set<ClauseID>>, x: set<ClauseID>)
    requires MapOk(p, nec, clauses, recorded) && MinimalSafe(p, x + nec, nec)
    ensures MapOk(p, nec, clauses + [UpClause(x)], recorded + {x + nec})
  {
    forall y | MinimalSafe(p, y, nec) && y !in recorded + {x + nec}
      ensures Unexplored(y, clauses + [UpClause(x)])
    {
      UpBlocks(x, y);
      UnexploredMore(y, clauses, UpClause(x));
      if x <= y {
        MinimalApart(p, x + nec, y, nec);
      }
    }
    forall y | y in recorded + {x + nec}
      ensures BlockedUp(clauses + [UpClause(x)], y)
    {
      if y in recorded {
        StillBlocked(clauses, UpClause(x), y);
      } else {
        NowBlocked(clauses, x, y);
      }
    }
  }

  /** A clause that every safe inductive set satisfies may be added. */
  lemma RefineOk(p: Proof, nec: set<ClauseID>, clauses: seq<SeedClause>, recorded: set<set<ClauseID>>, cls: SeedClause)
    requires MapOk(p, nec, clauses, recorded)
    requires forall x | SafeInductive(p, x, nec) :: SatSeed(x, cls)
    ensures MapOk(p, nec, clauses + [cls], recorded)
  {
    forall y | MinimalSafe(p, y, nec) && y !in recorded
      ensures Unexplored(y, clauses + [cls])
    {
      UnexploredMore(y, clauses, cls);
    }
    forall y | y in recorded
      ensures BlockedUp(clauses + [cls], y)
    {
      StillBlocked(clauses, cls, y);
    }
  }

  /** Blocking a set with no safe subset downwards. */
  lemma BlockDownOk(p: Proof, nec: set<ClauseID>, clauses: seq<SeedClause>, recorded: set<set<ClauseID>>, s: set<ClauseID>)
    requires MapOk(p, nec, clauses, recorded) && !HasSafe(p, s, nec)
    ensures MapOk(p, nec, clauses + [DownClause(p.All(), s)], recorded)
  {
    forall x | SafeInductive(p, x, nec)
      ensures SatSeed(x, DownClause(p.All(), s))
    {
      DownBlocks(p.All(), s, x);
    }
    RefineOk(p, nec, clauses, recorded, DownClause(p.All(), s));
  }

  /** Once nothing is unexplored, everything is recorded. */
  lemma AllRecorded(p: Proof, nec: set<ClauseID>, clauses: seq<SeedClause>, recorded: set<set<ClauseID>>)
    requires MapOk(p, nec, clauses, recorded)
    requires forall t: set<ClauseID> | t <= p.All() :: !Unexplored(t, clauses)
    ensures forall x :: x in recorded <==> MinimalSafe(p, x, nec)
  {
    forall x | MinimalSafe(p, x, nec)
      ensures x in recorded
    {
      assert x <= p.All();
    }
  }
}
