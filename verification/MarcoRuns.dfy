/** The runs of MARCO's loop: what they record, and which options keep its
    assertions (src/pme/minimization/marco.cpp:112-222, 300-403, 453-536). */
module MarcoRuns {
  import opened Ids
  import opened ProofSets
  import opened PropertyCopies
  import opened SeedMaps
  import opened CollapseSets
  import opened CollapseListings
  import opened CamsisMinimizers

  datatype Options = Options(up: bool, down: bool, mcs: bool, collapse: bool)

  /** isNextSeedMinimum and isNextSeedMaximum */
  predicate TakesMinimum(o: Options, count: nat) {
    o.up && (o.down ==> count % 2 == 1)
  }

  predicate TakesMaximum(o: Options, count: nat) {
    o.down && (o.up ==> count % 2 == 0)
  }

  // ----- what the parts of the loop compute -----

  /** grow, from clause id on */
  ghost function Grown(p: Proof, s: set<ClauseID>, id: ClauseID): set<ClauseID>
    decreases |p.clauses| - id
  {
    if id >= |p.clauses| then s
    else if HasSafe(p, s + {id}, {p.property}) then Grown(p, s, id + 1)
    else Grown(p, s + {id}, id + 1)
  }

  // ----- steps of the loop -----

  /** What the loop has between two seeds. */
  datatype Loop = Loop(clauses: seq<SeedClause>, proofs: seq<set<ClauseID>>, found: seq<Listed>, count: nat)

  /** initSolvers: one unit clause for each copy of the property among the first n
      clauses. */
  function Units(p: Proof, n: nat): seq<SeedClause>
    requires n <= |p.clauses|
  {
    if n == 0 then []
    else Units(p, n - 1) + (if p.clauses[n - 1] == [Negate(p.tr.bad)] then [SeedClause({n - 1}, {})] else [])
  }

  lemma {:induction false} UnitsAre(p: Proof, n: nat)
    requires n <= |p.clauses|
    ensures forall id | id in Copies(p) && id < n :: SeedClause({id}, {}) in Units(p, n)
    ensures forall cls | cls in Units(p, n) :: exists id :: id in Copies(p) && id < n && cls == SeedClause({id}, {})
  {
    if n > 0 {
      UnitsAre(p, n - 1);
      var last := if p.clauses[n - 1] == [Negate(p.tr.bad)] then [SeedClause({n - 1}, {})] else [];
      assert forall cls :: cls in Units(p, n) <==> cls in Units(p, n - 1) || cls in last;
      assert last != [] <==> n - 1 in Copies(p);
    }
  }

  lemma AllUnits(p: Proof)
    ensures UnitsOf(Copies(p), Units(p, |p.clauses|))
  {
    UnitsAre(p, |p.clauses|);
  }

  function Start(p: Proof): Loop {
    Loop(Units(p, |p.clauses|), [], [], 0)
  }

  /** The seed solver may answer with the seed. Without a direction, a clause
      that no seed clause mentions is always selected. */
  ghost predicate Picked(p: Proof, o: Options, l: Loop, seed: set<ClauseID>) {
    && seed <= p.All() && Unexplored(seed, l.clauses)
    && (TakesMinimum(o, l.count) ==> IsMinimum(p.All(), l.clauses, seed))
    && (TakesMaximum(o, l.count) ==> IsMaximum(p.All(), l.clauses, seed))
    && (!TakesMinimum(o, l.count) && !TakesMaximum(o, l.count) ==> Unmentioned(p.All(), l.clauses) <= seed)
  }

  ghost predicate FoundSis(p: Proof, o: Options, l: Loop, seed: set<ClauseID>) {
    if TakesMinimum(o, l.count) then SafeInductive(p, seed, {p.property}) else HasSafe(p, seed, {p.property})
  }

  ghost function ProofIn(p: Proof, o: Options, l: Loop, seed: set<ClauseID>): set<ClauseID>
    requires seed <= p.All()
  {
    if TakesMinimum(o, l.count) then seed else Shrunk(p, Greatest(p, seed), 0)
  }

  /** The set that is blocked downwards. */
  ghost function Mss(p: Proof, o: Options, l: Loop, seed: set<ClauseID>): set<ClauseID> {
    if o.mcs && !TakesMaximum(o, l.count) then Grown(p, seed, 0) else seed
  }

  /** The clauses that collapseRefine is called with. */
  ghost function Refuted(p: Proof, o: Options, l: Loop, seed: set<ClauseID>): set<ClauseID> {
    UnsupportedIn(p, if TakesMinimum(o, l.count) then seed else Mss(p, o, l, seed))
  }

  /** An assertion fails: there is no unsupported clause, or one of them has no
      collapse set left. */
  ghost predicate Fails(p: Proof, o: Options, l: Loop, seed: set<ClauseID>) {
    && o.collapse && !FoundSis(p, o, l, seed)
    && (Refuted(p, o, l, seed) == {}
        || exists c :: c in Refuted(p, o, l, seed) && c < |p.clauses| && NothingToList(p, l.found, c))
  }

  function WithClauses(p: Proof, o: Options, l: Loop, mss: set<ClauseID>, news: seq<Listed>): Loop {
    Loop(l.clauses + (if o.mcs then [DownClause(p.All(), mss)] else []) + CollapseClauses(news), l.proofs,
         l.found + news, l.count + 1)
  }

  function WithMinimal(l: Loop, mis: set<ClauseID>): Loop {
    Loop(l.clauses + [UpClause(mis)], l.proofs + [mis], l.found, l.count + 1)
  }

  ghost predicate Confirms(p: Proof, o: Options, l: Loop, seed: set<ClauseID>, m: Loop) {
    Picked(p, o, l, seed) && FoundSis(p, o, l, seed) && m == WithMinimal(l, ProofIn(p, o, l, seed))
  }

  ghost predicate Refutes(p: Proof, o: Options, l: Loop, seed: set<ClauseID>, news: seq<Listed>, m: Loop) {
    && Picked(p, o, l, seed) && !FoundSis(p, o, l, seed)
    && (if o.collapse then Listing(p, l.found, Refuted(p, o, l, seed), news) else news == [])
    && m == WithClauses(p, o, l, Mss(p, o, l, seed), news)
  }

  ghost predicate Next(p: Proof, o: Options, l: Loop, m: Loop) {
    (exists seed :: Confirms(p, o, l, seed, m)) || (exists seed, news :: Refutes(p, o, l, seed, news, m))
  }

  /** The same, kept folded: the argument n does not matter. */
  ghost predicate FoldedNext(p: Proof, o: Options, l: Loop, m: Loop, n: nat)
    decreases n
  {
    if n == 0 then Next(p, o, l, m) else FoldedNext(p, o, l, m, n - 1)
  }

  ghost predicate Goes(p: Proof, o: Options, l: Loop, m: Loop) {
    FoldedNext(p, o, l, m, |p.clauses|)
  }

  lemma {:induction false} UnfoldNext(p: Proof, o: Options, l: Loop, m: Loop, n: nat)
    ensures FoldedNext(p, o, l, m, n) <==> Next(p, o, l, m)
    decreases n
  {
    if n > 0 {
      UnfoldNext(p, o, l, m, n - 1);
    }
  }

  lemma GoesIs(p: Proof, o: Options, l: Loop, m: Loop)
    ensures Goes(p, o, l, m) <==> Next(p, o, l, m)
  {
    UnfoldNext(p, o, l, m, |p.clauses|);
  }

  ghost predicate Run(p: Proof, o: Options, run: seq<Loop>) {
    |run| > 0 && forall k | 1 <= k < |run| :: Goes(p, o, run[k - 1], run[k])
  }

  lemma RunNext(p: Proof, o: Options, run: seq<Loop>, m: Loop)
    requires Run(p, o, run) && Goes(p, o, run[|run| - 1], m)
    ensures Run(p, o, run + [m])
  {
    var more := run + [m];
    forall k | 1 <= k < |more|
      ensures Goes(p, o, more[k - 1], more[k])
    {
      if k < |run| {
        assert more[k - 1] == run[k - 1] && more[k] == run[k];
      } else {
        assert more[k - 1] == run[|run| - 1] && more[k] == m;
      }
    }
  }

  /** Some answer of the seed solver makes an assertion fail. */
  ghost predicate Stuck(p: Proof, o: Options, l: Loop) {
    exists seed :: Picked(p, o, l, seed) && Fails(p, o, l, seed)
  }

  /** No assertion fails in any run on any inductive proof. */
  ghost predicate NeverFails(o: Options) {
    forall p: Proof, run: seq<Loop> | p.Valid() && Inductive(p, p.All()) && Run(p, o, run) && run[0] == Start(p) ::
      !Stuck(p, o, run[|run| - 1])
  }

  // ----- shrink and grow -----

  lemma {:induction false} ShrunkMinimal(p: Proof, s: set<ClauseID>, id: ClauseID)
    requires SafeInductive(p, s, {p.property})
    requires forall c | c in s && c < id && c != p.property :: !HasSafe(p, s - {c}, {p.property})
    ensures Shrunk(p, s, id) <= s && MinimalSafe(p, Shrunk(p, s, id), {p.property})
    decreases |p.clauses| - id
  {
    if id >= |p.clauses| {
      MinimalByDeletion(p, s, {p.property});
    } else if id in s && id != p.property && HasSafe(p, s - {id}, {p.property}) {
      var t := Greatest(p, s - {id});
      GreatestDecides(p, t, s - {id}, {p.property});
      forall c | c in t && c < id + 1 && c != p.property
        ensures !HasSafe(p, t - {c}, {p.property})
      {
        if HasSafe(p, t - {c}, {p.property}) {
          HasSafeMore(p, t - {c}, s - {c}, {p.property});
        }
      }
      ShrunkMinimal(p, t, id + 1);
    } else {
      ShrunkMinimal(p, s, id + 1);
    }
  }

  lemma {:induction false} GrownMaximal(p: Proof, s: set<ClauseID>, id: ClauseID)
    requires s <= p.All() && !HasSafe(p, s, {p.property})
    ensures s <= Grown(p, s, id) <= p.All() && !HasSafe(p, Grown(p, s, id), {p.property})
    ensures forall d: ClauseID | id <= d < |p.clauses| && d !in Grown(p, s, id) ::
      HasSafe(p, Grown(p, s, id) + {d}, {p.property})
    decreases |p.clauses| - id
  {
    if id < |p.clauses| {
      if HasSafe(p, s + {id}, {p.property}) {
        GrownMaximal(p, s, id + 1);
        HasSafeMore(p, s + {id}, Grown(p, s, id) + {id}, {p.property});
      } else {
        GrownMaximal(p, s + {id}, id + 1);
      }
    }
  }

  // ----- what every step keeps -----

  /** The recorded sets with all copies of the property. */
  function Lifted(p: Proof, proofs: seq<set<ClauseID>>): set<set<ClauseID>> {
    set x | x in proofs :: x + Copies(p)
  }

  lemma LiftedNext(p: Proof, proofs: seq<set<ClauseID>>, x: set<ClauseID>)
    ensures Lifted(p, proofs + [x]) == Lifted(p, proofs) + {x + Copies(p)}
  {
    forall z
      ensures z in Lifted(p, proofs + [x]) <==> z in Lifted(p, proofs) || z == x + Copies(p)
    {
      assert forall y :: y in proofs + [x] <==> y in proofs || y == x;
    }
  }

  /** Even with the copies added, no set is recorded twice. */
  ghost predicate Apart(p: Proof, proofs: seq<set<ClauseID>>) {
    forall i, j | 0 <= i < j < |proofs| :: proofs[i] + Copies(p) != proofs[j] + Copies(p)
  }

  lemma ApartNext(p: Proof, proofs: seq<set<ClauseID>>, x: set<ClauseID>)
    requires Apart(p, proofs) && x + Copies(p) !in Lifted(p, proofs)
    ensures Apart(p, proofs + [x])
  {
    forall i | 0 <= i < |proofs|
      ensures proofs[i] + Copies(p) != x + Copies(p)
    {
      assert proofs[i] in proofs;
    }
  }

  ghost predicate LoopOk(p: Proof, l: Loop) {
    Refined(l.found, l.clauses) && MapOk(p, Copies(p), l.clauses, Lifted(p, l.proofs)) && Apart(p, l.proofs)
  }

  lemma StartOk(p: Proof)
    requires p.Valid()
    ensures LoopOk(p, Start(p))
  {
    AllUnits(p);
    MapStart(p, Copies(p), Start(p).clauses);
    assert Lifted(p, []) == {};
  }

  /** What is recorded for a minimum seed has all the copies; for another seed it is
      a minimal safe inductive subset. */
  ghost predicate KindOk(p: Proof, minimum: bool, x: set<ClauseID>) {
    if minimum then MinimalSafe(p, x, Copies(p)) else MinimalSafe(p, x, {p.property})
  }

  lemma KindLifted(p: Proof, minimum: bool, x: set<ClauseID>)
    requires p.Valid() && KindOk(p, minimum, x)
    ensures MinimalSafe(p, x + Copies(p), Copies(p)) && p.property in x
  {
    PropertyIsCopy(p);
    if minimum {
      assert x + Copies(p) == x;
    } else {
      MinimalWithCopies(p, x);
    }
  }

  /** Recording a set of one of the two kinds. */
  lemma ProofMapped(p: Proof, clauses: seq<SeedClause>, proofs: seq<set<ClauseID>>, minimum: bool, x: set<ClauseID>,
                    seed: set<ClauseID>)
    requires MapOk(p, Copies(p), clauses, Lifted(p, proofs)) && Apart(p, proofs) && KindOk(p, minimum, x)
    requires x <= seed <= p.All() && Unexplored(seed, clauses)
    ensures MapOk(p, Copies(p), clauses + [UpClause(x)], Lifted(p, proofs + [x])) && Apart(p, proofs + [x])
    ensures x !in proofs && |Seeds(p.All(), clauses + [UpClause(x)])| < |Seeds(p.All(), clauses)|
  {
    NecessarySelected(p, Copies(p), clauses, Lifted(p, proofs), seed);
    KindLifted(p, minimum, x);
    if x + Copies(p) in Lifted(p, proofs) {
      RecordedExplored(p, Copies(p), clauses, Lifted(p, proofs), seed, x + Copies(p));
    }
    RecordOk(p, Copies(p), clauses, Lifted(p, proofs), x);
    LiftedNext(p, proofs, x);
    ApartNext(p, proofs, x);
    UpBlocks(x, seed);
    SeedsShrink(p.All(), clauses, UpClause(x), seed);
  }

  /** A set with no safe subset may be blocked downwards. */
  lemma BlockedMapped(p: Proof, clauses: seq<SeedClause>, recorded: set<set<ClauseID>>, mss: set<ClauseID>)
    requires MapOk(p, Copies(p), clauses, recorded) && !HasSafe(p, mss, {p.property})
    ensures MapOk(p, Copies(p), clauses + [DownClause(p.All(), mss)], recorded)
  {
    NoSafeWithCopies(p, mss);
    BlockDownOk(p, Copies(p), clauses, recorded, mss);
  }

  lemma CollapseMapped(p: Proof, clauses: seq<SeedClause>, recorded: set<set<ClauseID>>, c: ClauseID, k: set<ClauseID>)
    requires MapOk(p, Copies(p), clauses, recorded) && c < |p.clauses| && MinimalCollapse(p, c, k)
    ensures MapOk(p, Copies(p), clauses + [CollapseClause(c, k)], recorded)
  {
    forall x | SafeInductive(p, x, Copies(p))
      ensures SatSeed(x, CollapseClause(c, k))
    {
      CollapseClauseHolds(p, c, k, x, Copies(p));
    }
    RefineOk(p, Copies(p), clauses, recorded, CollapseClause(c, k));
  }

  lemma {:induction false} ListingMapped(p: Proof, clauses: seq<SeedClause>, recorded: set<set<ClauseID>>, news: seq<Listed>)
    requires MapOk(p, Copies(p), clauses, recorded)
    requires forall e | e in news :: e.id < |p.clauses| && MinimalCollapse(p, e.id, e.collapse)
    ensures MapOk(p, Copies(p), clauses + CollapseClauses(news), recorded)
  {
    if news == [] {
      assert clauses + CollapseClauses(news) == clauses;
    } else {
      var less, e := news[..|news| - 1], news[|news| - 1];
      ListingMapped(p, clauses, recorded, less);
      CollapseMapped(p, clauses + CollapseClauses(less), recorded, e.id, e.collapse);
      assert clauses + CollapseClauses(news) == (clauses + CollapseClauses(less)) + [CollapseClause(e.id, e.collapse)];
    }
  }

  /** An unexplored seed: a minimum that is inductive is minimal with all copies,
      and one that is not has no safe subset. */
  lemma SeedKinds(p: Proof, l: Loop, seed: set<ClauseID>, minimum: bool)
    requires LoopOk(p, l) && seed <= p.All() && Unexplored(seed, l.clauses)
    requires minimum ==> IsMinimum(p.All(), l.clauses, seed)
    ensures p.property in seed && Copies(p) <= seed
    ensures minimum && Inductive(p, seed) ==> MinimalSafe(p, seed, Copies(p))
    ensures minimum && !Inductive(p, seed) ==> !HasSafe(p, seed, {p.property})
  {
    PropertyIsCopy(p);
    NecessarySelected(p, Copies(p), l.clauses, Lifted(p, l.proofs), seed);
    SafeWithCopies(p, seed);
    if minimum {
      forall t | t <= seed && SafeInductive(p, t, Copies(p))
        ensures t == seed && MinimalSafe(p, seed, Copies(p))
      {
        MinimumIsMinimal(p, Copies(p), l.clauses, Lifted(p, l.proofs), seed, t);
      }
    }
  }

  lemma ConfirmedKind(p: Proof, o: Options, l: Loop, seed: set<ClauseID>)
    requires LoopOk(p, l) && Picked(p, o, l, seed) && FoundSis(p, o, l, seed)
    ensures ProofIn(p, o, l, seed) <= seed && KindOk(p, TakesMinimum(o, l.count), ProofIn(p, o, l, seed))
  {
    SeedKinds(p, l, seed, TakesMinimum(o, l.count));
    if !TakesMinimum(o, l.count) {
      GreatestDecides(p, Greatest(p, seed), seed, {p.property});
      ShrunkMinimal(p, Greatest(p, seed), 0);
    }
  }

  lemma RefutedUnsafe(p: Proof, o: Options, l: Loop, seed: set<ClauseID>)
    requires LoopOk(p, l) && Picked(p, o, l, seed) && !FoundSis(p, o, l, seed)
    ensures !HasSafe(p, seed, {p.property})
    ensures seed <= Mss(p, o, l, seed) <= p.All() && !HasSafe(p, Mss(p, o, l, seed), {p.property})
  {
    SeedKinds(p, l, seed, TakesMinimum(o, l.count));
    GrownMaximal(p, seed, 0);
  }

  lemma ConfirmOk(p: Proof, o: Options, l: Loop, seed: set<ClauseID>, m: Loop)
    requires LoopOk(p, l) && Confirms(p, o, l, seed, m)
    ensures LoopOk(p, m)
  {
    ConfirmedKind(p, o, l, seed);
    ProofMapped(p, l.clauses, l.proofs, TakesMinimum(o, l.count), ProofIn(p, o, l, seed), seed);
  }

  lemma RefuteOk(p: Proof, o: Options, l: Loop, seed: set<ClauseID>, news: seq<Listed>, m: Loop)
    requires LoopOk(p, l) && Refutes(p, o, l, seed, news, m)
    ensures LoopOk(p, m)
  {
    var mss := Mss(p, o, l, seed);
    RefutedUnsafe(p, o, l, seed);
    BlockedMapped(p, l.clauses, Lifted(p, l.proofs), mss);
    var blocked := l.clauses + (if o.mcs then [DownClause(p.All(), mss)] else []);
    assert !o.mcs ==> blocked == l.clauses;
    forall e | e in news
      ensures e.id < |p.clauses| && MinimalCollapse(p, e.id, e.collapse)
    {
      assert NextListed(p, l.found, e);
    }
    ListingMapped(p, blocked, Lifted(p, l.proofs), news);
    RefutedRefined(l.found, blocked, news);
  }

  lemma RefutedRefined(found: seq<Listed>, clauses: seq<SeedClause>, news: seq<Listed>)
    requires Refined(found, clauses)
    ensures Refined(found + news, clauses + CollapseClauses(news))
  {
    forall e | e in found + news
      ensures CollapseClause(e.id, e.collapse) in clauses + CollapseClauses(news)
    {
      if e in news {
        CollapseClauseIn(news, e);
      }
    }
  }

  /** The new state's record: nothing new, or one set of the right kind. */
  ghost predicate Records(p: Proof, o: Options, l: Loop, m: Loop) {
    m.proofs == l.proofs || exists x :: m.proofs == l.proofs + [x] && KindOk(p, TakesMinimum(o, l.count), x)
  }

  lemma NextOk(p: Proof, o: Options, l: Loop, m: Loop)
    requires LoopOk(p, l) && Next(p, o, l, m)
    ensures LoopOk(p, m) && Records(p, o, l, m)
  {
    if seed :| Confirms(p, o, l, seed, m) {
      ConfirmedKind(p, o, l, seed);
      ConfirmOk(p, o, l, seed, m);
    } else {
      var seed, news :| Refutes(p, o, l, seed, news, m);
      RefuteOk(p, o, l, seed, news, m);
    }
  }

  lemma {:induction false} RunOk(p: Proof, o: Options, run: seq<Loop>, k: nat)
    requires p.Valid() && Run(p, o, run) && run[0] == Start(p) && k < |run|
    ensures LoopOk(p, run[k])
    ensures k > 0 ==> Records(p, o, run[k - 1], run[k])
  {
    if k == 0 {
      StartOk(p);
    } else {
      RunOk(p, o, run, k - 1);
      GoesIs(p, o, run[k - 1], run[k]);
      NextOk(p, o, run[k - 1], run[k]);
    }
  }

  // ----- what a run records -----

  ghost predicate AllMinimal(p: Proof, proofs: seq<set<ClauseID>>) {
    forall x | x in proofs :: MinimalSafe(p, x, {p.property})
  }

  /** Some set was recorded for a minimum seed, in the first n steps. */
  ghost predicate MinimumRecorded(o: Options, run: seq<Loop>, n: nat) {
    exists k :: 0 < k < n && k < |run| && TakesMinimum(o, run[k - 1].count) && run[k].proofs != run[k - 1].proofs
  }

  lemma {:induction false} RunRecords(p: Proof, o: Options, run: seq<Loop>, n: nat)
    requires p.Valid() && Run(p, o, run) && run[0] == Start(p) && 0 < n <= |run|
    ensures !MinimumRecorded(o, run, n) ==> AllMinimal(p, run[n - 1].proofs)
    ensures MinimumRecorded(o, run, n) ==> exists x :: x in run[n - 1].proofs && MinimalSafe(p, x, Copies(p))
    ensures o.up && !o.down ==> run[n - 1].proofs == [] || MinimumRecorded(o, run, n)
  {
    if n > 1 {
      RunRecords(p, o, run, n - 1);
      RunOk(p, o, run, n - 1);
      StepRecords(p, o, run, n, run[n - 2], run[n - 1]);
    }
  }

  lemma StepRecords(p: Proof, o: Options, run: seq<Loop>, n: nat, l: Loop, m: Loop)
    requires 1 < n <= |run| && l == run[n - 2] && m == run[n - 1] && Records(p, o, l, m)
    ensures MinimumRecorded(o, run, n) <==>
      MinimumRecorded(o, run, n - 1) || (TakesMinimum(o, l.count) && m.proofs != l.proofs)
    ensures forall x | x in l.proofs :: x in m.proofs
    ensures forall x | x in m.proofs :: x in l.proofs || KindOk(p, TakesMinimum(o, l.count), x)
    ensures m.proofs != l.proofs ==> exists x :: x in m.proofs && KindOk(p, TakesMinimum(o, l.count), x)
  {
    if m.proofs != l.proofs {
      var x :| m.proofs == l.proofs + [x] && KindOk(p, TakesMinimum(o, l.count), x);
      assert x in m.proofs;
    }
  }

  ghost predicate Exhausted(p: Proof, l: Loop) {
    forall t: set<ClauseID> | t <= p.All() :: !Unexplored(t, l.clauses)
  }

  /** The recorded sets are the minimal safe inductive subsets. */
  ghost predicate RecordsMinimal(p: Proof, proofs: seq<set<ClauseID>>) {
    forall x :: x in proofs <==> MinimalSafe(p, x, {p.property})
  }

  /** Each minimal safe inductive subset is recorded, itself or with all copies of
      the property, and nothing else is. */
  ghost predicate RecordsLifted(p: Proof, proofs: seq<set<ClauseID>>) {
    && (forall x | MinimalSafe(p, x, {p.property}) :: x in proofs || x + Copies(p) in proofs)
    && forall x | x in proofs :: MinimalSafe(p, Core(p, x), {p.property}) && (x == Core(p, x) || x == Core(p, x) + Copies(p))
  }

  lemma LiftedRecorded(p: Proof, l: Loop)
    requires LoopOk(p, l) && Exhausted(p, l)
    ensures forall x | MinimalSafe(p, x, {p.property}) :: exists r :: r in l.proofs && r + Copies(p) == x + Copies(p)
  {
    AllRecorded(p, Copies(p), l.clauses, Lifted(p, l.proofs));
    forall x | MinimalSafe(p, x, {p.property})
      ensures exists r :: r in l.proofs && r + Copies(p) == x + Copies(p)
    {
      MinimalWithCopies(p, x);
      assert x + Copies(p) in Lifted(p, l.proofs);
    }
  }

  /** Two minimal sets that agree with the copies added are the same. */
  lemma SameLifted(p: Proof, x: set<ClauseID>, y: set<ClauseID>)
    requires p.Valid() && MinimalSafe(p, x, {p.property}) && MinimalSafe(p, y, {p.property})
    requires x + Copies(p) == y + Copies(p)
    ensures x == y
  {
    MinimalHasOne(p, x);
    MinimalHasOne(p, y);
    assert x - Copies(p) == (x + Copies(p)) - Copies(p);
    assert y - Copies(p) == (y + Copies(p)) - Copies(p);
  }

  lemma ExactWithout(p: Proof, l: Loop)
    requires LoopOk(p, l) && Exhausted(p, l) && AllMinimal(p, l.proofs)
    ensures RecordsMinimal(p, l.proofs)
  {
    LiftedRecorded(p, l);
    forall x | MinimalSafe(p, x, {p.property})
      ensures x in l.proofs
    {
      var r :| r in l.proofs && r + Copies(p) == x + Copies(p);
      SameLifted(p, r, x);
    }
  }

  /** A run that ends records exactly the minimal safe inductive subsets, each of
      them once, if and only if the property occurs once or no set was recorded for a
      minimum seed. */
  lemma RecordedExactly(p: Proof, o: Options, run: seq<Loop>)
    requires p.Valid() && Inductive(p, p.All()) && Run(p, o, run) && run[0] == Start(p)
    requires Exhausted(p, run[|run| - 1])
    ensures Apart(p, run[|run| - 1].proofs) && RecordsLifted(p, run[|run| - 1].proofs)
    ensures RecordsMinimal(p, run[|run| - 1].proofs) <==> OccursOnce(p) || !MinimumRecorded(o, run, |run|)
    ensures o.up && !o.down ==> MinimumRecorded(o, run, |run|)
    ensures !o.up ==> !MinimumRecorded(o, run, |run|)
  {
    var n := |run|;
    var l := run[n - 1];
    RunOk(p, o, run, n - 1);
    RunRecords(p, o, run, n);
    RunKinds(p, o, run, n);
    KindsLifted(p, l);
    SomethingRecorded(p, l);
    KindsDecide(p, l, MinimumRecorded(o, run, n));
  }

  /** Either all recorded sets are minimal, or one is minimal with all copies. */
  lemma KindsDecide(p: Proof, l: Loop, some: bool)
    requires LoopOk(p, l) && Exhausted(p, l)
    requires if some then exists x :: x in l.proofs && MinimalSafe(p, x, Copies(p)) else AllMinimal(p, l.proofs)
    requires AllKinds(p, l.proofs)
    ensures RecordsMinimal(p, l.proofs) <==> OccursOnce(p) || !some
  {
    if !some || OccursOnce(p) {
      ExactWithout(p, l);
    } else {
      var z :| z in l.proofs && MinimalSafe(p, z, Copies(p));
      CopiesNotMinimal(p, z);
    }
  }

  lemma SomethingRecorded(p: Proof, l: Loop)
    requires LoopOk(p, l) && Exhausted(p, l) && Inductive(p, p.All())
    ensures l.proofs != []
  {
    MinimalInside(p, p.All(), {p.property});
    var x :| x <= p.All() && MinimalSafe(p, x, {p.property});
    LiftedRecorded(p, l);
  }

  /** Every recorded set is of one of the two kinds. */
  ghost predicate AllKinds(p: Proof, proofs: seq<set<ClauseID>>) {
    forall x | x in proofs :: KindOk(p, true, x) || KindOk(p, false, x)
  }

  lemma {:induction false} RunKinds(p: Proof, o: Options, run: seq<Loop>, n: nat)
    requires p.Valid() && Run(p, o, run) && run[0] == Start(p) && 0 < n <= |run|
    ensures AllKinds(p, run[n - 1].proofs)
  {
    if n > 1 {
      RunKinds(p, o, run, n - 1);
      RunOk(p, o, run, n - 1);
      StepRecords(p, o, run, n, run[n - 2], run[n - 1]);
    }
  }

  lemma KindsLifted(p: Proof, l: Loop)
    requires LoopOk(p, l) && Exhausted(p, l) && AllKinds(p, l.proofs)
    ensures RecordsLifted(p, l.proofs)
  {
    LiftedRecorded(p, l);
    forall x | MinimalSafe(p, x, {p.property})
      ensures x in l.proofs || x + Copies(p) in l.proofs
    {
      var r :| r in l.proofs && r + Copies(p) == x + Copies(p);
      if KindOk(p, false, r) {
        SameLifted(p, r, x);
      } else {
        assert r + Copies(p) == r;
      }
    }
    forall x | x in l.proofs
      ensures MinimalSafe(p, Core(p, x), {p.property}) && (x == Core(p, x) || x == Core(p, x) + Copies(p))
    {
      if KindOk(p, false, x) {
        MinimalHasOne(p, x);
      } else {
        MinimalCore(p, x);
      }
    }
  }

  // ----- options under which no assertion fails -----

  /** The clauses refined with are those that the unexplored seed itself does not
      support, unless it has been grown. */
  lemma SeedDoesNotFail(p: Proof, o: Options, l: Loop, seed: set<ClauseID>)
    requires LoopOk(p, l) && Picked(p, o, l, seed)
    requires !(o.mcs && o.collapse && !o.up && !o.down)
    ensures !Fails(p, o, l, seed)
  {
    if o.collapse && !FoundSis(p, o, l, seed) {
      assert Refuted(p, o, l, seed) == UnsupportedIn(p, seed);
      SeedKinds(p, l, seed, false);
      NoneUnsupported(p, seed);
      assert Inductive(p, seed) ==> SafeInductive(p, seed, {p.property});
      forall c | c in UnsupportedIn(p, seed) && c < |p.clauses|
        ensures !NothingToList(p, l.found, c)
      {
        SomethingToList(p, l.found, l.clauses, seed, c);
      }
    }
  }

  lemma NoOtherOptionsFail(o: Options)
    requires !(o.mcs && o.collapse && !o.up && !o.down)
    ensures NeverFails(o)
  {
    forall p: Proof, run: seq<Loop> | p.Valid() && Inductive(p, p.All()) && Run(p, o, run) && run[0] == Start(p)
      ensures !Stuck(p, o, run[|run| - 1])
    {
      var l := run[|run| - 1];
      RunOk(p, o, run, |run| - 1);
      forall seed | Picked(p, o, l, seed)
        ensures !Fails(p, o, l, seed)
      {
        SeedDoesNotFail(p, o, l, seed);
      }
    }
  }

  // ----- options under which only minimal sets are recorded -----

  /** On every inductive proof and in every run, only minimal sets are recorded. */
  ghost predicate OnlyMinimal(o: Options) {
    forall p: Proof, run: seq<Loop> | p.Valid() && Inductive(p, p.All()) && Run(p, o, run) && run[0] == Start(p) ::
      AllMinimal(p, run[|run| - 1].proofs)
  }

  lemma WithoutMinimum(o: Options)
    requires !o.up
    ensures OnlyMinimal(o)
  {
    forall p: Proof, run: seq<Loop> | p.Valid() && Inductive(p, p.All()) && Run(p, o, run) && run[0] == Start(p)
      ensures AllMinimal(p, run[|run| - 1].proofs)
    {
      RunRecords(p, o, run, |run|);
    }
  }
}
