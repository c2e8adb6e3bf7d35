/** Re-initiation when the initial states are given by latch resets alone: what
    becomes of a dropped literal can be read off the core and the cube
    (src/pme/ic3/ic3_solver.cpp:445-456, 468-537). */
module ResetStates {
  import opened Ids
  import opened Cubes
  import opened TransitionRelations
  import opened TraceInvariants
  import opened Generalizations

  /** The initial states are restricted by the values of single latches only, and
      there is one. */
  ghost predicate ResetsOnly(tr: TransitionRelation, init: set<Cube>) {
    && tr.WellFormed() && (forall c | c in init :: |c| == 1 && Strip(c[0]) in tr.LatchIDs())
    && exists v :: Init(tr, init, v)
  }

  /** No initial state satisfies the literal. */
  predicate Excluded(init: set<Cube>, lit: ID) {
    [lit] in init
  }

  /** A cube over latches without two opposite literals. */
  predicate StateCube(tr: TransitionRelation, c: Cube) {
    OverLatches(tr, c) && forall x | x in c :: Negate(x) !in c
  }

  predicate Mentions(c: Cube, id: ID) {
    exists x :: x in c && Strip(x) == id
  }

  /** v with the cube's latches set as the cube says. */
  function Overridden(tr: TransitionRelation, v: Valuation, c: Cube): set<ID> {
    set id | id in tr.Leaves() && if Mentions(c, id) then id in c else id in v
  }

  lemma OverriddenHolds(tr: TransitionRelation, v: Valuation, c: Cube, w: Valuation, x: ID)
    requires StateCube(tr, c) && x in c && w * tr.Leaves() == Overridden(tr, v, c)
    ensures Holds(w, x)
  {
    var id := Strip(x);
    assert id in tr.Leaves() && Mentions(c, id);
    assert id in w <==> id in w * tr.Leaves();
    if IsNegated(x) {
      assert id == Negate(x);
    }
  }

  lemma OverriddenElsewhere(tr: TransitionRelation, v: Valuation, c: Cube, w: Valuation, y: ID)
    requires Strip(y) in tr.LatchIDs() && !Mentions(c, Strip(y)) && w * tr.Leaves() == Overridden(tr, v, c)
    ensures Holds(w, y) <==> Holds(v, y)
  {
    assert Strip(y) in w <==> Strip(y) in w * tr.Leaves();
  }

  /** A cube excludes the initial states exactly when one of its literals does. */
  lemma InitiatedByReset(tr: TransitionRelation, init: set<Cube>, c: Cube)
    requires ResetsOnly(tr, init) && StateCube(tr, c)
    ensures Initiated(tr, init, c) <==> HasExcluded(init, c)
  {
    if x :| x in c && Excluded(init, x) {
      forall v | Init(tr, init, v)
        ensures !SatCube(v, c)
      {
        assert !SatCube(v, [x]);
        assert !Holds(v, x);
      }
    } else {
      var v :| Init(tr, init, v);
      var w := Complete(tr, Overridden(tr, v, c));
      CompleteIsFrame(tr, Overridden(tr, v, c));
      forall x | x in c
        ensures Holds(w, x)
      {
        OverriddenHolds(tr, v, c, w, x);
      }
      forall d | d in init
        ensures !SatCube(w, d)
      {
        StillExcluded(tr, init, v, c, w, d);
      }
      assert Init(tr, init, w) && SatCube(w, c);
    }
  }

  lemma StillExcluded(tr: TransitionRelation, init: set<Cube>, v: Valuation, c: Cube, w: Valuation, d: Cube)
    requires ResetsOnly(tr, init) && StateCube(tr, c) && d in init && Init(tr, init, v)
    requires forall x | x in c :: Holds(w, x) && !Excluded(init, x)
    requires w * tr.Leaves() == Overridden(tr, v, c)
    ensures !SatCube(w, d)
  {
    var y := d[0];
    assert d == [y];
    assert y in d && !SatCube(v, d) && !Holds(v, y);
    if Mentions(c, Strip(y)) {
      var z :| z in c && Strip(z) == Strip(y);
      assert Excluded(init, y) && z != y;
      SameVariable(w, y, z);
    } else {
      OverriddenElsewhere(tr, v, c, w, y);
    }
  }

  lemma SameVariable(w: Valuation, y: ID, z: ID)
    requires Strip(y) == Strip(z) && y != z && Holds(w, z)
    ensures !Holds(w, y)
  {
  }

  /** The literal is the last one of the cube that no initial state satisfies. */
  predicate LastExcluded(init: set<Cube>, c: Cube, lit: ID) {
    lit in c && Excluded(init, lit) && forall x | x in c && x > lit :: !Excluded(init, x)
  }

  /** Every part of the cube excludes the initial states exactly when one of its
      literals does. */
  ghost predicate ByLiterals(tr: TransitionRelation, init: set<Cube>, s: Cube) {
    forall c | SubCube(c, s) :: Initiated(tr, init, c) <==> HasExcluded(init, c)
  }

  predicate HasExcluded(init: set<Cube>, c: Cube) {
    exists x :: x in c && Excluded(init, x)
  }

  lemma AllByReset(tr: TransitionRelation, init: set<Cube>, s: Cube)
    requires ResetsOnly(tr, init) && StateCube(tr, s)
    ensures ByLiterals(tr, init, s)
  {
    forall c | SubCube(c, s)
      ensures Initiated(tr, init, c) <==> HasExcluded(init, c)
    {
      InitiatedByReset(tr, init, c);
    }
  }

  lemma PartByLiterals(tr: TransitionRelation, init: set<Cube>, c: Cube, s: Cube)
    requires ByLiterals(tr, init, s) && SubCube(c, s)
    ensures ByLiterals(tr, init, c)
  {
    forall d | SubCube(d, c)
      ensures Initiated(tr, init, d) <==> HasExcluded(init, d)
    {
      assert SubCube(d, s);
    }
  }

  /** What the scan of re-initiation keeps: before position ti only literals of
      the core and the last excluding one are left. */
  ghost predicate Scanning(tr: TransitionRelation, init: set<Cube>, core: Cube, t: Cube, ti: nat, last: ID) {
    && ti <= |t| && Ascending(t) && ByLiterals(tr, init, t)
    && SubCube(core, t) && !HasExcluded(init, core) && LastExcluded(init, t, last)
    && forall j | 0 <= j < ti :: t[j] in core || t[j] == last
  }

  /** Re-initiation keeps the core and the last literal that excludes the initial
      states. */
  lemma {:induction false} KeepsTheLast(tr: TransitionRelation, init: set<Cube>, core: Cube, t: Cube, ti: nat, last: ID)
    requires Scanning(tr, init, core, t, ti, last)
    ensures Lits(Reinitiated(tr, init, core, t, ti)) == Lits(core) + {last}
    decreases |t| - ti
  {
    if ti == |t| {
      NothingLeft(core, t, last);
    } else if t[ti] !in core && t[ti] != last {
      Drops(tr, init, core, t, ti, last);
      KeepsTheLast(tr, init, core, SubtractLit(t, ti), ti, last);
    } else {
      Keeps(tr, init, core, t, ti, last);
      KeepsTheLast(tr, init, core, t, ti + 1, last);
    }
  }

  lemma NothingLeft(core: Cube, t: Cube, last: ID)
    requires SubCube(core, t) && last in t && forall j | 0 <= j < |t| :: t[j] in core || t[j] == last
    ensures Lits(t) == Lits(core) + {last}
  {
    forall x | x in t
      ensures x in core || x == last
    {
      var j :| 0 <= j < |t| && t[j] == x;
    }
  }

  lemma OneFewer(t: Cube, ti: nat)
    requires Ascending(t) && ti < |t|
    ensures Ascending(SubtractLit(t, ti)) && SubCube(SubtractLit(t, ti), t)
    ensures forall x :: x in SubtractLit(t, ti) <==> x in t && x != t[ti]
    ensures forall j | 0 <= j < ti :: SubtractLit(t, ti)[j] == t[j]
  {
    var c := SubtractLit(t, ti);
    SubtractKeeps(t, ti);
    forall x
      ensures x in c <==> x in t && x != t[ti]
    {
      assert x in Lits(c) <==> x in Lits(t) && x != t[ti];
    }
  }

  lemma Drops(tr: TransitionRelation, init: set<Cube>, core: Cube, t: Cube, ti: nat, last: ID)
    requires Scanning(tr, init, core, t, ti, last) && ti < |t| && t[ti] !in core && t[ti] != last
    ensures Initiated(tr, init, SubtractLit(t, ti)) && Scanning(tr, init, core, SubtractLit(t, ti), ti, last)
  {
    var c := SubtractLit(t, ti);
    OneFewer(t, ti);
    PartByLiterals(tr, init, c, t);
    assert last in c && HasExcluded(init, c);
  }

  lemma Keeps(tr: TransitionRelation, init: set<Cube>, core: Cube, t: Cube, ti: nat, last: ID)
    requires Scanning(tr, init, core, t, ti, last) && ti < |t| && (t[ti] in core || t[ti] == last)
    ensures t[ti] in core || !Initiated(tr, init, SubtractLit(t, ti))
    ensures Scanning(tr, init, core, t, ti + 1, last)
  {
    var c := SubtractLit(t, ti);
    OneFewer(t, ti);
    if t[ti] == last && t[ti] !in core {
      forall x | x in c
        ensures !Excluded(init, x)
      {
        var j :| 0 <= j < |t| && t[j] == x;
        assert j < ti || t[j] > t[ti];
      }
      assert !HasExcluded(init, c);
    }
  }

  /** Can the dropped literal come back? Only into a core that admits initial
      states, and only the last literal that excludes them. */
  predicate Returns(init: set<Cube>, s: Cube, lit: ID, core: Cube) {
    !HasExcluded(init, core) && LastExcluded(init, s, lit)
  }

  /** A state of the frame in q but not satisfying lit that steps into the core
      and into lit. */
  ghost predicate EscapesInto(tr: TransitionRelation, f: set<Cube>, q: Cube, lit: ID, core: Cube) {
    exists v, w :: tr.Step(v, w) && Avoids(v, f) && SatCube(v, q) && !Holds(v, lit) && SatCube(w, core) && Holds(w, lit)
  }

  lemma ResultIs(tr: TransitionRelation, init: set<Cube>, s: Cube, lit: ID, q: Cube, core: Cube)
    requires ByLiterals(tr, init, s) && Ascending(s)
    requires Lits(q) == Lits(s) - {lit} && SubCube(q, s) && SubCube(core, q) && Initiated(tr, init, q)
    ensures lit in MadeInitiated(tr, init, core, s) <==> Returns(init, s, lit, core)
    ensures Returns(init, s, lit, core) ==> Lits(MadeInitiated(tr, init, core, s)) == Lits(core) + {lit}
  {
    assert lit !in q by {
      assert lit !in Lits(q);
    }
    assert SubCube(core, s);
    if !Initiated(tr, init, core) {
      assert HasExcluded(init, q);
      var last := GreatestExcluded(init, s);
      KeepsTheLast(tr, init, core, s, 0, last);
      var r := MadeInitiated(tr, init, core, s);
      assert lit in r <==> lit in Lits(r);
    }
  }

  lemma {:induction false} GreatestExcluded(init: set<Cube>, s: Cube) returns (last: ID)
    requires Ascending(s) && HasExcluded(init, s)
    ensures LastExcluded(init, s, last)
    decreases |s|
  {
    var n := |s| - 1;
    if Excluded(init, s[n]) {
      last := s[n];
    } else {
      var less := s[..n];
      assert HasExcluded(init, less) by {
        var x :| x in s && Excluded(init, x);
        var j :| 0 <= j < |s| && s[j] == x;
        assert less[j] == x;
      }
      last := GreatestExcluded(init, less);
      forall x | x in s && x > last
        ensures !Excluded(init, x)
      {
        var j :| 0 <= j < |s| && s[j] == x;
        assert j < n ==> less[j] == x;
      }
    }
  }

  /** Exactly when a generalised cube is not inductive relative to the frame:
      its dropped literal comes back, and some step from where it was false enters
      the core together with it. */
  lemma ResetExact(tr: TransitionRelation, init: set<Cube>, f: set<Cube>, s: Cube, lit: ID, q: Cube, core: Cube)
    requires ResetsOnly(tr, init) && StateCube(tr, s) && Ascending(s)
    requires Lits(q) == Lits(s) - {lit} && SubCube(q, s) && Initiated(tr, init, q)
    requires Consecution(tr, f, q, core) && SubCube(core, q)
    ensures var r := MadeInitiated(tr, init, core, s);
      Consecution(tr, f, r, r) <==> !(Returns(init, s, lit, core) && EscapesInto(tr, f, q, lit, core))
  {
    var r := MadeInitiated(tr, init, core, s);
    AllByReset(tr, init, s);
    GeneralizeExact(tr, init, f, s, lit, q, core);
    ResultIs(tr, init, s, lit, q, core);
    if Returns(init, s, lit, core) {
      forall w
        ensures SatCube(w, r) <==> SatCube(w, core) && Holds(w, lit)
      {
        assert forall x :: x in r <==> x in core || x == lit by {
          assert forall x :: x in r <==> x in Lits(r);
        }
      }
    }
  }
}
