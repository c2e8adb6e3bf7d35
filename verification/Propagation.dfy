/** One literal's watch list while propagation goes through it
    (src/sat/solvers/glucose/src/core/Solver.cc:1040-1137). */
module Propagation {
  import opened Trails
  import opened WatchLists

  // ----- lists -----

  function Without(l: seq<Watcher>, k: nat): seq<Watcher>
    requires k < |l|
  {
    l[..k] + l[k + 1..]
  }

  lemma HasWithout(l: seq<Watcher>, k: nat, c: nat)
    requires k < |l| && Has(l, c) && l[k].cref != c
    ensures Has(Without(l, k), c)
  {
    var m :| 0 <= m < |l| && l[m].cref == c;
    var n := if m < k then m else m - 1;
    assert Without(l, k)[n] == l[m];
  }

  lemma HasMore(l: seq<Watcher>, w: Watcher, c: nat)
    ensures Has(l + [w], c) <==> Has(l, c) || w.cref == c
  {
    if Has(l, c) {
      var m :| 0 <= m < |l| && l[m].cref == c;
      assert (l + [w])[m] == l[m];
    }
    assert (l + [w])[|l|] == w;
  }

  lemma HasReplaced(l: seq<Watcher>, k: nat, w: Watcher, c: nat)
    requires k < |l| && l[k].cref == w.cref
    ensures Has(l[k := w], c) <==> Has(l, c)
  {
    if Has(l, c) {
      var m :| 0 <= m < |l| && l[m].cref == c;
      assert l[k := w][m].cref == c;
    }
    if Has(l[k := w], c) {
      var m :| 0 <= m < |l| && l[k := w][m].cref == c;
      assert l[m].cref == c;
    }
  }

  // ----- what each step does to the lists -----

  /** A change to one clause that keeps its literals and the watched pair keeps
      every entry. */
  lemma EntryStays(clauses: seq<Clause>, c: nat, cls: Clause, q: Lit, w: Watcher)
    requires EntryOk(clauses, q, w) && c < |clauses|
    requires w.cref == c ==>
      |cls| == |clauses[c]| && LitSet(cls) == LitSet(clauses[c]) && (cls[0] == q.Not() || cls[1] == q.Not())
    ensures EntryOk(clauses[c := cls], q, w)
  {
    assert w.blocker in LitSet(clauses[w.cref]);
    if w.cref == c {
      assert w.blocker in LitSet(cls);
    }
  }

  lemma ListStays(clauses: seq<Clause>, c: nat, cls: Clause, q: Lit, l: seq<Watcher>)
    requires ListOk(clauses, q, l) && c < |clauses| && |cls| == |clauses[c]| && LitSet(cls) == LitSet(clauses[c])
    requires WatchedPair(clauses[c], q) ==> WatchedPair(cls, q)
    ensures ListOk(clauses[c := cls], q, l)
  {
    forall k | 0 <= k < |l|
      ensures EntryOk(clauses[c := cls], q, l[k])
    {
      assert EntryOk(clauses, q, l[k]);
      EntryStays(clauses, c, cls, q, l[k]);
    }
  }

  predicate WatchedPair(cls: Clause, q: Lit) {
    |cls| > 2 && (cls[0] == q.Not() || cls[1] == q.Not())
  }

  /** Exchanging the watched literals of a clause. */
  lemma SwapWatched(clauses: seq<Clause>, ws: Watches, c: nat)
    requires Watched(clauses, ws) && c < |clauses| && |clauses[c]| > 2
    ensures Watched(clauses[c := Swapped(clauses[c], 0, 1)], ws)
  {
    SwapLists(clauses, ws, c);
    SwapListed(clauses, ws, c);
  }

  lemma SwapLists(clauses: seq<Clause>, ws: Watches, c: nat)
    requires ListsOk(clauses, ws) && c < |clauses| && |clauses[c]| > 2
    ensures ListsOk(clauses[c := Swapped(clauses[c], 0, 1)], ws)
  {
    var cls := Swapped(clauses[c], 0, 1);
    SwapSet(clauses[c], 0, 1);
    forall q | q in ws
      ensures ListOk(clauses[c := cls], q, ws[q])
    {
      ListStays(clauses, c, cls, q, ws[q]);
    }
  }

  lemma SwapListed(clauses: seq<Clause>, ws: Watches, c: nat)
    requires AllListed(clauses, ws) && c < |clauses| && |clauses[c]| > 2
    ensures AllListed(clauses[c := Swapped(clauses[c], 0, 1)], ws)
  {
    var next := clauses[c := Swapped(clauses[c], 0, 1)];
    forall d | 0 <= d < |next|
      ensures Listed(ws, next[d], d)
    {
      assert Listed(ws, clauses[d], d);
    }
  }

  lemma ListReplaced(clauses: seq<Clause>, q: Lit, l: seq<Watcher>, k: nat, w: Watcher)
    requires ListOk(clauses, q, l) && k < |l| && w.cref == l[k].cref && EntryOk(clauses, q, w)
    ensures ListOk(clauses, q, l[k := w])
  {
    var next := l[k := w];
    forall m | 0 <= m < |next|
      ensures EntryOk(clauses, q, next[m])
    {
      assert EntryOk(clauses, q, l[m]);
    }
  }

  lemma ListedStill(ws: Watches, next: Watches, cls: Clause, d: nat)
    requires Listed(ws, cls, d)
    requires forall q :: Has(At(ws, q), d) ==> Has(At(next, q), d)
    ensures Listed(next, cls, d)
  {
  }

  /** Giving a watcher another blocker. */
  lemma KeepWatched(clauses: seq<Clause>, ws: Watches, p: Lit, k: nat, w: Watcher)
    requires Watched(clauses, ws) && p in ws && k < |ws[p]| && w.cref == ws[p][k].cref && EntryOk(clauses, p, w)
    ensures Watched(clauses, ws[p := ws[p][k := w]])
  {
    KeepLists(clauses, ws, p, k, w);
    KeepListed(clauses, ws, p, k, w);
  }

  lemma KeepLists(clauses: seq<Clause>, ws: Watches, p: Lit, k: nat, w: Watcher)
    requires ListsOk(clauses, ws) && p in ws && k < |ws[p]| && w.cref == ws[p][k].cref && EntryOk(clauses, p, w)
    ensures ListsOk(clauses, ws[p := ws[p][k := w]])
  {
    ListReplaced(clauses, p, ws[p], k, w);
  }

  lemma KeepListed(clauses: seq<Clause>, ws: Watches, p: Lit, k: nat, w: Watcher)
    requires AllListed(clauses, ws) && p in ws && k < |ws[p]| && w.cref == ws[p][k].cref
    ensures AllListed(clauses, ws[p := ws[p][k := w]])
  {
    var next := ws[p := ws[p][k := w]];
    forall d | 0 <= d < |clauses|
      ensures Listed(next, clauses[d], d)
    {
      assert Listed(ws, clauses[d], d);
      HasReplaced(ws[p], k, w, d);
      ListedStill(ws, next, clauses[d], d);
    }
  }

  /** The lists after a watcher moved from one to another. */
  function Moved(ws: Watches, p: Lit, k: nat, q: Lit, w: Watcher): Watches
    requires p in ws && k < |ws[p]|
  {
    ws[p := Without(ws[p], k)][q := At(ws, q) + [w]]
  }

  /** The clause watches its literal at position m in place of the second one. */
  ghost predicate Moving(clauses: seq<Clause>, p: Lit, c: nat, m: nat) {
    && c < |clauses| && 2 <= m < |clauses[c]| && clauses[c][1] == p.Not() && NoRepeats(clauses[c])
  }

  lemma ListWithout(clauses: seq<Clause>, p: Lit, l: seq<Watcher>, k: nat, cls: Clause)
    requires ListOk(clauses, p, l) && k < |l|
    ensures ListOk(clauses[l[k].cref := cls], p, Without(l, k))
  {
    var c := l[k].cref;
    assert EntryOk(clauses, p, l[k]);
    forall i | 0 <= i < |l| - 1
      ensures EntryOk(clauses[c := cls], p, Without(l, k)[i])
    {
      var n := if i < k then i else i + 1;
      assert Without(l, k)[i] == l[n] && l[n].cref != c;
      assert EntryOk(clauses, p, l[n]);
      EntryStays(clauses, c, cls, p, l[n]);
    }
    forall i, j | 0 <= i < j < |l| - 1
      ensures Without(l, k)[i].cref != Without(l, k)[j].cref
    {
      var a, b := if i < k then i else i + 1, if j < k then j else j + 1;
      assert Without(l, k)[i] == l[a] && Without(l, k)[j] == l[b];
    }
  }

  /** A list without the clause can take it. */
  lemma ListMore(clauses: seq<Clause>, c: nat, cls: Clause, q: Lit, l: seq<Watcher>, w: Watcher)
    requires ListOk(clauses, q, l) && c < |clauses| && w.cref == c && !WatchedPair(clauses[c], q)
    requires WatchesWith(cls, q, w.blocker)
    ensures ListOk(clauses[c := cls], q, l + [w])
  {
    forall i | 0 <= i < |l|
      ensures l[i].cref != c && EntryOk(clauses[c := cls], q, l[i])
    {
      assert EntryOk(clauses, q, l[i]);
      EntryStays(clauses, c, cls, q, l[i]);
    }
    forall i | 0 <= i < |l| + 1
      ensures EntryOk(clauses[c := cls], q, (l + [w])[i])
    {
      assert (l + [w])[i] == if i < |l| then l[i] else w;
    }
    forall i, j | 0 <= i < j < |l| + 1
      ensures (l + [w])[i].cref != (l + [w])[j].cref
    {
      assert (l + [w])[i] == l[i];
    }
  }

  lemma MovedEntry(clauses: seq<Clause>, p: Lit, c: nat, m: nat)
    requires Moving(clauses, p, c, m)
    ensures WatchesWith(Swapped(clauses[c], 1, m), clauses[c][m].Not(), clauses[c][0])
    ensures !WatchedPair(clauses[c], clauses[c][m].Not()) && clauses[c][m].Not() != p
  {
    var cls := clauses[c];
    var r := Swapped(cls, 1, m);
    assert cls[0] != cls[m] && cls[1] != cls[m];
    assert r[0] == cls[0] && r[1] == cls[m];
  }

  /** The clauses and lists after the move. */
  lemma MoveLists(clauses: seq<Clause>, ws: Watches, p: Lit, k: nat, m: nat)
    requires ListsOk(clauses, ws) && p in ws && k < |ws[p]| && Moving(clauses, p, ws[p][k].cref, m)
    ensures var c := ws[p][k].cref;
      ListsOk(clauses[c := Swapped(clauses[c], 1, m)],
              Moved(ws, p, k, clauses[c][m].Not(), Watcher(c, clauses[c][0])))
  {
    var c := ws[p][k].cref;
    var q, w, cls := clauses[c][m].Not(), Watcher(c, clauses[c][0]), Swapped(clauses[c], 1, m);
    MovedEntry(clauses, p, c, m);
    SwapSet(clauses[c], 1, m);
    var next := Moved(ws, p, k, q, w);
    forall r | r in next
      ensures ListOk(clauses[c := cls], r, next[r])
    {
      if r == p {
        ListWithout(clauses, p, ws[p], k, cls);
      } else if r == q {
        assert ListOk(clauses, q, At(ws, q));
        ListMore(clauses, c, cls, q, At(ws, q), w);
      } else {
        ListStays(clauses, c, cls, r, ws[r]);
      }
    }
  }

  lemma MoveHas(ws: Watches, p: Lit, k: nat, q: Lit, w: Watcher, r: Lit, d: nat)
    requires p in ws && k < |ws[p]| && p != q && w.cref == ws[p][k].cref && Has(At(ws, r), d)
    requires d != w.cref || r != p
    ensures Has(At(Moved(ws, p, k, q, w), r), d)
  {
    if r == p {
      HasWithout(ws[p], k, d);
    } else if r == q {
      HasMore(At(ws, q), w, d);
    }
  }

  lemma MoveListed(clauses: seq<Clause>, ws: Watches, p: Lit, k: nat, m: nat, d: nat)
    requires p in ws && k < |ws[p]| && Moving(clauses, p, ws[p][k].cref, m)
    requires d < |clauses| && Listed(ws, clauses[d], d)
    ensures var c := ws[p][k].cref;
      Listed(Moved(ws, p, k, clauses[c][m].Not(), Watcher(c, clauses[c][0])),
             clauses[c := Swapped(clauses[c], 1, m)][d], d)
  {
    var c := ws[p][k].cref;
    var cls := clauses[c];
    var q, w := cls[m].Not(), Watcher(c, cls[0]);
    MovedEntry(clauses, p, c, m);
    if d == c {
      assert cls[0] != cls[1];
      MoveHas(ws, p, k, q, w, cls[0].Not(), d);
      HasMore(At(ws, q), w, d);
    } else if |clauses[d]| > 2 {
      MoveHas(ws, p, k, q, w, clauses[d][0].Not(), d);
      MoveHas(ws, p, k, q, w, clauses[d][1].Not(), d);
    }
  }

  lemma MoveWatched(clauses: seq<Clause>, ws: Watches, p: Lit, k: nat, m: nat)
    requires Watched(clauses, ws) && p in ws && k < |ws[p]| && Moving(clauses, p, ws[p][k].cref, m)
    ensures var c := ws[p][k].cref;
      Watched(clauses[c := Swapped(clauses[c], 1, m)],
              Moved(ws, p, k, clauses[c][m].Not(), Watcher(c, clauses[c][0])))
  {
    MoveLists(clauses, ws, p, k, m);
    var c := ws[p][k].cref;
    var next := clauses[c := Swapped(clauses[c], 1, m)];
    forall d | 0 <= d < |next|
      ensures Listed(Moved(ws, p, k, clauses[c][m].Not(), Watcher(c, clauses[c][0])), next[d], d)
    {
      MoveListed(clauses, ws, p, k, m, d);
    }
  }

  // ----- binary clauses do not move -----

  lemma BinStill(clauses: seq<Clause>, wb: Watches, c: nat, cls: Clause)
    requires BinWatched(clauses, wb) && c < |clauses| && |clauses[c]| > 2 && |cls| == |clauses[c]|
    ensures BinWatched(clauses[c := cls], wb)
  {
    forall q | q in wb
      ensures BinListOk(clauses[c := cls], q, wb[q])
    {
      BinListStill(clauses, c, cls, q, wb[q]);
    }
    var next := clauses[c := cls];
    forall d | 0 <= d < |next|
      ensures BinListed(wb, next[d], d)
    {
      assert BinListed(wb, clauses[d], d);
    }
  }

  lemma BinListStill(clauses: seq<Clause>, c: nat, cls: Clause, q: Lit, l: seq<Watcher>)
    requires BinListOk(clauses, q, l) && c < |clauses| && |clauses[c]| > 2
    ensures BinListOk(clauses[c := cls], q, l)
  {
    forall k | 0 <= k < |l|
      ensures BinEntryOk(clauses[c := cls], q, l[k])
    {
      assert BinEntryOk(clauses, q, l[k]);
    }
  }

  // ----- one list in the middle of its loop -----

  /** The lists, when the first j watchers of one were kept and those from i on
      are still to come. */
  function Virtual(ws: Watches, p: Lit, l: seq<Watcher>, i: nat, j: nat): Watches
    requires j <= i <= |l|
  {
    ws[p := l[..j] + l[i..]]
  }

  lemma KeepVirtual(ws: Watches, p: Lit, l: seq<Watcher>, i: nat, j: nat, w: Watcher)
    requires j <= i < |l|
    ensures Virtual(ws, p, l[j := w], i + 1, j + 1) == Virtual(ws, p, l, i, j)[p := (l[..j] + l[i..])[j := w]]
    ensures (l[..j] + l[i..])[j] == l[i]
  {
    assert l[j := w][..j + 1] + l[j := w][i + 1..] == (l[..j] + l[i..])[j := w];
  }

  lemma MoveVirtual(ws: Watches, p: Lit, l: seq<Watcher>, i: nat, j: nat, q: Lit, w: Watcher)
    requires j <= i < |l| && q != p
    ensures Virtual(ws[q := At(ws, q) + [w]], p, l, i + 1, j) == Moved(Virtual(ws, p, l, i, j), p, j, q, w)
    ensures Virtual(ws, p, l, i, j)[p][j] == l[i]
  {
    var v := l[..j] + l[i..];
    assert Without(v, j) == l[..j] + l[i + 1..];
    assert At(Virtual(ws, p, l, i, j), q) == At(ws, q);
  }

  lemma VirtualEnd(ws: Watches, p: Lit, l: seq<Watcher>, j: nat)
    requires j <= |l|
    ensures Virtual(ws, p, l, |l|, j) == ws[p := l[..j]]
  {
    assert l[..j] + l[|l|..] == l[..j];
  }

  /** Guards depend only on the lists of assigned literals. */
  lemma SameGuards(s: Trail, a: Watches, b: Watches, n: nat)
    requires Leveled(s) && GuardedTo(s, a, n)
    requires forall m | 0 <= m < n && m < |s.lits| :: At(a, s.lits[m]) == At(b, s.lits[m])
    ensures GuardedTo(s, b, n)
  {
    forall m, k | 0 <= m < n && m < |s.lits| && 0 <= k < |At(b, s.lits[m])|
      ensures Guarded(s, s.lits[m], At(b, s.lits[m])[k])
    {
      assert Guarded(s, s.lits[m], At(a, s.lits[m])[k]);
    }
  }

  /** The kept watchers are guarded. */
  ghost predicate KeptGuarded(s: Trail, p: Lit, l: seq<Watcher>, j: nat) {
    p.x in s.level && j <= |l| && forall k | 0 <= k < j :: Guarded(s, p, l[k])
  }

  /** The literal at position n - 1, whose list is being read, is of the current
      level. */
  ghost predicate Reading(s: Trail, n: nat, l: seq<Watcher>, i: nat, j: nat) {
    && 0 < n <= |s.lits| && j <= i <= |l|
    && s.lits[n - 1].x in s.level && s.level[s.lits[n - 1].x] == |s.lims|
  }

  /** What the loop over one list keeps, whether or not a conflict was found. */
  ghost predicate Stalled(formula: seq<Clause>, clauses: seq<Clause>, s: Trail, ws: Watches, wb: Watches,
                          n: nat, l: seq<Watcher>, i: nat, j: nat) {
    && Reading(s, n, l, i, j) && ConsistentOk(formula, clauses, s)
    && WatchedOk(clauses, Virtual(ws, s.lits[n - 1], l, i, j)) && BinWatchedOk(clauses, wb)
    && GuardsOk(s, Virtual(ws, s.lits[n - 1], l, i, j), n - 1) && GuardsOk(s, wb, n)
  }

  /** What it keeps until then. */
  ghost predicate InList(formula: seq<Clause>, clauses: seq<Clause>, s: Trail, ws: Watches, wb: Watches,
                         n: nat, l: seq<Watcher>, i: nat, j: nat) {
    Stalled(formula, clauses, s, ws, wb, n, l, i, j) && KeptGuarded(s, s.lits[n - 1], l, j)
  }

  /** The clause of the next watcher. */
  lemma NextWatcher(clauses: seq<Clause>, s: Trail, ws: Watches, p: Lit, l: seq<Watcher>, i: nat, j: nat)
    requires j <= i < |l| && WatchedOk(clauses, Virtual(ws, p, l, i, j))
    ensures EntryOk(clauses, p, l[i])
  {
    var v := Virtual(ws, p, l, i, j);
    WatchedIs(clauses, v);
    assert ListOk(clauses, p, v[p]);
    assert v[p][j] == l[i];
    assert EntryOk(clauses, p, v[p][j]);
  }

  // ----- keeping a watcher -----

  lemma KeepWatches(clauses: seq<Clause>, ws: Watches, p: Lit, l: seq<Watcher>, i: nat, j: nat, w: Watcher)
    requires j <= i < |l| && WatchedOk(clauses, Virtual(ws, p, l, i, j))
    requires w.cref == l[i].cref && EntryOk(clauses, p, w)
    ensures WatchedOk(clauses, Virtual(ws, p, l[j := w], i + 1, j + 1))
  {
    var v := Virtual(ws, p, l, i, j);
    WatchedIs(clauses, v);
    KeepVirtual(ws, p, l, i, j, w);
    KeepWatched(clauses, v, p, j, w);
    WatchedIs(clauses, Virtual(ws, p, l[j := w], i + 1, j + 1));
  }

  /** Guards of other literals do not depend on this list. */
  lemma OtherGuards(s: Trail, v: Watches, n: nat, u: Watches)
    requires DistinctVars(s.lits) && 0 < n <= |s.lits| && GuardsOk(s, v, n - 1)
    requires forall q | q in s.lits && q != s.lits[n - 1] :: At(u, q) == At(v, q)
    ensures GuardsOk(s, u, n - 1)
  {
    GuardsIs(s, v, n - 1);
    forall m | 0 <= m < n - 1
      ensures At(v, s.lits[m]) == At(u, s.lits[m])
    {
      assert s.lits[m].x != s.lits[n - 1].x;
    }
    SameGuards(s, v, u, n - 1);
    GuardsIs(s, u, n - 1);
  }

  lemma TrueGuards(s: Trail, p: Lit, w: Watcher)
    requires Leveled(s) && p.x in s.level && s.level[p.x] == |s.lims| && w.blocker in s.lits
    ensures Guarded(s, p, w)
  {
    var k :| 0 <= k < |s.lits| && s.lits[k] == w.blocker;
    assert s.lits[k].x in s.level;
  }

  lemma StallStep(formula: seq<Clause>, clauses: seq<Clause>, s: Trail, ws: Watches, wb: Watches,
                  n: nat, l: seq<Watcher>, i: nat, j: nat, w: Watcher)
    requires Stalled(formula, clauses, s, ws, wb, n, l, i, j) && i < |l|
    requires w.cref == l[i].cref && EntryOk(clauses, s.lits[n - 1], w)
    ensures Stalled(formula, clauses, s, ws, wb, n, l[j := w], i + 1, j + 1)
  {
    var p := s.lits[n - 1];
    KeepWatches(clauses, ws, p, l, i, j, w);
    ConsistentIs(formula, clauses, s);
    OtherGuards(s, Virtual(ws, p, l, i, j), n, Virtual(ws, p, l[j := w], i + 1, j + 1));
  }

  /** A watcher whose blocker is true is kept. */
  lemma KeepStep(formula: seq<Clause>, clauses: seq<Clause>, s: Trail, ws: Watches, wb: Watches,
                 n: nat, l: seq<Watcher>, i: nat, j: nat, w: Watcher)
    requires InList(formula, clauses, s, ws, wb, n, l, i, j) && i < |l|
    requires w.cref == l[i].cref && EntryOk(clauses, s.lits[n - 1], w) && w.blocker in s.lits
    ensures InList(formula, clauses, s, ws, wb, n, l[j := w], i + 1, j + 1)
  {
    StallStep(formula, clauses, s, ws, wb, n, l, i, j, w);
    ConsistentIs(formula, clauses, s);
    TrueGuards(s, s.lits[n - 1], w);
  }

  // ----- reordering a clause -----

  lemma SwapReorders(formula: seq<Clause>, clauses: seq<Clause>, s: Trail, c: nat, a: nat, b: nat)
    requires ConsistentOk(formula, clauses, s) && c < |clauses| && a < b < |clauses[c]|
    requires a == 0 ==> clauses[c][0].Not() in s.lits
    ensures ConsistentOk(formula, clauses[c := Swapped(clauses[c], a, b)], s)
  {
    var cls := Swapped(clauses[c], a, b);
    ConsistentIs(formula, clauses, s);
    assert NoRepeats(clauses[c]);
    SwapSet(clauses[c], a, b);
    SwapNoRepeats(clauses[c], a, b);
    if a == 0 {
      NotBoth(s.lits, clauses[c][0].Not());
    }
    ReorderKeeps(formula, clauses, s, c, cls);
    ConsistentIs(formula, clauses[c := cls], s);
  }

  lemma BinStillOk(clauses: seq<Clause>, wb: Watches, c: nat, cls: Clause)
    requires BinWatchedOk(clauses, wb) && c < |clauses| && |clauses[c]| > 2 && |cls| == |clauses[c]|
    ensures BinWatchedOk(clauses[c := cls], wb)
  {
    BinWatchedIs(clauses, wb);
    BinStill(clauses, wb, c, cls);
    BinWatchedIs(clauses[c := cls], wb);
  }

  lemma SwapWatchedOk(clauses: seq<Clause>, ws: Watches, c: nat)
    requires WatchedOk(clauses, ws) && c < |clauses| && |clauses[c]| > 2
    ensures WatchedOk(clauses[c := Swapped(clauses[c], 0, 1)], ws)
  {
    WatchedIs(clauses, ws);
    SwapWatched(clauses, ws, c);
    WatchedIs(clauses[c := Swapped(clauses[c], 0, 1)], ws);
  }

  /** The false literal of a clause is put second. */
  lemma SwapStep(formula: seq<Clause>, clauses: seq<Clause>, s: Trail, ws: Watches, wb: Watches,
                 n: nat, l: seq<Watcher>, i: nat, j: nat, c: nat)
    requires InList(formula, clauses, s, ws, wb, n, l, i, j)
    requires c < |clauses| && |clauses[c]| > 2 && clauses[c][0] == s.lits[n - 1].Not()
    ensures InList(formula, clauses[c := Swapped(clauses[c], 0, 1)], s, ws, wb, n, l, i, j)
  {
    SwapWatchedOk(clauses, Virtual(ws, s.lits[n - 1], l, i, j), c);
    BinStillOk(clauses, wb, c, Swapped(clauses[c], 0, 1));
    assert clauses[c][0].Not() == s.lits[n - 1];
    SwapReorders(formula, clauses, s, c, 0, 1);
  }

  // ----- watching another literal -----

  lemma MoveWatches(clauses: seq<Clause>, ws: Watches, p: Lit, l: seq<Watcher>, i: nat, j: nat, m: nat)
    requires j <= i < |l| && WatchedOk(clauses, Virtual(ws, p, l, i, j)) && Moving(clauses, p, l[i].cref, m)
    ensures var c := l[i].cref;
      var q := clauses[c][m].Not();
      WatchedOk(clauses[c := Swapped(clauses[c], 1, m)],
                Virtual(ws[q := At(ws, q) + [Watcher(c, clauses[c][0])]], p, l, i + 1, j))
  {
    var c := l[i].cref;
    var q, w, cls := clauses[c][m].Not(), Watcher(c, clauses[c][0]), Swapped(clauses[c], 1, m);
    var v := Virtual(ws, p, l, i, j);
    WatchedIs(clauses, v);
    MovedEntry(clauses, p, c, m);
    MoveVirtual(ws, p, l, i, j, q, w);
    MoveWatched(clauses, v, p, j, m);
    WatchedIs(clauses[c := cls], Virtual(ws[q := At(ws, q) + [w]], p, l, i + 1, j));
  }

  /** A clause with another literal that is not false watches that one. */
  lemma MoveStep(formula: seq<Clause>, clauses: seq<Clause>, s: Trail, ws: Watches, wb: Watches,
                 n: nat, l: seq<Watcher>, i: nat, j: nat, m: nat)
    requires InList(formula, clauses, s, ws, wb, n, l, i, j) && i < |l|
    requires Moving(clauses, s.lits[n - 1], l[i].cref, m) && clauses[l[i].cref][m].Not() !in s.lits
    ensures var c := l[i].cref;
      var q := clauses[c][m].Not();
      InList(formula, clauses[c := Swapped(clauses[c], 1, m)], s,
             ws[q := At(ws, q) + [Watcher(c, clauses[c][0])]], wb, n, l, i + 1, j)
  {
    var p, c := s.lits[n - 1], l[i].cref;
    var q, w := clauses[c][m].Not(), Watcher(c, clauses[c][0]);
    MoveWatches(clauses, ws, p, l, i, j, m);
    BinStillOk(clauses, wb, c, Swapped(clauses[c], 1, m));
    SwapReorders(formula, clauses, s, c, 1, m);
    ConsistentIs(formula, clauses, s);
    OtherGuards(s, Virtual(ws, p, l, i, j), n, Virtual(ws[q := At(ws, q) + [w]], p, l, i + 1, j));
  }

  // ----- an implied assignment -----

  lemma GuardsImplied(s: Trail, t: Trail, ws: Watches, n: nat, first: Lit)
    requires GuardsOk(s, ws, n) && s.IsFree(first) && n <= |s.lits| && Leveled(t)
    requires t.lits == s.lits + [first] && t.level == s.level[first.x := |s.lims|]
    ensures GuardsOk(t, ws, n)
  {
    GuardsIs(s, ws, n);
    LevelsStay(s, t, first);
    GuardsStay(s, t, ws, n);
    GuardsIs(t, ws, n);
  }

  lemma KeptImplied(s: Trail, t: Trail, p: Lit, l: seq<Watcher>, j: nat, first: Lit)
    requires Leveled(s) && Leveled(t) && KeptGuarded(s, p, l, j) && p in s.lits && s.IsFree(first)
    requires t.lits == s.lits + [first] && t.level == s.level[first.x := |s.lims|]
    ensures KeptGuarded(t, p, l, j)
  {
    LevelsStay(s, t, first);
    forall k | 0 <= k < j
      ensures Guarded(t, p, l[k])
    {
      GuardStays(s, t, p, l[k]);
    }
  }

  lemma ImpliedConsistent(formula: seq<Clause>, clauses: seq<Clause>, s: Trail, first: Lit, c: nat)
    requires ConsistentOk(formula, clauses, s) && s.IsFree(first) && c < |clauses| && Forces(s, clauses[c], first)
    ensures ConsistentOk(formula, clauses, Implying(s, first, c)) && Leveled(s) && Leveled(Implying(s, first, c))
    ensures forall i | 0 <= i < |s.lits| :: s.lits[i].x != first.x
  {
    ConsistentIs(formula, clauses, s);
    ImplyKeeps(formula, clauses, s, first, c);
    FreeApart(s.lits, first);
    ConsistentIs(formula, clauses, Implying(s, first, c));
  }

  lemma ImpliedStep(formula: seq<Clause>, clauses: seq<Clause>, s: Trail, ws: Watches, wb: Watches,
                    n: nat, l: seq<Watcher>, i: nat, j: nat, c: nat, first: Lit)
    requires InList(formula, clauses, s, ws, wb, n, l, i, j)
    requires c < |clauses| && s.IsFree(first) && Forces(s, clauses[c], first)
    ensures InList(formula, clauses, Implying(s, first, c), ws, wb, n, l, i, j)
  {
    var t := Implying(s, first, c);
    var p := s.lits[n - 1];
    ImpliedConsistent(formula, clauses, s, first, c);
    assert t.lits[n - 1] == p;
    GuardsImplied(s, t, wb, n, first);
    GuardsImplied(s, t, Virtual(ws, p, l, i, j), n - 1, first);
    KeptImplied(s, t, p, l, j, first);
  }

  /** A clause with one literal left forces it. */
  lemma UnitStep(formula: seq<Clause>, clauses: seq<Clause>, s: Trail, ws: Watches, wb: Watches,
                 n: nat, l: seq<Watcher>, i: nat, j: nat, w: Watcher)
    requires InList(formula, clauses, s, ws, wb, n, l, i, j) && i < |l|
    requires w.cref == l[i].cref && EntryOk(clauses, s.lits[n - 1], w) && s.IsFree(w.blocker)
    requires Forces(s, clauses[w.cref], w.blocker)
    ensures InList(formula, clauses, Implying(s, w.blocker, w.cref), ws, wb, n, l[j := w], i + 1, j + 1)
  {
    var t := Implying(s, w.blocker, w.cref);
    ImpliedStep(formula, clauses, s, ws, wb, n, l, i, j, w.cref, w.blocker);
    assert t.lits[n - 1] == s.lits[n - 1];
    assert t.lits[|s.lits|] == w.blocker;
    KeepStep(formula, clauses, t, ws, wb, n, l, i, j, w);
  }

  // ----- the binary clauses of one literal -----

  /** What the loop over the binary clauses keeps: the first k are guarded. */
  ghost predicate InBin(formula: seq<Clause>, clauses: seq<Clause>, s: Trail, ws: Watches, wb: Watches, n: nat, k: nat) {
    && Reading(s, n, [], 0, 0) && ConsistentOk(formula, clauses, s)
    && WatchedOk(clauses, ws) && BinWatchedOk(clauses, wb)
    && GuardsOk(s, ws, n - 1) && GuardsOk(s, wb, n - 1)
    && KeptGuarded(s, s.lits[n - 1], At(wb, s.lits[n - 1]), k)
  }

  lemma NextBinEntry(clauses: seq<Clause>, wb: Watches, p: Lit, k: nat)
    requires BinWatchedOk(clauses, wb) && k < |At(wb, p)|
    ensures BinEntryOk(clauses, p, At(wb, p)[k])
  {
    BinWatchedIs(clauses, wb);
    assert p in wb && BinListOk(clauses, p, wb[p]);
  }

  lemma BinForces(s: Trail, cls: Clause, p: Lit, blocker: Lit)
    requires p in s.lits && |cls| == 2 && LitSet(cls) == {p.Not(), blocker}
    ensures Forces(s, cls, blocker) && p.Not() in cls
  {
    assert blocker in LitSet(cls) && p.Not() in LitSet(cls);
    forall q | q in cls && q != blocker
      ensures q.Not() in s.lits
    {
      assert q in LitSet(cls);
      assert q.Not() == p;
    }
  }

  /** The clause of the next watcher has the true literal's negation and the
      blocker. */
  lemma NextBinary(clauses: seq<Clause>, s: Trail, wb: Watches, p: Lit, k: nat)
    requires BinWatchedOk(clauses, wb) && k < |At(wb, p)| && p in s.lits
    ensures var w := At(wb, p)[k];
      && w.cref < |clauses| && |clauses[w.cref]| == 2
      && Forces(s, clauses[w.cref], w.blocker) && p.Not() in clauses[w.cref]
  {
    var w := At(wb, p)[k];
    NextBinEntry(clauses, wb, p, k);
    BinForces(s, clauses[w.cref], p, w.blocker);
  }

  lemma BinKeep(formula: seq<Clause>, clauses: seq<Clause>, s: Trail, ws: Watches, wb: Watches, n: nat, k: nat)
    requires InBin(formula, clauses, s, ws, wb, n, k) && k < |At(wb, s.lits[n - 1])|
    requires At(wb, s.lits[n - 1])[k].blocker in s.lits
    ensures InBin(formula, clauses, s, ws, wb, n, k + 1)
  {
    ConsistentIs(formula, clauses, s);
    TrueGuards(s, s.lits[n - 1], At(wb, s.lits[n - 1])[k]);
  }

  /** In a false binary clause the literal that became false later is still in the
      queue: had it been propagated, the clause would have a true literal. */
  lemma LaterQueued(formula: seq<Clause>, clauses: seq<Clause>, s: Trail, ws: Watches, wb: Watches, n: nat, k: nat)
    requires 0 < n <= |s.lits| && InBin(formula, clauses, s, ws, wb, n, k) && k < |At(wb, s.lits[n - 1])|
    requires At(wb, s.lits[n - 1])[k].blocker.Not() in s.lits
    ensures n < |s.lits|
  {
    var p, w := s.lits[n - 1], At(wb, s.lits[n - 1])[k];
    ConsistentIs(formula, clauses, s);
    NextBinEntry(clauses, wb, p, k);
    var m :| 0 <= m < |s.lits| && s.lits[m] == w.blocker.Not();
    if m < n - 1 {
      GuardsIs(s, wb, n - 1);
      var j := OtherEntry(clauses, wb, w.cref, p.Not(), w.blocker);
      var e := At(wb, s.lits[m])[j];
      assert Guarded(s, s.lits[m], e);
      NotBoth(s.lits, p);
    }
  }

  /** The other literal of a binary clause has an entry with this one as blocker. */
  lemma OtherEntry(clauses: seq<Clause>, wb: Watches, c: nat, a: Lit, b: Lit) returns (j: nat)
    requires BinWatchedOk(clauses, wb) && c < |clauses| && |clauses[c]| == 2 && LitSet(clauses[c]) == {a, b} && a != b
    ensures j < |At(wb, b.Not())| && At(wb, b.Not())[j].blocker == a
  {
    BinWatchedIs(clauses, wb);
    var cls := clauses[c];
    assert b in LitSet(cls);
    assert BinListed(wb, cls, c) && Has(At(wb, b.Not()), c);
    j :| 0 <= j < |At(wb, b.Not())| && At(wb, b.Not())[j].cref == c;
    NextBinEntry(clauses, wb, b.Not(), j);
    assert a in LitSet(cls);
  }

  lemma BinUnit(formula: seq<Clause>, clauses: seq<Clause>, s: Trail, ws: Watches, wb: Watches, n: nat, k: nat)
    requires InBin(formula, clauses, s, ws, wb, n, k) && k < |At(wb, s.lits[n - 1])|
    requires s.IsFree(At(wb, s.lits[n - 1])[k].blocker)
    ensures var w := At(wb, s.lits[n - 1])[k];
      InBin(formula, clauses, Implying(s, w.blocker, w.cref), ws, wb, n, k + 1)
  {
    var p := s.lits[n - 1];
    var w := At(wb, p)[k];
    var t := Implying(s, w.blocker, w.cref);
    NextBinary(clauses, s, wb, p, k);
    ImpliedConsistent(formula, clauses, s, w.blocker, w.cref);
    assert t.lits[n - 1] == p && t.lits[|s.lits|] == w.blocker;
    GuardsImplied(s, t, ws, n - 1, w.blocker);
    GuardsImplied(s, t, wb, n - 1, w.blocker);
    KeptImplied(s, t, p, At(wb, p), k, w.blocker);
    BinKeep(formula, clauses, t, ws, wb, n, k);
  }

  lemma OneMoreGuarded(s: Trail, ws: Watches, n: nat)
    requires Leveled(s) && 0 < n <= |s.lits| && GuardsOk(s, ws, n - 1)
    requires KeptGuarded(s, s.lits[n - 1], At(ws, s.lits[n - 1]), |At(ws, s.lits[n - 1])|)
    ensures GuardsOk(s, ws, n)
  {
    GuardsIs(s, ws, n - 1);
    forall m, k | 0 <= m < n && 0 <= k < |At(ws, s.lits[m])|
      ensures Guarded(s, s.lits[m], At(ws, s.lits[m])[k])
    {
      if m < n - 1 {
        assert Guarded(s, s.lits[m], At(ws, s.lits[m])[k]);
      }
    }
    GuardsIs(s, ws, n);
  }

  /** From the binary clauses to the others. */
  lemma BinDone(formula: seq<Clause>, clauses: seq<Clause>, s: Trail, ws: Watches, wb: Watches, n: nat)
    requires 0 < n <= |s.lits| && InBin(formula, clauses, s, ws, wb, n, |At(wb, s.lits[n - 1])|)
    ensures InList(formula, clauses, s, ws, wb, n, At(ws, s.lits[n - 1]), 0, 0)
  {
    var p := s.lits[n - 1];
    ConsistentIs(formula, clauses, s);
    OneMoreGuarded(s, wb, n);
    var v := Virtual(ws, p, At(ws, p), 0, 0);
    assert At(ws, p)[..0] + At(ws, p)[0..] == At(ws, p);
    assert forall q :: At(v, q) == At(ws, q);
    OtherGuards(s, ws, n, v);
    SameWatched(clauses, ws, v);
  }

  /** An absent list is an empty one. */
  lemma SameWatched(clauses: seq<Clause>, a: Watches, b: Watches)
    requires WatchedOk(clauses, a) && forall q :: At(a, q) == At(b, q)
    ensures WatchedOk(clauses, b)
  {
    WatchedIs(clauses, a);
    forall q | q in b
      ensures ListOk(clauses, q, b[q])
    {
      assert At(b, q) == At(a, q);
    }
    forall c | 0 <= c < |clauses|
      ensures Listed(b, clauses[c], c)
    {
      assert Listed(a, clauses[c], c);
    }
    WatchedIs(clauses, b);
  }

  /** At the end of the list. */
  lemma ListDone(formula: seq<Clause>, clauses: seq<Clause>, s: Trail, ws: Watches, wb: Watches,
                 n: nat, l: seq<Watcher>, j: nat)
    requires InList(formula, clauses, s, ws, wb, n, l, |l|, j)
    ensures WatchedOk(clauses, ws[s.lits[n - 1] := l[..j]]) && GuardsOk(s, ws[s.lits[n - 1] := l[..j]], n)
  {
    var p := s.lits[n - 1];
    VirtualEnd(ws, p, l, j);
    ConsistentIs(formula, clauses, s);
    OneMoreGuarded(s, ws[p := l[..j]], n);
  }

  // ----- a conflict -----

  /** The clause is false and mentions the current level. */
  ghost predicate Conflicts(s: Trail, cls: Clause) {
    && AllFalse(s.lits, LitSet(cls), |s.lits|)
    && exists q :: q in cls && q.x in s.level && s.level[q.x] == |s.lims|
  }

  lemma FalseConflicts(s: Trail, cls: Clause, p: Lit)
    requires p.Not() in cls && p.x in s.level && s.level[p.x] == |s.lims|
    requires forall q | q in cls :: q.Not() in s.lits
    ensures Conflicts(s, cls)
  {
    forall q | q in LitSet(cls)
      ensures FalseBy(s.lits, q, |s.lits|)
    {
      var k :| 0 <= k < |s.lits| && s.lits[k] == q.Not();
    }
    assert p.Not().x == p.x;
  }

  /** When the rest of a list is copied, nothing changes. */
  lemma CopyOne(ws: Watches, p: Lit, l: seq<Watcher>, i: nat, j: nat)
    requires j <= i < |l|
    ensures Virtual(ws, p, l[j := l[i]], i + 1, j + 1) == Virtual(ws, p, l, i, j)
  {
    KeepVirtual(ws, p, l, i, j, l[i]);
    assert (l[..j] + l[i..])[j := l[i]] == l[..j] + l[i..];
  }

  /** Where the current level starts. */
  function LastLim(s: Trail): nat {
    if s.lims == [] then 0 else s.lims[|s.lims| - 1]
  }

  lemma FewerGuards(s: Trail, ws: Watches, n: nat, m: nat)
    requires GuardsOk(s, ws, n) && m <= n
    ensures GuardsOk(s, ws, m)
  {
    GuardsIs(s, ws, n);
    GuardsIs(s, ws, m);
  }

  lemma CurrentLate(s: Trail, n: nat)
    requires Leveled(s) && 0 < n <= |s.lits| && s.level[s.lits[n - 1].x] == |s.lims|
    ensures LastLim(s) <= n - 1
  {
    if s.lims != [] {
      assert s.lims[|s.lims| - 1] <= n - 1 <==> |s.lims| - 1 < s.level[s.lits[n - 1].x];
    }
  }

  // ----- the queue -----

  /** What is still to be propagated belongs to the current level. */
  ghost predicate QueueOk(s: Trail, n: nat) {
    n <= |s.lits| && forall m | n <= m < |s.lits| :: s.lits[m].x in s.level && s.level[s.lits[m].x] == |s.lims|
  }

  ghost predicate Known(clauses: seq<Clause>, s: Trail, vars: set<nat>) {
    && (forall c | 0 <= c < |clauses| :: KnownClause(clauses[c], vars))
    && forall q | q in s.lits :: q.x in vars
  }

  ghost predicate KnownClause(cls: Clause, vars: set<nat>) {
    forall q | q in cls :: q.x in vars
  }

  /** What is known of a variable is the same. */
  ghost predicate SameData(s: Trail, t: Trail, x: nat) {
    && (x in s.level ==> x in t.level && t.level[x] == s.level[x])
    && (x in s.reason <==> x in t.reason)
  }

  ghost predicate NewImplied(t: Trail, n: nat) {
    forall i | n <= i < |t.lits| :: t.lits[i].x in t.reason
  }

  /** The second trail has more implied assignments at the same level. */
  ghost predicate Extends(s: Trail, t: Trail) {
    t.lims == s.lims && s.lits <= t.lits && (forall q | q in s.lits :: SameData(s, t, q.x)) && NewImplied(t, |s.lits|)
  }

  lemma ExtendsMore(s: Trail, t: Trail, u: Trail)
    requires Extends(s, t) && Extends(t, u)
    ensures Extends(s, u)
  {
    forall q | q in s.lits
      ensures SameData(s, u, q.x)
    {
      var k :| 0 <= k < |s.lits| && s.lits[k] == q;
      assert t.lits[k] == q;
      assert SameData(s, t, q.x) && SameData(t, u, q.x);
    }
    forall i | |s.lits| <= i < |u.lits|
      ensures u.lits[i].x in u.reason
    {
      if i < |t.lits| {
        assert t.lits[i] == u.lits[i];
        assert t.lits[i] in t.lits;
        assert SameData(t, u, t.lits[i].x);
      }
    }
  }

  lemma ImplyExtends(s: Trail, p: Lit, c: nat)
    requires s.IsFree(p)
    ensures Extends(s, Implying(s, p, c))
  {
    FreeApart(s.lits, p);
    var t := Implying(s, p, c);
    forall q | q in s.lits
      ensures SameData(s, t, q.x)
    {
      var k :| 0 <= k < |s.lits| && s.lits[k] == q;
      assert s.lits[k].x != p.x;
    }
  }

  lemma OneMoreQueued(clauses: seq<Clause>, s: Trail, vars: set<nat>, n: nat, p: Lit, c: nat)
    requires QueueOk(s, n) && Known(clauses, s, vars) && c < |clauses| && p in clauses[c] && s.IsFree(p)
    ensures QueueOk(Implying(s, p, c), n) && Known(clauses, Implying(s, p, c), vars) && Extends(s, Implying(s, p, c))
  {
    assert KnownClause(clauses[c], vars);
    FreeApart(s.lits, p);
    ImplyExtends(s, p, c);
    var t := Implying(s, p, c);
    forall m | n <= m < |t.lits|
      ensures t.lits[m].x in t.level && t.level[t.lits[m].x] == |t.lims|
    {
      assert m < |s.lits| ==> t.lits[m] == s.lits[m];
    }
  }

  lemma KnownReordered(clauses: seq<Clause>, s: Trail, vars: set<nat>, c: nat, cls: Clause)
    requires Known(clauses, s, vars) && c < |clauses| && LitSet(cls) == LitSet(clauses[c])
    ensures Known(clauses[c := cls], s, vars)
  {
    assert KnownClause(clauses[c], vars);
    forall q | q in cls
      ensures q.x in vars
    {
      assert q in LitSet(cls);
      assert q in clauses[c];
    }
  }

  // ----- the clause of a watcher -----

  lemma ClauseOnce(formula: seq<Clause>, clauses: seq<Clause>, s: Trail, c: nat)
    requires ConsistentOk(formula, clauses, s) && c < |clauses|
    ensures NoRepeats(clauses[c])
  {
    ConsistentIs(formula, clauses, s);
  }

  /** The first literal is a blocker when the second one is false. */
  lemma FirstBlocks(cls: Clause, p: Lit)
    requires |cls| > 2 && cls[1] == p.Not() && NoRepeats(cls)
    ensures WatchesWith(cls, p, cls[0])
  {
  }

  /** All literals from the third on are false. */
  ghost predicate RestFalse(s: Trail, cls: Clause, n: nat) {
    forall k | 2 <= k < n && k < |cls| :: cls[k].Not() in s.lits
  }

  lemma LastLeft(s: Trail, cls: Clause, p: Lit)
    requires |cls| > 2 && cls[1] == p.Not() && p in s.lits && RestFalse(s, cls, |cls|)
    ensures Forces(s, cls, cls[0])
    ensures cls[0].Not() in s.lits ==> forall q | q in cls :: q.Not() in s.lits
  {
    forall q | q in cls && q != cls[0]
      ensures q.Not() in s.lits
    {
      var k :| 0 <= k < |cls| && cls[k] == q;
      assert k == 1 || cls[k].Not() in s.lits;
    }
  }

  lemma TakeOne(formula: seq<Clause>, clauses: seq<Clause>, s: Trail, ws: Watches, wb: Watches, n: nat, vars: set<nat>)
    requires ConsistentOk(formula, clauses, s) && WatchedOk(clauses, ws) && BinWatchedOk(clauses, wb)
    requires GuardsOk(s, ws, n) && GuardsOk(s, wb, n) && QueueOk(s, n) && n < |s.lits|
    ensures InBin(formula, clauses, s, ws, wb, n + 1, 0) && QueueOk(s, n + 1)
  {
  }

  lemma LateEnough(formula: seq<Clause>, clauses: seq<Clause>, s: Trail, n: nat)
    requires ConsistentOk(formula, clauses, s) && QueueOk(s, n) && n < |s.lits|
    ensures LastLim(s) <= n
  {
    ConsistentIs(formula, clauses, s);
    CurrentLate(s, n + 1);
  }

  lemma {:induction false} DistinctCount(lits: seq<Lit>, vars: set<nat>)
    requires DistinctVars(lits) && forall q | q in lits :: q.x in vars
    ensures |lits| <= |vars|
  {
    if lits != [] {
      var last := lits[|lits| - 1];
      var less := lits[..|lits| - 1];
      forall q | q in less
        ensures q.x in vars - {last.x}
      {
        var k :| 0 <= k < |less| && less[k] == q;
        assert lits[k] == q;
      }
      DistinctCount(less, vars - {last.x});
      assert last in lits;
      assert vars == (vars - {last.x}) + {last.x};
    }
  }

  /** No more assignments than variables. */
  lemma TrailBounded(formula: seq<Clause>, clauses: seq<Clause>, s: Trail, vars: set<nat>)
    requires ConsistentOk(formula, clauses, s) && Known(clauses, s, vars)
    ensures |s.lits| <= |vars|
  {
    ConsistentIs(formula, clauses, s);
    DistinctCount(s.lits, vars);
  }

  /** When the queue is empty every clause is settled. */
  lemma AllSettled(formula: seq<Clause>, clauses: seq<Clause>, s: Trail, ws: Watches, wb: Watches)
    requires ConsistentOk(formula, clauses, s) && WatchedOk(clauses, ws) && BinWatchedOk(clauses, wb)
    requires GuardsOk(s, ws, |s.lits|) && GuardsOk(s, wb, |s.lits|)
    ensures forall c | 0 <= c < |clauses| && |clauses[c]| > 1 :: Settled(s, clauses[c])
  {
    forall c | 0 <= c < |clauses| && |clauses[c]| > 1
      ensures Settled(s, clauses[c])
    {
      OneSettled(formula, clauses, s, ws, wb, c);
    }
  }

  lemma OneSettled(formula: seq<Clause>, clauses: seq<Clause>, s: Trail, ws: Watches, wb: Watches, c: nat)
    requires WatchedOk(clauses, ws) && BinWatchedOk(clauses, wb)
    requires GuardsOk(s, ws, |s.lits|) && GuardsOk(s, wb, |s.lits|) && c < |clauses| && |clauses[c]| > 1
    ensures Settled(s, clauses[c])
  {
    if |clauses[c]| > 2 {
      GuardsIs(s, ws, |s.lits|);
      WatchedIs(clauses, ws);
      LongSettled(clauses, s, ws, c);
    } else {
      GuardsIs(s, wb, |s.lits|);
      BinWatchedIs(clauses, wb);
      BinSettled(clauses, s, wb, c);
    }
  }
}
