/** The delta-encoded trace: every lemma sits in exactly one frame
    (src/pme/ic3/inductive_trace.cpp). */
module InductiveTraces {
  import opened Ids

  type LemmaID = nat

  /** A frame number or the infinity frame. */
  datatype Level = Fin(k: nat) | Inf

  predicate Le(a: Level, b: Level) {
    b.Inf? || (a.Fin? && a.k <= b.k)
  }

  /** The abstract trace: the level of each lemma's cube. */
  type Trace = map<Cube, Level>

  /** The full frame at a level: the lemmas at or above it. */
  function FrameCubes(m: Trace, level: Level): set<Cube> {
    set c | c in m && Le(level, m[c])
  }

  datatype LemmaData = LemmaData(cube: Cube, level: Level)

  datatype Frames = Frames(fin: seq<set<LemmaID>>, inf: set<LemmaID>)
  {
    /** The lemmas stored in one frame; a frame past the end is empty. */
    function At(level: Level): set<LemmaID> {
      match level
      case Inf => inf
      case Fin(k) => if k < |fin| then fin[k] else {}
    }
  }

  /** A lemma is in the frame of its level and in no other. */
  ghost predicate Placed(f: Frames, lemmas: seq<LemmaData>) {
    && (forall level, id {:trigger id in f.At(level)} | id in f.At(level) :: id < |lemmas| && lemmas[id].level == level)
    && (forall id: LemmaID | id < |lemmas| :: id in f.At(lemmas[id].level))
  }

  /** Cubes and lemmas correspond one to one, and the abstract trace reads the
      level stored with the lemma. */
  ghost predicate Indexed(lemmas: seq<LemmaData>, ids: map<Cube, LemmaID>, levels: Trace) {
    && (forall id: LemmaID | id < |lemmas| :: lemmas[id].cube in ids && ids[lemmas[id].cube] == id)
    && (forall c | c in ids :: ids[c] < |lemmas| && lemmas[ids[c]].cube == c)
    && (forall c :: c in levels <==> c in ids)
    && (forall c | c in levels :: levels[c] == lemmas[ids[c]].level)
  }

  /** Both, kept folded: the argument n does not matter. */
  ghost predicate Stored(f: Frames, lemmas: seq<LemmaData>, ids: map<Cube, LemmaID>, levels: Trace, n: nat) {
    if n == 0 then Indexed(lemmas, ids, levels) && Placed(f, lemmas) else Stored(f, lemmas, ids, levels, n - 1)
  }

  lemma {:induction false} UnfoldStored(f: Frames, lemmas: seq<LemmaData>, ids: map<Cube, LemmaID>, levels: Trace, n: nat)
    ensures Stored(f, lemmas, ids, levels, n) <==> Indexed(lemmas, ids, levels) && Placed(f, lemmas)
  {
    if n > 0 {
      UnfoldStored(f, lemmas, ids, levels, n - 1);
    }
  }

  /** g is f with one more lemma in one frame. */
  ghost predicate Added(f: Frames, g: Frames, id: LemmaID, level: Level) {
    && g.At(level) == f.At(level) + {id}
    && (forall l :: l != level ==> g.At(l) == f.At(l))
  }

  ghost predicate Removed(f: Frames, g: Frames, id: LemmaID, level: Level) {
    && g.At(level) == f.At(level) - {id}
    && (forall l :: l != level ==> g.At(l) == f.At(l))
  }

  /** g is f with one lemma in another frame. */
  ghost predicate Moved(f: Frames, g: Frames, id: LemmaID, from: Level, to: Level) {
    forall l :: g.At(l) == if l == to then (f.At(l) - (if l == from then {id} else {})) + {id}
                           else if l == from then f.At(l) - {id}
                           else f.At(l)
  }

  ghost predicate SameBelow(f: Frames, g: Frames, k: nat) {
    forall l: Level | l.Fin? && l.k < k :: f.At(l) == g.At(l)
  }

  lemma RemovedAdded(f: Frames, g: Frames, h: Frames, id: LemmaID, from: Level, to: Level)
    requires Removed(f, g, id, from) && Added(g, h, id, to)
    ensures Moved(f, h, id, from, to)
  {
  }

  lemma MovedToInf(frames: Frames, f: Frames, g: Frames, id: LemmaID, i: nat, k: nat)
    requires Moved(f, g, id, Fin(i), Inf) && k <= i && SameBelow(frames, f, k)
    ensures SameBelow(frames, g, k) && g.At(Fin(i)) == f.At(Fin(i)) - {id}
  {
  }

  /** Empty frames were dropped from the end, down to the last one in use. */
  lemma TrimmedTo(f: Frames, g: Frames, k: nat)
    requires 1 <= k <= |f.fin| && (forall i | k <= i < |f.fin| :: f.fin[i] == {}) && (k > 1 ==> f.At(Fin(k - 1)) != {})
    requires 1 <= |g.fin| <= |f.fin| && (|g.fin| == 1 || g.fin[|g.fin| - 1] != {})
    requires forall l :: g.At(l) == f.At(l)
    ensures |g.fin| == k
  {
    assert g.At(Fin(k - 1)) == f.At(Fin(k - 1));
    var last := |g.fin| - 1;
    assert g.At(Fin(last)) == f.At(Fin(last));
  }

  lemma PlacedMove(f: Frames, g: Frames, h: Frames, lemmas: seq<LemmaData>, id: LemmaID, level: Level)
    requires Placed(f, lemmas) && id < |lemmas|
    requires Removed(f, g, id, lemmas[id].level) && Added(g, h, id, level)
    ensures Placed(h, lemmas[id := LemmaData(lemmas[id].cube, level)])
  {
    forall l, i | i in h.At(l)
      ensures i == id || i in f.At(l)
      ensures i == id ==> l == level
    {
      assert l == level || i in g.At(l);
      assert i in g.At(l) ==> i in f.At(l) && (i != id || l != lemmas[id].level);
    }
  }

  lemma IndexedMove(lemmas: seq<LemmaData>, ids: map<Cube, LemmaID>, levels: Trace, id: LemmaID, level: Level)
    requires Indexed(lemmas, ids, levels) && id < |lemmas|
    ensures Indexed(lemmas[id := LemmaData(lemmas[id].cube, level)], ids, levels[lemmas[id].cube := level])
  {
  }

  lemma StoredMove(f: Frames, g: Frames, h: Frames, lemmas: seq<LemmaData>, ids: map<Cube, LemmaID>, levels: Trace,
                   id: LemmaID, level: Level)
    requires Stored(f, lemmas, ids, levels, |lemmas|) && id < |lemmas|
    requires Removed(f, g, id, lemmas[id].level) && Added(g, h, id, level)
    ensures Stored(h, lemmas[id := LemmaData(lemmas[id].cube, level)], ids, levels[lemmas[id].cube := level], |lemmas|)
    ensures Moved(f, h, id, lemmas[id].level, level)
  {
    UnfoldStored(f, lemmas, ids, levels, |lemmas|);
    PlacedMove(f, g, h, lemmas, id, level);
    IndexedMove(lemmas, ids, levels, id, level);
    UnfoldStored(h, lemmas[id := LemmaData(lemmas[id].cube, level)], ids, levels[lemmas[id].cube := level], |lemmas|);
    RemovedAdded(f, g, h, id, lemmas[id].level, level);
  }

  lemma PlacedNew(f: Frames, h: Frames, lemmas: seq<LemmaData>, data: LemmaData)
    requires Placed(f, lemmas) && Added(f, h, |lemmas|, data.level)
    ensures Placed(h, lemmas + [data])
  {
  }

  lemma MovedUp(f: Frames, g: Frames, id: LemmaID, k: nat)
    requires Moved(f, g, id, Fin(k), Fin(k + 1))
    ensures SameBelow(f, g, k) && g.At(Fin(k)) == f.At(Fin(k)) - {id}
  {
  }

  /** The lemmas stored at finite levels from k upwards. */
  function UpperIds(lemmas: seq<LemmaData>, k: nat): set<LemmaID> {
    set id | 0 <= id < |lemmas| && lemmas[id].level.Fin? && lemmas[id].level.k >= k
  }

  lemma UpperIdsShrink(lemmas: seq<LemmaData>, k: nat, id: LemmaID)
    requires id < |lemmas| && lemmas[id].level == Fin(k)
    ensures |UpperIds(lemmas, k + 1)| < |UpperIds(lemmas, k)|
  {
    var less, more := UpperIds(lemmas, k + 1), UpperIds(lemmas, k);
    assert more == less + (more - less);
    assert id in more - less;
  }

  lemma UpperIdsMove(lemmas: seq<LemmaData>, id: LemmaID, k: nat)
    requires id < |lemmas| && lemmas[id].level == Fin(k)
    ensures UpperIds(lemmas[id := LemmaData(lemmas[id].cube, Fin(k + 1))], k) == UpperIds(lemmas, k)
  {
  }

  lemma TrimKeeps(f: Frames, k: nat)
    requires k <= |f.fin| && forall i :: k <= i < |f.fin| ==> f.fin[i] == {}
    ensures forall l :: f.(fin := f.fin[..k]).At(l) == f.At(l)
  {
  }

  /** How many finite frames there are once a level is used. */
  function Grown(frames: nat, level: Level): nat {
    if level.Fin? && frames <= level.k then level.k + 1 else frames
  }

  class InductiveTrace {
    var frames: Frames
    var lemmas: seq<LemmaData>
    var cubeToLemmaID: map<Cube, LemmaID>
    ghost var levels: Trace

    ghost predicate Valid()
      reads this
    {
      Stored(frames, lemmas, cubeToLemmaID, levels, |lemmas|)
    }

    lemma ValidIs()
      ensures Valid() <==> Indexed(lemmas, cubeToLemmaID, levels) && Placed(frames, lemmas)
    {
      UnfoldStored(frames, lemmas, cubeToLemmaID, levels, |lemmas|);
    }

    function NumFrames(): nat
      reads this
    {
      |frames.fin|
    }

    constructor ()
      ensures Valid() && levels == map[] && NumFrames() == 0
    {
      frames, lemmas, cubeToLemmaID, levels := Frames([], {}), [], map[], map[];
    }

    method Clear()
      modifies this
      ensures Valid() && levels == map[] && NumFrames() == 0
    {
      frames, lemmas, cubeToLemmaID, levels := Frames([], {}), [], map[], map[];
    }

    method AddLemmaToFrame(id: LemmaID, level: Level)
      modifies `frames
      ensures Added(old(frames), frames, id, level)
      ensures NumFrames() == Grown(old(NumFrames()), level)
    {
      match level {
        case Inf =>
          frames := frames.(inf := frames.inf + {id});
        case Fin(k) =>
          if |frames.fin| <= k {
            frames := frames.(fin := frames.fin + seq(k + 1 - |frames.fin|, _ => {}));
          }
          frames := frames.(fin := frames.fin[k := frames.fin[k] + {id}]);
      }
    }

    method RemoveLemmaFromFrame(id: LemmaID, level: Level)
      requires id in frames.At(level)
      modifies `frames
      ensures Removed(old(frames), frames, id, level)
      ensures NumFrames() == old(NumFrames())
    {
      match level {
        case Inf =>
          frames := frames.(inf := frames.inf - {id});
        case Fin(k) =>
          frames := frames.(fin := frames.fin[k := frames.fin[k] - {id}]);
      }
    }

    /** pushLemma: moves a lemma to a frame that is not lower. */
    method PushLemma(id: LemmaID, level: Level)
      requires Valid() && id < |lemmas| && Le(lemmas[id].level, level)
      modifies this
      ensures Valid() && levels == old(levels[lemmas[id].cube := level])
      ensures cubeToLemmaID == old(cubeToLemmaID)
      ensures lemmas == old(lemmas[id := LemmaData(lemmas[id].cube, level)])
      ensures Moved(old(frames), frames, id, old(lemmas[id].level), level)
      ensures NumFrames() == Grown(old(NumFrames()), level)
    {
      ValidIs();
      RemoveLemmaFromFrame(id, lemmas[id].level);
      ghost var between := frames;
      AddLemmaToFrame(id, level);
      StoredMove(old(frames), between, frames, lemmas, cubeToLemmaID, levels, id, level);
      levels := levels[lemmas[id].cube := level];
      lemmas := lemmas[id := LemmaData(lemmas[id].cube, level)];
    }

    /** addLemma: a known cube moves, a new one gets the next number. */
    method AddLemma(cube: Cube, level: Level) returns (id: LemmaID)
      requires Valid() && (cube in levels ==> Le(levels[cube], level))
      modifies this
      ensures Valid() && levels == old(levels)[cube := level]
      ensures id < |lemmas| && lemmas[id].cube == cube
      ensures NumFrames() == Grown(old(NumFrames()), level)
    {
      ValidIs();
      if cube in cubeToLemmaID {
        id := cubeToLemmaID[cube];
        PushLemma(id, level);
      } else {
        id := |lemmas|;
        AddLemmaToFrame(id, level);
        PlacedNew(old(frames), frames, lemmas, LemmaData(cube, level));
        lemmas := lemmas + [LemmaData(cube, level)];
        cubeToLemmaID := cubeToLemmaID[cube := id];
        levels := levels[cube := level];
        ValidIs();
      }
    }

    /** clearUnusedFrames: drops empty frames from the end, but not frame 0. */
    method ClearUnusedFrames()
      requires Valid() && NumFrames() > 0
      modifies `frames
      ensures Valid() && 1 <= NumFrames() <= old(NumFrames())
      ensures forall l :: frames.At(l) == old(frames.At(l))
      ensures NumFrames() == 1 || frames.fin[NumFrames() - 1] != {}
    {
      var k := |frames.fin|;
      while k > 1 && frames.fin[k - 1] == {}
        invariant 1 <= k <= NumFrames() && frames == old(frames)
        invariant forall i :: k <= i < NumFrames() ==> frames.fin[i] == {}
      {
        k := k - 1;
      }
      TrimKeeps(frames, k);
      ValidIs();
      frames := frames.(fin := frames.fin[..k]);
      ValidIs();
    }
  }
}
