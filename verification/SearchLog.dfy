/** A record of what the search does: the rounds it starts, the decisions, the clauses
    learnt with the conflicts they come from, and the assumptions that fail
    (src/sat/solvers/glucose/src/core/Solver.cc:1463-1660). */
module SearchLogs {
  import opened Trails
  import opened WatchLists
  import opened Assumptions

  datatype Event =
    | Started(limit: nat)
    | Decision(p: Lit)
    | Failed(assumps: seq<Lit>, db: seq<Clause>, at: Trail, p: Lit, core: seq<Lit>)
    | Learnt(db: seq<Clause>, bins: Watches, at: Trail, confl: nat, uip: Clause, thin: Clause, clause: Clause, level: nat)

  type Log = seq<Event>

  function CountLearnt(log: Log): nat {
    if log == [] then 0 else CountLearnt(log[..|log| - 1]) + if log[|log| - 1].Learnt? then 1 else 0
  }

  /** The limits of the rounds started, in order. */
  function Starts(log: Log): seq<nat> {
    if log == [] then []
    else Starts(log[..|log| - 1]) + if log[|log| - 1].Started? then [log[|log| - 1].limit] else []
  }

  /** The next assumption is false: the answer is its negation and the negations of
      exactly the decisions that reasons lead back to. */
  ghost predicate Fails(e: Event) {
    && e.Failed? && |e.at.lims| < |e.assumps| && e.p == e.assumps[|e.at.lims|] && e.at.IsFalse(e.p)
    && |e.core| > 0 && e.core[0] == e.p.Not() && e.p.x in e.at.level
    && if e.at.level[e.p.x] == 0 then e.core == [e.p.Not()]
       else
         && ExactlyBehind(e.db, e.at, e.p.x, LitSet(e.core[1..]))
         && forall k | 1 <= k < |e.core| :: e.core[k].Not() in e.at.lits && e.core[k].x !in e.at.reason
  }

  /** The same, kept folded: the argument n does not matter. */
  ghost predicate FailsFolded(e: Event, n: nat)
    decreases n
  {
    if n == 0 then Fails(e) else FailsFolded(e, n - 1)
  }

  ghost predicate FailsOk(e: Event) {
    FailsFolded(e, if e.Failed? then |e.core| else 0)
  }

  lemma {:induction false} FailsIs(e: Event, n: nat)
    ensures FailsFolded(e, n) <==> Fails(e)
    decreases n
  {
    if n > 0 {
      FailsIs(e, n - 1);
    }
  }

  /** The event needs fewer conflicts than are allowed. */
  predicate Early(e: Event) {
    e.Decision? || e.Failed?
  }

  /** The events of one round: a decision is made, or an assumption fails, only after
      fewer conflicts than are allowed. */
  ghost predicate OneRound(log: Log, limit: nat) {
    forall i | 0 <= i < |log| :: !log[i].Started? && (Early(log[i]) ==> CountLearnt(log[..i]) < limit)
  }

  lemma MoreInRound(log: Log, limit: nat, e: Event)
    requires OneRound(log, limit) && !e.Started? && (Early(e) ==> CountLearnt(log) < limit)
    ensures OneRound(log + [e], limit)
    ensures CountLearnt(log + [e]) == CountLearnt(log) + if e.Learnt? then 1 else 0
  {
    var more := log + [e];
    assert more[..|log|] == log;
    forall i | 0 <= i < |more|
      ensures !more[i].Started? && (Early(more[i]) ==> CountLearnt(more[..i]) < limit)
    {
      if i < |log| {
        assert more[..i] == log[..i];
      }
    }
  }

  lemma {:induction false} StartsConcat(a: Log, b: Log)
    ensures Starts(a + b) == Starts(a) + Starts(b)
  {
    if b == [] {
      assert a + b == a;
    } else {
      StartsConcat(a, b[..|b| - 1]);
      assert (a + b)[..|a + b| - 1] == a + b[..|b| - 1];
    }
  }

  lemma {:induction false} NoStarts(log: Log, limit: nat)
    requires OneRound(log, limit)
    ensures Starts(log) == []
  {
    if log != [] {
      var less := log[..|log| - 1];
      forall i | 0 <= i < |less|
        ensures !less[i].Started? && (Early(less[i]) ==> CountLearnt(less[..i]) < limit)
      {
        assert less[i] == log[i] && less[..i] == log[..i];
      }
      NoStarts(less, limit);
    }
  }

  /** One more round. */
  lemma RoundStarts(log: Log, limit: nat, round: Log)
    requires OneRound(round, limit)
    ensures Starts(log + [Started(limit)] + round) == Starts(log) + [limit]
  {
    StartsConcat(log + [Started(limit)], round);
    StartsConcat(log, [Started(limit)]);
    NoStarts(round, limit);
    assert [Started(limit)][..0] == [];
  }
}
