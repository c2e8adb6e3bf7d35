# Verified models of the proof engines

This project models the algorithms of a hardware model checker that reason
around a SAT solver, and proves what each of them promises but nowhere states:
that an encoding preserves meaning, that an answer is optimal, inductive,
minimal or complete, and that the search for it ends.

Every query is answered by the CDCL core: `SatAdaptor.dfy` runs the class of
`CdclSolver.dfy` with the Luby restarts of the source, and its promise, a model or
a part of the assumptions that is already unsatisfiable, is proved of that search.
The MaxSAT solvers ask it directly, and through them the seed maps and the collapse
set finder of CAMSIS and MARCO. The circuit queries of IC3 and of the consecution
checker go to it as clauses over two unrolled time frames with activation literals
(`StepQuery.dfy`). So nothing is assumed about an answer.

## The parts

* **Cardinality networks.** `NetworkSpec.dfy` defines the gates of the odd-even
  merge, the truncated merge, the sorting network and the cardinality network;
  `NetworkProofs.dfy` and `NetworkExtension.dfy` prove the two halves of their
  meaning and that every valuation extends to a model; `NetworkMeaning.dfy` states
  both on the emitted clauses. `SortingNetwork.dfy` holds the imperative builders,
  each equal to its specification down to the fresh variables.
  `CardinalityConstraint.dfy` adds the assumption queries with their errors, and
  `NetworkStore.dfy` what a solver may rely on once the clauses are stored.
* **MaxSAT.** `MaxSatSpec.dfy` and `MaxSat.dfy` hold the incremental MSU4 solver.
  Its invariant says that every model of the hard clauses misses at least as many
  blocked literals as there were rounds, and that the networks and hint clauses
  already in the solver exclude only models that are not better than the best one
  found. `MaxSatSession.dfy` is a client that interleaves all calls.
  `PboMaxSat.dfy` is the linear search, with the bounds it keeps for each set of
  assumptions.
* **IC3.** `InductiveTrace.dfy` (delta-encoded frames), `FrameSolver.dfy`
  (activation literals), `UnsatCoreLifter.dfy`, `TraceInvariant.dfy` and
  `Generalization.dfy` (what every operation keeps), `ProofObligation.dfy` (the
  obligation queue, counterexamples along parent chains, termination), `Pushing.dfy`
  (what pushing makes of a trace) and `Ic3Solver.dfy` (the solver itself).
  `BlockRuns.dfy` says step by step what the solver may do, in `recursiveBlock` and from
  round to round, and `Counterexample.dfy` what follows for counterexamples. The initial
  states are those of `TransitionRelations.InitExact`. `ResetStates.dfy`,
  `SmallCircuits.dfy`, `LostSupport.dfy`, `StaleInputs.dfy` and `LooseStates.dfy` are
  about lines 453, 328 and 262, below.
* **Circuit queries.** `Unrolling.dfy` (the clauses of two time frames and what their
  models mean) and `StepQuery.dfy` (a query over both frames: an answering step, or
  assumptions that no step meets).
* **Minimising proofs.** `ProofSets.dfy` (inductive subsets),
  `ConsecutionChecker.dfy`, `FindSafeMis.dfy`; `CollapseSets.dfy` (the duality),
  `CollapseQuery.dfy` (the finder's clauses and what their models mean) and
  `CollapseFinder.dfy` (the finder on the linear search);
  `SeedMap.dfy` and `SeedSolver.dfy` (the map of unexplored sets, and the questions to
  it as MaxSAT problems), `CollapseListing.dfy` (refining with a candidate) and
  `Camsis.dfy`, `Copies.dfy` (proofs that repeat their property),
  `MarcoRuns.dfy` (every run of MARCO) and `Marco.dfy`, `MinimalSupport.dfy`,
  `SupportClosure.dfy` (how the feasible clauses grow), `Sisi.dfy`.
  `FiveClauses.dfy` with `GrownSeed.dfy` and `Alternatives.dfy` with
  `RepeatedProperty.dfy` hold the proofs on which MARCO fails. `Minimization.dfy` connects the minimisers to the proofs that IC3 records.
* **The CDCL core.** `Trails.dfy` (assignments, levels, reasons, entailment),
  `FirstUip.dfy`, `ResolutionFronts.dfy` (which clause is the first unique implication
  point), `ClauseMinimization.dfy`, `SupportSearch.dfy` and `LiteralSorting.dfy`
  (conflict analysis), `WatchLists.dfy` and `Propagation.dfy`
  (two watched literals), `SearchSteps.dfy` and `Assumptions.dfy` (learning, going
  back, deciding, answering), `LearntClauses.dfy` (why learning ends),
  `SearchLog.dfy` (the record of a search, which its contract speaks of),
  `ClauseSorting.dfy`, `Restarts.dfy`. The class in `CdclSolver.dfy` runs them: it
  adds clauses, propagates, analyses conflicts, learns and searches under
  assumptions. `QueueLeft.dfy` is a run of its propagation. `SatQuery.dfy`,
  `CoreAdaptor.dfy` and `SatAdaptor.dfy` put the queries of the engines to it.
* **Shared.** `Ids.dfy`, `VariableManager.dfy`, `Cubes.dfy`, `TransitionRelation.dfy`,
  `Collections.dfy`.

Predicates whose names end in `Ok` or `F`, or contain `Folded`, and the ones defined by
these, are the folded forms of other predicates; they hide quantifiers from the
verifier.

## Where the code does not do what it is for

* `src/pme/ic3/ic3_solver.cpp:453` re-initiates the core of a generalised cube
  against the cube that still contains the dropped literal. The result need not be
  inductive relative to the frame below. `ResetStates.ResetExact` says before the
  call exactly when it is not, from the frame, the cube, the literal and the core:
  the core has no literal that excludes the reset states, the dropped literal is the
  last of the cube that does, and some state of the frame that violates it steps into
  the core together with it. `Generalizations.GeneralizeExact` is the same for any
  initial states.
  The answers are right all the same. The core of such a lemma cannot be entered from
  outside it, nor from an initial state, while the frame holds
  (`TraceInvariants.Shielded`), and that survives pushing and promotion. So for the
  code as written UNSAFE is answered exactly when the bad literal can be reached, with
  a counterexample that replays, and no assertion fails
  (`Ic3Solvers.Ic3Solver.Prove`).
  What fails is the proof that comes with SAFE: `LostSupports.DroppedLiteralReturns`
  and `LostSupports.SafeWithoutInvariant` are a run of the solver, from its first trace
  on, that answers SAFE with clauses that are not inductive. `Ic3Solvers.RecordedInductive`
  says when they are: exactly when the infinity frame supports each of its lemmas. The
  class `Ic3Solver` has both forms of the line; `repaired` selects the cube without the
  literal, the code as written is the default, and a repaired solver always records an
  inductive proof. The ghost set `tainted` holds the lemmas not known to be supported;
  pushing a lemma takes it out, and a trace is `Sound` while none of them is in the
  infinity frame.
* `src/pme/ic3/ic3_solver.cpp:328` gives an obligation without inputs those of the
  successor in the query, which is meant for the target. The target keeps them when its
  predecessor is blocked and another one is found, so the last inputs of the
  counterexample may turn the bad literal off.
  `StaleInputs.StaleLastInputs` is a run of the solver, from its first trace on, that
  answers UNSAFE with such a counterexample, of three steps.
  `Counterexamples.FirstPredecessorFollows` proves, for every run, that the inputs of
  all steps are right if the chain comes to the target from the first predecessor found
  for it, which is when the guard of that line held. With other last inputs every
  counterexample replays (`ProofObligations.LevelZeroReplays`).
* `src/pme/ic3/ic3_solver.cpp:262-264` says that each state of a counterexample, with its
  inputs, steps into the next one. The predecessor was lifted, so it steps into the
  cube around the next state only. `LooseStates.StatesDoNotFollow` is a run with the
  right inputs whose second state does not follow from the first. Both runs end in
  counterexamples that the repository's own check, `src/pme/util/check_cex.cpp`, rejects.
  `Counterexamples.TwoStepsCheck`: it rejects none of one or two steps.
  `Counterexamples.ChecksExactly`: with right inputs one of any length passes if and only
  if the states listed are those of the execution that first state and inputs determine.
* `src/pme/minimization/marco.cpp:126-131` puts every copy of the property into every
  seed, but only the first is needed, and a minimum seed is recorded as it is. A proof
  that has its property more than once is accepted. `RepeatedProperties.BothCopiesRecorded`
  is a run on the property twice that records both copies, and
  `RepeatedProperties.CopyRecordedInTurn` a run that takes maximum and minimum seeds in
  turn. `MarcoRuns.RecordedExactly` proves, for all inductive proofs and all runs that
  end, that exactly the minimal sets are recorded if and only if the property occurs
  once or no set was recorded for a minimum seed. With minimum seeds only, the second
  never holds. `RepeatedProperties.MinimalOptions`: no run on any proof
  records another set if and only if the options take no minimum seeds. In every case
  each minimal set is recorded once, itself or with all copies.
* `src/pme/minimization/marco.cpp:186-207` grows the seed before it looks for
  unsupported clauses. With both refinement options on and no search direction the
  grown seed need not be unexplored, so the collapse set that the source asserts to
  exist may be missing. `GrownSeeds.GrownSeedHasNothingToList` is a run from the
  first state of the minimiser in which it is, and `GrownSeeds.SafeOptions` proves
  that no run on any inductive proof fails exactly when the options are not those.
  `RepeatedProperties.Enumerate` is the enumeration under the others.
* `src/pme/util/find_minimal_support.cpp:54` queries the frame itself and not the
  frame with one clause removed. `MinimalSupports.FoundExactly` says what may come
  out, any supporting part of the frame;
  `MinimalSupports.AlwaysMinimal` that the result is minimal, whatever the solver
  answers, if and only if the frame was minimal before; and
  `MinimalSupports.NotNarrowed` is a frame of three clauses, one of which is enough,
  that may be left as it is.
* `src/sat/solvers/glucose/src/core/Solver.cc:1015-1028` promises an empty queue
  after a conflict too. A false binary clause is returned at once, before the rest
  of the queue. `CdclSolvers.Solver.Propagate` proves that after a conflict the
  queue is empty if and only if the false clause has more than two literals, and
  `QueueLefts.FalseBinaryClause` is a run that leaves assignments in it. No step of
  the search relies on more.

## Model

| member | source | states |
|---|---|---|
| `NetworkMeaning.CardinalityExact` | `src/pme/util/sorting_network.cpp:454-506` | in any model of the emitted clauses, le clauses force output i whenever at least i+1 inputs are true and ge clauses force at least i+1 true inputs whenever output i is true; there are min(n,m) outputs |
| `NetworkMeaning.CardinalityExtends` | `src/pme/util/sorting_network.cpp:454-506` | every valuation extends, on the fresh variables only, to a model of all the emitted clauses whose outputs are exactly the sorted prefix of the input count |
| `NetworkProofs.MergeLe` | `src/pme/util/sorting_network.cpp:184-261` | upper half of odd-even merging: p and q leading true inputs force p+q leading true outputs, for all sizes and both argument orders |
| `NetworkProofs.MergeGe` | `src/pme/util/sorting_network.cpp:184-261` | lower half of odd-even merging: nothing true beyond p and q leaves nothing true beyond p+q |
| `NetworkProofs.SimpMergeLe` | `src/pme/util/sorting_network.cpp:318-452` | the same upper half for the merge truncated to c outputs |
| `NetworkProofs.SimpMergeGe` | `src/pme/util/sorting_network.cpp:318-452` | the same lower half for the merge truncated to c outputs |
| `NetworkProofs.SortingLe` | `src/pme/util/sorting_network.cpp:263-316` | the sorting network forces as many leading outputs as inputs are true |
| `NetworkProofs.SortingGe` | `src/pme/util/sorting_network.cpp:263-316` | the sorting network allows no more true outputs than true inputs |
| `NetworkProofs.CompMeaning` | `src/pme/util/sorting_network.cpp:151-172` | the comparator clauses mean y1 = x1 or x2 and y2 = x1 and x2, one direction for le and one for ge |
| `NetworkProofs.PartialCompMeaning` | `src/pme/util/sorting_network.cpp:64-80` | the one-output comparator clauses mean y = x1 or x2, split in the same way |
| `NetworkExtension.RunGates` | `src/pme/util/sorting_network.cpp:454-506` | evaluating the gates in order gives a valuation that agrees with all of them and changes only their outputs |
| `NetworkExtension.CardinalityFits` | `src/pme/util/sorting_network.cpp:454-506` | every gate reads only inputs and earlier outputs, and all fresh variables come from the counter range that was handed out |
| `SortingNetwork.TakeOdd` | `src/pme/util/sorting_network.cpp:41-50` | the elements at odd positions, in order |
| `SortingNetwork.TakeEven` | `src/pme/util/sorting_network.cpp:52-61` | the elements at even positions, in order |
| `SortingNetwork.ZipperMerge` | `src/pme/util/sorting_network.cpp:82-149` | the index arithmetic of both interleavings, equal to a closed form for every admissible pair of sizes |
| `SortingNetwork.MergeNetwork` | `src/pme/util/sorting_network.cpp:184-261` | outputs, clauses and fresh variables are those of the specified merge network |
| `SortingNetwork.BuildSortingNetwork` | `src/pme/util/sorting_network.cpp:263-316` | outputs, clauses and fresh variables are those of the specified sorting network |
| `SortingNetwork.SimpMergeNetwork` | `src/pme/util/sorting_network.cpp:318-452` | outputs, clauses and fresh variables are those of the specified truncated merge |
| `SortingNetwork.BuildCardinalityNetwork` | `src/pme/util/sorting_network.cpp:454-506` | outputs, clauses and fresh variables are those of the specified cardinality network, whose meaning is the first two rows |
| `VariableManagers.VariableManager.GetNewID` | `src/pme/engine/variable_manager.cpp:37-55` | hands out even identifiers in increasing order |
| `CardinalityConstraints.SortingConstraint.CNFize` | `src/pme/util/cardinality_constraint.cpp:466-475` | emits the clauses of the cardinality network over the inputs |
| `CardinalityConstraints.SortingConstraint.AssumeEq` | `src/pme/util/cardinality_constraint.cpp:92-114` | the assumption for exactly n, or the error the source throws |
| `CardinalityConstraints.SortingConstraint.AssumeLEq` | `src/pme/util/cardinality_constraint.cpp:116-138` | the assumption for at most n, or the error the source throws |
| `CardinalityConstraints.SortingConstraint.AssumeLT` | `src/pme/util/cardinality_constraint.cpp:140-158` | the assumption for fewer than n, or the error the source throws |
| `CardinalityConstraints.SortingConstraint.AssumeGEq` | `src/pme/util/cardinality_constraint.cpp:160-181` | the assumption for at least n, or the error the source throws |
| `CardinalityConstraints.SortingConstraint.AssumeGT` | `src/pme/util/cardinality_constraint.cpp:183-200` | the assumption for more than n, or the error the source throws |
| `CardinalityConstraints.LessThanMeaning` | `src/pme/util/cardinality_constraint.cpp:140-158` | under sound outputs the assumption bounds the count, and every exact valuation below the bound meets it |
| `CardinalityConstraints.GreaterThanMeaning` | `src/pme/util/cardinality_constraint.cpp:183-200` | the same for more than n |
| `CardinalityConstraints.EqualMeaning` | `src/pme/util/cardinality_constraint.cpp:92-114` | over exact outputs the assumption holds exactly when n inputs are true |
| `CardinalityConstraints.AllInputs` | `src/pme/util/cardinality_constraint.cpp:92-97` | assuming every input is the same as counting all of them |
| `SatAdaptors.SatAdaptor.Solve` | `src/pme/engine/sat_adaptor.cpp:148-192` | answered by the CDCL core: a model of clauses and assumptions exactly when there is one, and otherwise a part of the assumptions that is already unsatisfiable |
| `MaxSat.Msu4MaxSatSolver.DoSolve` | `src/pme/util/maxsat_solver.cpp:359-470` | terminates; true exactly when the hard clauses are satisfiable, and then the solution is what some model makes true and no model makes more true; whatever could be mentioned before the call can be mentioned after it, so calls interleave |
| `MaxSat.LaterOk` | `src/pme/util/maxsat_solver.cpp:211-219` | variables that the shared manager hands out between calls keep the invariant and are free to use |
| `MaxSatSessions.Run` | `src/pme/util/maxsat_solver.cpp:211-490` | in any sequence of new variables, clauses, optimisation literals and searches every answer is right for what was added before it |
| `PboMaxSat.ClauseOk` | `src/pme/util/maxsat_solver.cpp:76-82` | the bound cached for each set of assumptions stays valid, and the clauses stay sound and complete, when a clause is added |
| `PboMaxSat.LowerBound` | `src/pme/util/maxsat_solver.cpp:152-166` | an unsatisfiable question at the bound lowers it by one, and at 0 means that no model exists |
| `PboMaxSat.ModelIsBest` | `src/pme/util/maxsat_solver.cpp:147-168` | a model at the bound is a best one |
| `PboMaxSat.PboMaxSatSolver.AddForOptimization` | `src/pme/util/maxsat_solver.cpp:93-104` | a further literal forgets the bounds and the network |
| `PboMaxSat.PboMaxSatSolver.AssumpSolve` | `src/pme/util/maxsat_solver.cpp:138-170` | terminates; true exactly when there is a model under the assumptions, and then the model has as many literals true as any; the bound recorded is that number and never larger than the one before |
| `PboMaxSat.PboMaxSatSolver.DoSolve` | `src/pme/util/maxsat_solver.cpp:126-130` | the same without assumptions |
| `MaxSat.Msu4MaxSatSolver.AddClause` | `src/pme/util/maxsat_solver.cpp:211-219` | the upper bound and the blocked literals remain valid for the larger clause set |
| `MaxSat.Msu4MaxSatSolver.AddForOptimization` | `src/pme/util/maxsat_solver.cpp:479-490` | a new literal restarts the bounds; a repeated one is an error that changes nothing |
| `MaxSat.Msu4MaxSatSolver.AddCardinality` | `src/pme/util/maxsat_solver.cpp:298-342` | each of the three ways to ask for more than n is sound and excludes no model with more than n |
| `MaxSat.Msu4MaxSatSolver.Maximize` | `src/pme/util/maxsat_solver.cpp:386-466` | the search loop ends with an optimal solution |
| `MaxSat.Msu4MaxSatSolver.OnSat` | `src/pme/util/maxsat_solver.cpp:397-422` | a model raises the lower bound, and the next question excludes only models that are not better |
| `MaxSat.Msu4MaxSatSolver.OnUnsat` | `src/pme/util/maxsat_solver.cpp:423-458` | a core conditional on being better than the best so far costs every better model one blocked literal; an empty core proves optimality |
| `MaxSat.Msu4MaxSatSolver.GetAssignment` | `src/pme/util/maxsat_solver.cpp:497-524` | reads back exactly what every model behind the solution assigns; other variables are an error |
| `MaxSat.Msu4MaxSatSolver.ResetPeriodically` | `src/pme/util/maxsat_solver.cpp:361-372` | dropping what was learnt keeps the invariant |
| `MaxSatSpec.UpperBound` | `src/pme/util/maxsat_solver.cpp:453-456` | no solution has more true literals than the number of rounds allows |
| `MaxSatSpec.CoreKeepsBounds` | `src/pme/util/maxsat_solver.cpp:433-457` | moving a core to the blocked literals keeps the count of rounds that every model has paid |
| `MaxSatSpec.ClauseKeepsBounds` | `src/pme/util/maxsat_solver.cpp:211-219` | the bounds survive an extra hard clause |
| `MaxSatSpec.NothingBetter` | `src/pme/util/maxsat_solver.cpp:427-432` | when no better model is left the best one found is optimal |
| `MaxSatSpec.StepReaches` | `src/pme/util/maxsat_solver.cpp:298-342` | a further constraint on fresh variables excludes no model that matters |
| `MaxSatSpec.CoreExcludes` | `src/pme/util/maxsat_solver.cpp:423-441` | every model that is still looked for falsifies a literal of the core |
| `MaxSatSpec.HintOnReaches` | `src/pme/util/maxsat_solver.cpp:443-451` | the activated hint clause excludes nothing that is looked for in this call |
| `MaxSatSpec.HintOffReaches` | `src/pme/util/maxsat_solver.cpp:443-451` | with the hint variable off the clause is vacuous in later calls |
| `TransitionRelations.CompleteIsFrame` | `src/pme/engine/transition_relation.cpp:377-384` | every assignment to inputs and latches extends to a valuation that agrees with all gates |
| `TransitionRelations.FrameUnique` | `src/pme/engine/transition_relation.cpp:377-384` | and to only one |
| `TransitionRelations.StepAnyInputs` | `src/pme/engine/transition_relation.cpp:386-403` | every frame has a successor for any inputs of the next time frame |
| `TransitionRelations.ResetCubesShape` | `src/pme/engine/transition_relation.cpp:442-458` | initial-state cubes have one literal, of an initialised latch |
| `TransitionRelations.ResetCubesExact` | `src/pme/engine/transition_relation.cpp:442-458` | a valuation is outside all initial-state cubes exactly if every latch with a reset value has it; a latch without one is free |
| `TransitionRelations.InitExact` | `src/pme/engine/transition_relation.cpp:442-458` | the initial states are exactly the frames in which the latches with a reset value have it, restricted by further cubes |
| `Ic3Solvers.InitIs` | `src/pme/ic3/ic3_solver.cpp:127-166` | so are those of a solver with its constraints |
| `InductiveTraces.InductiveTrace.AddLemma` | `src/pme/ic3/inductive_trace.cpp:36-70` | sets the level of the cube and moves the lemma, which stays in exactly one frame |
| `InductiveTraces.InductiveTrace.PushLemma` | `src/pme/ic3/inductive_trace.cpp:163-170` | raises the level of one lemma, which stays in exactly one frame |
| `InductiveTraces.InductiveTrace.ClearUnusedFrames` | `src/pme/ic3/inductive_trace.cpp:172-188` | drops empty frames from the end and nothing else |
| `FrameSolvers.ActivationIsFrame` | `src/pme/ic3/frame_solver.cpp:194-205` | any model under the level assumptions satisfies the full frame of the level, stale copies included |
| `FrameSolvers.FrameIsActivation` | `src/pme/ic3/frame_solver.cpp:259-284` | any state of the full frame extends to a model under the level assumptions |
| `StepQueries.QueryMeans` | `src/pme/engine/transition_relation.cpp:363-429` | the models of the unrolled clauses and of the clauses of a query over both time frames are exactly the steps that satisfy the query |
| `StepQueries.Ask` | `src/pme/engine/sat_adaptor.cpp:148-192` | answered by the CDCL core: a step of the circuit that meets clauses and assumptions over both time frames, or a part of the assumptions that no such step meets |
| `FrameSolvers.ConsecutionAnswers` | `src/pme/ic3/frame_solver.cpp:107-146` | clauses, level assumptions and primed literals as they are sent mean F_level, not c, a step, and the literals after it |
| `FrameSolvers.FrameSolver.Consecution` | `src/pme/ic3/frame_solver.cpp:107-146` | answers consecution for the full frame exactly, with a sufficient core or a pair of frames as counterexample |
| `FrameSolvers.FrameSolver.Intersection` | `src/pme/ic3/frame_solver.cpp:207-242` | answers whether a state of the full frame lies in the cube |
| `UnsatCoreLifters.OneSuccessor` | `src/pme/ic3/unsat_core_lifter.cpp:110-119` | a concrete state with its inputs determines its successor, so the lifting query is unsatisfiable |
| `UnsatCoreLifters.UnsatCoreLifter.Lift` | `src/pme/ic3/unsat_core_lifter.cpp:73-132` | a non-empty cube around the state all of whose states step into the successor cube under the given inputs |
| `TraceInvariants.BlockedOut` | `src/pme/ic3/ic3_solver.cpp:434-466` | a cube re-initiated against any initiated cube that contains the core is unreachable within the level, for the code as written |
| `TraceInvariants.ShieldedOut` | `src/pme/ic3/ic3_solver.cpp:434-466` | a cube without initial states, some part of which no step enters from outside it or from an initial state of the frame below, is unreachable within the level |
| `TraceInvariants.SelfShieldingHolds` | `src/pme/ic3/ic3_solver.cpp:336-359` | a frame that shields each of its own lemmas holds in every reachable state, even where it is not inductive |
| `TraceInvariants.PushOk` | `src/pme/ic3/ic3_solver.cpp:336-350` | pushing keeps every promise of the trace and clears the doubt about the lemma |
| `TraceInvariants.PromoteOk` | `src/pme/ic3/ic3_solver.cpp:352-357` | promoting everything above an empty frame keeps every promise of the trace |
| `TraceInvariants.InfinityInductive` | `src/pme/ic3/ic3_solver.cpp:246-255` | the infinity frame holds initially and, unless a lemma that lacks support was promoted, is preserved by every step |
| `TraceInvariants.RestrictOk` | `src/pme/ic3/ic3_solver.cpp:127-166` | further initial-state constraints keep every promise of the trace |
| `TraceInvariants.ProofMeansSafe` | `src/pme/ic3/ic3_solver.cpp:200-244` | a recorded proof rules out executions of every length to the bad literal |
| `Generalizations.BlockStep` | `src/pme/ic3/ic3_solver.cpp:395-403` | the core of a blocked cube, re-initiated against that cube, is inductive relative to the frame and shielded by it |
| `Generalizations.IterationStep` | `src/pme/ic3/ic3_solver.cpp:434-460` | after dropping a literal the result is shielded by the frame, whether or not the literal came back, and relatively inductive if it stayed out |
| `Generalizations.BlocksOut` | `src/pme/ic3/ic3_solver.cpp:434-460` | what is fit to be a lemma is unreachable within its level |
| `Generalizations.GeneralizeExact` | `src/pme/ic3/ic3_solver.cpp:446-456` | what re-initiation makes of the core is relatively inductive if and only if the dropped literal stays out of it or no frame state that violates only that literal steps into it |
| `ResetStates.ResetExact` | `src/pme/ic3/ic3_solver.cpp:446-456` | before re-initiation, over frame, cube, literal and core: the result lacks support if and only if the core admits reset states, the dropped literal is the last of the cube that excludes them, and a frame state violating it steps into the core and into it |
| `ResetStates.KeepsTheLast` | `src/pme/ic3/ic3_solver.cpp:479-537` | over reset states re-initiation adds to the core exactly the last literal of the original that excludes them |
| `LostSupports.DroppedLiteralReturns` | `src/pme/ic3/ic3_solver.cpp:200-334` | a run from the first trace of a circuit whose bad latch is initially off: the target is blocked, its predecessor is blocked twice, and at level 2 the dropped literal comes back into a lemma that the frame below does not support |
| `LostSupports.SafeWithoutInvariant` | `src/pme/ic3/ic3_solver.cpp:200-359` | the run goes on to the answer SAFE, and whatever is recorded is not an inductive proof |
| `Ic3Solvers.Ic3Solver.Reinitiate` | `src/pme/ic3/ic3_solver.cpp:479-537` | a smallest cube between core and original that excludes the initial states |
| `Ic3Solvers.Ic3Solver.Initiate` | `src/pme/ic3/ic3_solver.cpp:469-477` | leaves an initiated cube alone and re-initiates another; fails only if the original meets the initial states |
| `Ic3Solvers.Ic3Solver.GeneralizeIteration` | `src/pme/ic3/ic3_solver.cpp:430-467` | terminates with a sub-cube that excludes the initial states and is shielded by the frame below, so it is unreachable within the level; which sub-cubes it may be |
| `Ic3Solvers.Ic3Solver.Generalize` | `src/pme/ic3/ic3_solver.cpp:416-428` | the same after repeated passes, each of which shrinks the cube or is the last |
| `Ic3Solvers.Ic3Solver.Block` | `src/pme/ic3/ic3_solver.cpp:385-414` | either a sub-cube fit to be a lemma at the level or a lifted predecessor cube of states of the frame below |
| `Ic3Solvers.Ic3Solver.SyntacticBlock` | `src/pme/ic3/ic3_solver.cpp:373-383` | true exactly when a lemma of the full frame subsumes the cube |
| `Cubes.Subsumes` | `src/pme/pme.cpp:51-78` | true exactly when every literal of one sorted cube occurs in the other |
| `Ic3Solvers.Ic3Solver.PushLemmas` | `src/pme/ic3/ic3_solver.cpp:336-359` | terminates, keeps every promise of the trace and only raises lemmas; the new levels are exactly those of pushing frame by frame, and on return every lemma left in a frame from 1 on fails consecution there; no empty frame is left behind |
| `Ic3Solvers.Ic3Solver.PushFrame` | `src/pme/ic3/ic3_solver.cpp:338-351` | exactly the lemmas of the frame that pass consecution relative to it move up; empty if and only if all do |
| `Pushings.PushedStuck` | `src/pme/ic3/ic3_solver.cpp:336-359` | after pushing, also after a promotion, no lemma outside frame 0 and the infinity frame passes consecution in its own frame |
| `Pushings.AllPassPromotes` | `src/pme/ic3/ic3_solver.cpp:352-357` | if every lemma of a frame passes, and the frames below keep one, everything from the frame on goes to infinity |
| `Ic3Solvers.Ic3Solver.PushFrameToInf` | `src/pme/ic3/ic3_solver.cpp:618-633` | moves exactly the lemmas at or above the frame to infinity and trims the frames to the level |
| `Ic3Solvers.Ic3Solver.PopObligation` | `src/pme/ic3/ic3_solver.cpp:594-604` | takes an obligation that no queued one comes before |
| `Ic3Solvers.Ic3Solver.BuildCex` | `src/pme/ic3/ic3_solver.cpp:257-281` | the state and inputs of every obligation on the chain to the target, in order |
| `ProofObligations.BeforeTransitive` | `src/pme/ic3/ic3_solver.cpp:31-43` | the queue order is transitive, so the element taken is a true minimum |
| `ProofObligations.CubeLessExactly` | `src/pme/ic3/ic3_solver.cpp:41-42` | the last criterion is the order of the literal lists by their first difference |
| `ProofObligations.BeforeExactly` | `src/pme/ic3/ic3_solver.cpp:31-43` | an obligation comes before another if and only if it is smaller at the first difference in level, size, degree and literals, in this order |
| `ProofObligations.ParentReached` | `src/pme/ic3/ic3_solver.cpp:325-329` | any reached state of a lifted cube, given the inputs of its obligation, steps into the parent's cube |
| `ProofObligations.ChainReaches` | `src/pme/ic3/ic3_solver.cpp:257-334` | from any reached state of an obligation the inputs along the parent chain, fed one after another, lead to the target |
| `ProofObligations.LevelZeroReplays` | `src/pme/ic3/ic3_solver.cpp:283-305` | at level 0 the chain is a counterexample that replays: its first state is initial, and its inputs lead from there to the target |
| `Ic3Solvers.Ic3Solver.CheckInitial` | `src/pme/ic3/ic3_solver.cpp:561-571` | an initial state in the target, with inputs that force it there, or there is none |
| `ProofObligations.StateForces` | `src/pme/ic3/ic3_solver.cpp:561-571` | state and inputs of a frame determine whether it meets a cube |
| `ProofObligations.ReplayReaches` | `src/pme/ic3/ic3_solver.cpp:257-281` | a counterexample that replays stands for an execution of its length |
| `ProofObligations.OpenShrinks` | `src/pme/ic3/ic3_solver.cpp:313-323` | a blocked obligation leaves strictly fewer cube-level pairs open, which is why the queue empties |
| `ProofObligations.ObligationInitiated` | `src/pme/ic3/ic3_solver.cpp:469-500` | no obligation above level 0 meets the initial states, so the assertions of initiate and reinitiate do not fail |
| `Ic3Solvers.Ic3Solver.RecursiveBlock` | `src/pme/ic3/ic3_solver.cpp:283-334` | terminates; what it does is a run in which each step takes the first obligation of the queue, and drops it if subsumed, blocks it and brings it back one level up, or queues a predecessor below it; it ends with an empty queue and the target subsumed at the level, or at level 0 with the chain of parents as a counterexample that replays; no assertion fails |
| `Counterexamples.TwoStepsCheck` | `src/pme/util/check_cex.cpp:28-68` | in any run a counterexample of at most two steps passes the check by simulation, with all its states and inputs |
| `Counterexamples.FirstPredecessorFollows` | `src/pme/ic3/ic3_solver.cpp:325-329` | in any run whose counterexample comes to the target from the first predecessor that was found for it, the inputs of all steps, the last ones too, lead from its first state to the target |
| `Counterexamples.ChecksExactly` | `src/pme/util/check_cex.cpp:28-68` | a counterexample whose inputs lead to the target passes the check by simulation if and only if the states that it lists are those of the one execution of its first state and inputs |
| `LooseStates.StatesDoNotFollow` | `src/pme/ic3/ic3_solver.cpp:200-334` | a run from the first trace of a circuit to a counterexample of three steps with the right inputs, whose second state does not follow from the first, so that the check by simulation rejects it |
| `StaleInputs.StaleLastInputs` | `src/pme/ic3/ic3_solver.cpp:200-334` | a run from the first trace of a circuit to a counterexample of three steps, whose last inputs come from a predecessor that was blocked since: under all its inputs the bad literal is off, and the check by simulation rejects it |
| `Ic3Solvers.RecordedInductive` | `src/pme/ic3/ic3_solver.cpp:246-255` | the recorded proof is inductive exactly when the infinity frame supports each of its own lemmas |
| `Ic3Solvers.InfinitySafe` | `src/pme/ic3/ic3_solver.cpp:246-255` | no execution leaves the infinity frame, so SAFE is right also where the recorded proof is not inductive |
| `Ic3Solvers.Ic3Solver.Prove` | `src/pme/ic3/ic3_solver.cpp:200-255` | terminates without a failing assertion, in rounds that each block the target one level above where pushing has left it; UNSAFE exactly when the bad literal can be reached, with a counterexample that replays from its initial first state to the bad literal, and passes the check by simulation if it has one or two steps; with one, its inputs turn the bad literal on; SAFE records the infinity frame, clause by clause, which excludes the bad literal, an inductive invariant if the solver is repaired, and as written exactly when the infinity frame supports its own lemmas |
| `Ic3Solvers.Ic3Solver.InitialStatesRestricted` | `src/pme/ic3/ic3_solver.cpp:163-166` | re-initialisation keeps every lemma at its level |
| `Ic3Solvers.Ic3Solver.InitialStatesExpanded` | `src/pme/ic3/ic3_solver.cpp:154-161` | re-initialisation forgets every lemma |
| `Ic3Solvers.Ic3Solver.RestrictInitialStates` | `src/pme/ic3/ic3_solver.cpp:181-187` | records the negation of the clause as a cube that initial states exclude |
| `ProofSets.GreatestExists` | `src/pme/util/find_safe_mis.cpp:91-182` | every clause set has a greatest inductive subset |
| `ProofSets.GreatestUnique` | `src/pme/util/find_safe_mis.cpp:91-182` | and only one |
| `ProofSets.WitnessExcludes` | `src/pme/util/find_safe_mis.cpp:91-134` | a clause falsified by a counterexample to the set is in no inductive subset of it |
| `ConsecutionCheckers.ConsecutionChecker.SupportSolve` | `src/pme/engine/consecution_checker.cpp:77-132` | answers support exactly; the activation literals of the core are a part of the frame that supports the clause already, and a model violates the clause |
| `ConsecutionCheckers.ConsecutionChecker.Solve` | `src/pme/engine/consecution_checker.cpp:159-175` | answers support exactly and keeps the counterexample |
| `ConsecutionCheckers.ConsecutionChecker.IsInductive` | `src/pme/engine/consecution_checker.cpp:240-248` | true exactly when every clause is supported by the whole set |
| `ConsecutionCheckers.ConsecutionChecker.RemoveSatClauses` | `src/pme/util/find_safe_mis.cpp:96-134` | erases exactly falsified clauses and reports whether a necessary one was lost |
| `FindSafeMises.FindSafeMis` | `src/pme/util/find_safe_mis.cpp:136-182` | true exactly when a safe inductive subset exists, and then the result is the greatest inductive subset |
| `CollapseSets.SupportHitsCollapses` | `src/pme/engine/collapse_set_finder.cpp:131-174` | hitting-set duality: a set supports a clause exactly when it meets every minimal collapse set of the clause |
| `Unrollings.UnrolledMeans` | `src/pme/engine/transition_relation.cpp:363-429` | the models of the clauses for two time frames are exactly the steps of the circuit |
| `CollapseQueries.CnfMeans` | `src/pme/engine/collapse_set_finder.cpp:80-129` | the finder's clauses say: a step of the circuit, whose first state satisfies the active clauses, and no listed set collapses the clause asked for again |
| `CollapseQueries.BestModel` | `src/pme/engine/collapse_set_finder.cpp:136-174` | what the linear search answers leaves as many clauses active as any answer could |
| `CollapseFinders.BoundKeepsOrder` | `src/pme/engine/collapse_set_finder.cpp:131-198` | a set found at the cached bound is no smaller than the sets listed for its clause before |
| `CollapseFinders.CollapseSetFinder.Find` | `src/pme/engine/collapse_set_finder.cpp:136-174` | on the linear search: a smallest minimal collapse set of the clause not listed before, or none is left; its size is what the cached bound says |
| `CollapseFinders.CollapseSetFinder.FindAndBlock` | `src/pme/engine/collapse_set_finder.cpp:176-198` | lists that set and blocks it for its own clause only |
| `CollapseFinders.CollapseSetFinder.ListedInOrder` | `src/pme/engine/collapse_set_finder.cpp:131-198` | the collapse sets listed for one clause are distinct and never get smaller, because the cached bound only falls |
| `CamsisMinimizers.SomethingToList` | `src/pme/minimization/camsis.cpp:100-107` | every unsupported clause of a candidate still has an unlisted collapse set, so refinement cannot fail |
| `CamsisMinimizers.CamsisMinimizer.AttemptRefinement` | `src/pme/minimization/camsis.cpp:186-201` | lists a smallest collapse set that is left for the clause and adds its clause, or there is none; every unrecorded minimal set stays a candidate |
| `CamsisMinimizers.CamsisMinimizer.DoMinimize` | `src/pme/minimization/camsis.cpp:68-129` | in both modes terminates with exactly the minimal safe inductive subsets recorded, once each and in order of size, the first being a minimum; the states are a run in which a minimum candidate is recorded if inductive, and otherwise every clause that it does not support gets one collapse set; without abstraction refinement every collapse set is listed first |
| `SeedSolvers.CnfMeans` | `src/pme/minimization/marco.cpp:215-277` | the clauses over the seed variables hold exactly for the unexplored sets, also where blocking leaves an empty clause |
| `SeedSolvers.OptimalIsExtreme` | `src/pme/minimization/marco.cpp:112-142` | what the MSU4 solver calls optimal is an unexplored set of fewest, or of most, clauses |
| `SeedSolvers.FindExtreme` | `src/pme/minimization/marco.cpp:454-484` | on the MSU4 solver: a minimum or maximum unexplored set, or there is no unexplored set |
| `SeedSolvers.FindAny` | `src/pme/minimization/marco.cpp:486-515` | on the SAT solver: an unexplored set that contains every clause whose variable the map does not mention |
| `SeedMaps.MinimumIsMinimal` | `src/pme/minimization/marco.cpp:157-178` | a minimum unexplored set that contains a safe inductive set is itself minimal and new |
| `SeedMaps.AllRecorded` | `src/pme/minimization/marco.cpp:155-157` | once the map is exhausted everything minimal is recorded |
| `MarcoMinimizers.MarcoMinimizer.Grow` | `src/pme/minimization/marco.cpp:308-334` | a maximal superset without safe inductive subset, and which one |
| `MarcoMinimizers.MarcoMinimizer.Shrink` | `src/pme/minimization/marco.cpp:336-407` | a minimal safe inductive subset, and which one |
| `MarcoMinimizers.MarcoMinimizer.Record` | `src/pme/minimization/marco.cpp:215-244` | the new proof was not recorded before, and its seed is blocked |
| `MarcoMinimizers.MarcoMinimizer.BlockDown` | `src/pme/minimization/marco.cpp:247-276` | blocks the seed and no minimal safe inductive subset |
| `MarcoMinimizers.MarcoMinimizer.GetUnexploredMin` | `src/pme/minimization/marco.cpp:435-452` | a minimum unexplored set; a reported minimum proof is one of smallest size |
| `MarcoMinimizers.MarcoMinimizer.CollapseRefine` | `src/pme/minimization/marco.cpp:522-535` | succeeds exactly when every unsupported clause has an unlisted collapse set, and then lists the next one of each and adds its clause |
| `MarcoMinimizers.MarcoMinimizer.RefuteSeed` | `src/pme/minimization/marco.cpp:180-208` | one step of the enumeration, which always makes progress, or the assertion that fails |
| `MarcoMinimizers.MarcoMinimizer.InitSolvers` | `src/pme/minimization/marco.cpp:112-142` | one unit clause for each copy of the property |
| `MarcoMinimizers.MarcoMinimizer.DoMinimize` | `src/pme/minimization/marco.cpp:143-213` | terminates; the states are a run of the enumeration, which is stuck if an assertion failed, and that only with both refinements on and no search direction; otherwise each minimal safe inductive subset is recorded once, itself or with all copies of the property, and exactly they are recorded if and only if the property occurs once or no set was recorded for a minimum seed; with minimum seeds only, if and only if the property occurs once; then and without minimum seeds a smallest one is reported |
| `MarcoRuns.RecordedExactly` | `src/pme/minimization/marco.cpp:143-213` | the same for every run that ends, over all inductive proofs and options |
| `MarcoRuns.NextOk` | `src/pme/minimization/marco.cpp:143-213` | every step keeps all unrecorded minimal sets unexplored, and records for a minimum seed a set minimal among those with all copies, for another seed a minimal set |
| `MarcoRuns.ShrunkMinimal` | `src/pme/minimization/marco.cpp:336-407` | shrinking a safe inductive set leaves a minimal one |
| `MarcoRuns.GrownMaximal` | `src/pme/minimization/marco.cpp:308-334` | growing leaves a maximal set without safe inductive subset |
| `PropertyCopies.MinimalWithCopies` | `src/pme/minimization/minimization.cpp:73-98` | a minimal set with all copies of the property added is minimal among the sets with all copies |
| `PropertyCopies.MinimalCore` | `src/pme/minimization/minimization.cpp:73-98` | and every such set comes from a minimal one |
| `PropertyCopies.CopiesNotMinimal` | `src/pme/minimization/minimization.cpp:73-98` | with further copies, no set that has them all is minimal |
| `RepeatedProperties.BothCopiesRecorded` | `src/pme/minimization/marco.cpp:112-213` | the whole run on a proof that is the property twice, with minimum seeds: both copies are recorded, although one is enough |
| `RepeatedProperties.CopyRecordedInTurn` | `src/pme/minimization/marco.cpp:112-213` | a run with maximum and minimum seeds in turn that records a set with both copies, for either kind of refinement |
| `RepeatedProperties.MinimalOptions` | `src/pme/minimization/marco.cpp:112-213` | only minimal sets are recorded, on every inductive proof and in every run, if and only if no minimum seeds are taken |
| `GrownSeeds.GrownSeedHasNothingToList` | `src/pme/minimization/marco.cpp:143-213` | a run from the first state of the minimiser on an inductive proof of five clauses, after which a seed grows to a set with an unsupported clause whose collapse sets are all listed, so the assertion fails |
| `GrownSeeds.SafeOptions` | `src/pme/minimization/marco.cpp:143-213` | no run on any inductive proof fails an assertion if and only if the options are not both refinements without a search direction |
| `RepeatedProperties.Enumerate` | `src/pme/minimization/marco.cpp:112-213` | under options that fail no assertion a new minimiser records everything, and exactly the minimal sets if and only if the property occurs once or no set is recorded for a minimum seed |
| `MarcoRuns.SeedDoesNotFail` | `src/pme/minimization/marco.cpp:180-208` | in a state whose clauses refine with everything listed no choice of seed fails an assertion under the other options |
| `SisiMinimizers.NecGrows` | `src/pme/minimization/sisi.cpp:39-63` | a clause without which nothing safe remains is in every safe inductive subset |
| `SisiMinimizers.NecessaryMeans` | `src/pme/minimization/sisi.cpp:39-63` | the necessary clauses are exactly those in every safe inductive subset of the feasible ones, if there is one |
| `SisiMinimizers.Sisi.RefineNec` | `src/pme/minimization/sisi.cpp:39-63` | ends with exactly the property and the clauses without which no safe inductive subset of the feasible ones remains |
| `SisiMinimizers.Sisi.RefineFeas` | `src/pme/minimization/sisi.cpp:65-104` | terminates with a safe inductive set that the loops can build from the necessary clauses: clause by clause, each addition a set that may be found as support of a clause that the current set does not support; the necessary clauses themselves if they are inductive |
| `SupportClosures.JoinedSo` | `src/pme/minimization/sisi.cpp:65-104` | every clause that joined did so in a set that may be found as support of an earlier clause, which lacked it |
| `SupportClosures.ClosedAlready` | `src/pme/minimization/sisi.cpp:65-104` | from an inductive set nothing joins |
| `MinimalSupports.FindMinimalSupport` | `src/pme/util/find_minimal_support.cpp:37-70` | one of the sets that may be found: a part of the frame that still supports the clause, or the frame if it does not |
| `MinimalSupports.FoundExactly` | `src/pme/util/find_minimal_support.cpp:37-70` | for answers of any solver the sets that may be found are exactly the supporting parts of a supporting frame |
| `MinimalSupports.AlwaysMinimal` | `src/pme/util/find_minimal_support.cpp:37-70` | every set that may be found is minimal if and only if the frame was minimal already |
| `MinimalSupports.NotNarrowed` | `src/pme/util/find_minimal_support.cpp:54-62` | a frame of three clauses, one of which is enough, that may be returned whole |
| `SisiMinimizers.Sisi.BruteForceMinimize` | `src/pme/minimization/sisi.cpp:106-138` | deletes in order what can be spared: a safe inductive subset with no smaller one inside it, and which one |
| `SisiMinimizers.Sisi.IsMinimal` | `src/pme/minimization/sisi.cpp:140-170` | true exactly when the feasible set is minimal |
| `SisiMinimizers.Sisi.DoMinimize` | `src/pme/minimization/sisi.cpp:229-259` | the whole pipeline returns a minimal safe inductive subset: the closure of the necessary clauses, its necessary clauses, and what deletion leaves of it |
| `Minimizations.AddPropertyIfMissing` | `src/pme/minimization/minimization.cpp:73-98` | the first occurrence of the property, appended if there is none |
| `Minimizations.ProofInductive` | `src/pme/minimization/minimization.cpp:73-98` | the clauses of an inductive proof together with the property are inductive, which is what the minimisers need |
| `Minimizations.SubsetProves` | `src/pme/minimization/minimization.cpp:169-181` | every safe inductive subset is itself a proof of safety |
| `FirstUip.ResolveStep` | `src/sat/solvers/glucose/src/core/Solver.cc:770-825` | resolving what was taken with the reason of its latest literal leaves an entailed clause that is false before that literal, with the marks and the counter exact |
| `FirstUip.LastSeen` | `src/sat/solvers/glucose/src/core/Solver.cc:817-823` | the latest marked assignment is of the current level, and nothing taken became false after it |
| `FirstUip.NextIsImplied` | `src/sat/solvers/glucose/src/core/Solver.cc:745` | while more than one literal of the current level is left the latest one has a reason, so the assertion of the source holds |
| `FirstUip.FirstPoint` | `src/sat/solvers/glucose/src/core/Solver.cc:825-826` | with one literal of the current level left the clause is entailed, false and asserting |
| `ClauseMinimization.SeenAgree` | `src/sat/solvers/glucose/src/core/Solver.cc:843-877` | a model of the formula that falsifies what is kept agrees with every marked assignment |
| `ClauseMinimization.DroppedKeeps` | `src/sat/solvers/glucose/src/core/Solver.cc:836-868` | dropping literals whose reasons are marked keeps the clause entailed, false and asserting |
| `SupportSearch.SearchDone` | `src/sat/solvers/glucose/src/core/Solver.cc:926-960` | when the search ends every mark it set is supported, and no chain of reasons leads to a literal that may not be searched |
| `SupportSearch.GrownSame` | `src/sat/solvers/glucose/src/core/Solver.cc:843-846` | the marks left by successful searches change the outcome of no later search |
| `LiteralSorting.SortNext` | `src/sat/solvers/glucose/src/core/Solver.cc:636-648` | one step of the in-place partition: the next literal goes behind, where there is room, or stays |
| `LiteralSorting.SortedKeeps` | `src/sat/solvers/glucose/src/core/Solver.cc:636-650` | cutting off the refuted literals keeps the clause entailed and asserting, and leaves exactly the others |
| `CdclSolvers.Solver.Resolve` | `src/sat/solvers/glucose/src/core/Solver.cc:735-826` | the first unique implication point: an asserting clause whose first literal is the negation of the latest assignment that the conflict and reasons lead to with no other literal of the current level left, and whose others are exactly the literals above level 0 reached by then |
| `ResolutionFronts.FrontExactly` | `src/sat/solvers/glucose/src/core/Solver.cc:745-826` | the literals at hand at a position are exactly those to which a chain of reasons of later assignments leads from the conflict |
| `ResolutionFronts.LearntExactly` | `src/sat/solvers/glucose/src/core/Solver.cc:745-826` | the learnt literals are exactly those above level 0 that chains lead to without passing the point |
| `ResolutionFronts.OneFirstUip` | `src/sat/solvers/glucose/src/core/Solver.cc:745-826` | there is one first point, and one clause of it |
| `CdclSolvers.Solver.LitRedundant` | `src/sat/solvers/glucose/src/core/Solver.cc:926-960` | true exactly when no chain of reasons leads to an unmarked literal above level 0 that was decided or is of a foreign level; the marks of a failed search are taken back |
| `CdclSolvers.Solver.MinimizeDeep` | `src/sat/solvers/glucose/src/core/Solver.cc:836-846` | keeps the first literal and exactly those that the recursive search does not find redundant, for the marks of the whole clause |
| `CdclSolvers.Solver.MinimizeLocal` | `src/sat/solvers/glucose/src/core/Solver.cc:848-863` | keeps the first literal and exactly those whose reason has an unmarked literal above level 0 |
| `CdclSolvers.Solver.MinimizeBinary` | `src/sat/solvers/glucose/src/core/Solver.cc:614-653` | for few levels, keeps the first literal and exactly those that no binary clause with it refutes |
| `CdclSolvers.Solver.BacktrackLevel` | `src/sat/solvers/glucose/src/core/Solver.cc:878-893` | a literal of the highest remaining level comes second and gives the level to go back to |
| `CdclSolvers.Solver.Analyze` | `src/sat/solvers/glucose/src/core/Solver.cc:735-906` | the learnt clause is entailed, false, has its first literal alone at the current level and one of the backtrack level second; it is made of the first unique implication point of the conflict: its literals are exactly those that the chosen minimisations leave of that clause; the marks are cleared |
| `WatchLists.LongSettled` | `src/sat/solvers/glucose/src/core/Solver.cc:1030-1152` | with every watcher of a true literal guarded, a clause of more than two literals has a true literal or two that are not false |
| `WatchLists.BackGuards` | `src/sat/solvers/glucose/src/core/Solver.cc:658-672` | guards of the kept assignments survive going back, because a blocker is never assigned at a later level than the literal it guards |
| `Propagation.MoveWatched` | `src/sat/solvers/glucose/src/core/Solver.cc:1110-1118` | moving a watch keeps every clause in the lists of its first two literals, and no list with a clause twice |
| `Propagation.UnitStep` | `src/sat/solvers/glucose/src/core/Solver.cc:1122-1133` | a clause with one literal left forces it, and its watcher is then guarded |
| `CdclSolvers.Solver.Propagate` | `src/sat/solvers/glucose/src/core/Solver.cc:1030-1152` | without a conflict the queue is empty and no clause is false or has one literal left; a conflict is a false clause of the current level, and the queue is empty then exactly when that clause has more than two literals; reasons, lists and guards are kept in both cases |
| `QueueLefts.FalseBinaryClause` | `src/sat/solvers/glucose/src/core/Solver.cc:1030-1060` | a run of adding clauses, deciding and propagating that returns a false binary clause with assignments left in the queue |
| `LearntClauses.LearntIsNew` | `src/sat/solvers/glucose/src/core/Solver.cc:1530-1583` | no stored clause is contained in a learnt one, because propagation would have assigned its literal before |
| `LearntClauses.LearntCounts` | `src/sat/solvers/glucose/src/core/Solver.cc:1556-1583` | storing a learnt clause leaves strictly fewer clauses that can still be learnt |
| `LearntClauses.FewToLearn` | `src/sat/solvers/glucose/src/core/Solver.cc:1530-1583` | over n variables at most 2^(2n) clauses can ever be learnt |
| `CdclSolvers.Solver.CancelUntil` | `src/sat/solvers/glucose/src/core/Solver.cc:658-672` | the assignments up to the level are as they were, the others are undone, and nothing has to be propagated again |
| `CdclSolvers.Solver.AttachClause` | `src/sat/solvers/glucose/src/core/Solver.cc:463-477` | the clause is in the lists of its first two literals, with the other one as blocker |
| `SearchSteps.LearnGuards` | `src/sat/solvers/glucose/src/core/Solver.cc:1556-1583` | the new watchers are guarded because the second literal is of the current level when the first is assigned |
| `SearchSteps.LearntLeft` | `src/sat/solvers/glucose/src/core/Solver.cc:1533-1538` | after going back to the level that analysis gives, exactly the first literal of the learnt clause is left |
| `CdclSolvers.Solver.Learn` | `src/sat/solvers/glucose/src/core/Solver.cc:1556-1583` | adds the clause and assigns its first literal, with reasons, lists and guards kept |
| `CdclSolvers.Solver.HandleConflict` | `src/sat/solvers/glucose/src/core/Solver.cc:1530-1583` | one conflict: exactly the clause of the analysis is stored, or assigned if it is a unit, after going back exactly to its level; every invariant of the search is kept, with strictly fewer clauses left to learn |
| `Assumptions.TraceDone` | `src/sat/solvers/glucose/src/core/Solver.cc:972-1003` | the traced decisions and the literal together are an entailed clause, and no mark is left |
| `CdclSolvers.Solver.AnalyzeFinal` | `src/sat/solvers/glucose/src/core/Solver.cc:972-1003` | an entailed clause of the literal and the negations of exactly the decisions that reasons lead back to |
| `CdclSolvers.Solver.ChooseNext` | `src/sat/solvers/glucose/src/core/Solver.cc:1623-1650` | the first assumption that is not true yet decides, after an empty level for each that is; a false one gives an entailed clause of negated assumptions, exactly the decisions that reasons lead back to |
| `SearchSteps.ZeroConflict` | `src/sat/solvers/glucose/src/core/Solver.cc:1507-1510` | a false clause at level 0 refutes the formula |
| `SearchSteps.FullTrail` | `src/sat/solvers/glucose/src/core/Solver.cc:1643-1648` | a full assignment that settles every clause is a model of the formula |
| `CdclSolvers.Solver.Search` | `src/sat/solvers/glucose/src/core/Solver.cc:1463-1660` | terminates; true with a model of formula and assumptions, false with negated assumptions that follow from the formula, made of the decisions behind the one that failed, undecided at level 0; in the log every clause learnt comes from its conflict, no decision is made after as many conflicts as are allowed, and only then does it end undecided; always decided if more conflicts are allowed than there are clauses to learn |
| `CdclSolvers.Solver.Solve` | `src/sat/solvers/glucose/src/core/Solver.cc:1735-1835` | a model of formula and assumptions, or a part of the assumptions that is already unsatisfiable, explained by the one that failed; without a budget always one of the two, for any restart intervals; round k is the search with interval k, and every round but the last ends undecided; the solver is ready for the next call |
| `CdclSolvers.Solver.RoundsInOrder` | `src/sat/solvers/glucose/src/core/Solver.cc:1787-1795` | the rounds started are those of the intervals 0, 1, 2, in order |
| `CoreAdaptors.Solve` | `src/pme/engine/sat_adaptor.cpp:148-192` | the core keeps the promise of the adaptor: true exactly when clauses and assumptions have a model, with the model or exactly the assumptions of the failure translated back |
| `Restarts.LubyPeak` | `src/sat/solvers/glucose/src/core/Solver.cc:1716-1730` | the Luby sequence reaches 2^k at position 2^(k+1) - 2, so that the restart intervals grow without bound |
| `Restarts.LubyBetween` | `src/sat/solvers/glucose/src/core/Solver.cc:1716-1730` | between two peaks the sequence repeats what led up to the first one |
| `Restarts.ComputeLuby` | `src/sat/solvers/glucose/src/core/Solver.cc:1716-1730` | the two loops compute the sequence |
| `CdclSolvers.Solver.Simplify` | `src/sat/solvers/glucose/src/core/Solver.cc:400-423` | either the clause is satisfied by a fact or by two opposite literals, or the unassigned literals are kept once each and the dropped ones are false |
| `CdclSolvers.Solver.AddClause` | `src/sat/solvers/glucose/src/core/Solver.cc:395-458` | the formula has one more clause; clauses and facts still say exactly as much, a refuted formula is noticed as such, and a clause of several unassigned literals is stored once as it is |

## Left out

- Identifier width: identifiers are unbounded naturals; the narrowing of literals to 32 bits in the assume functions, the 16 bits reserved for primes and unsigned overflow of the bounds are not modelled. The size of the optimisation set is kept below the largest unsigned value, which the source uses as infinity.
- Primed variables: a variable of the next time frame is the variable shifted past all others of the circuit, in place of prime bits, and the activation literals of a query are numbered after those; for the collapse set finder both come from the variable manager.
- StepQueries.Ask: a variable that the circuit does not have counts as false in both time frames.
- Variables unknown to the SAT solver: the source drops unassigned latches from extracted cubes; the model reads them as false.
- The simplified transition relation, simplification of the finder's clauses, latches of a third time frame, AIG constraints, and names, logging, timers, statistics and options.
- SatAdaptors.SatAdaptor.Solve: clause groups are not modelled, a group clause is part of the query; every query starts a new core, so that what one query learns is not kept for the next.
- Ic3Solvers.Ic3Solver.Prove: takes the bad literal as its only target, as a longer target can make the source's own level lookup fail; circuits without latches are excluded because the source asserts a non-empty state. That a counterexample replays speaks of its first state and of all inputs but the last, since the last inputs may be stale and the states in between need not be those of an execution.
- InductiveTraces.InductiveTrace.AddLemma: lemma deletion is left out, since nothing in the solver deletes a lemma; cubes arrive sorted.
- Ic3Solvers.Ic3Solver.RestrictInitialStates: the clause ranges over latches, and repeated literals are merged.
- ResetStates.ResetExact: for initial states given by single literals of latches, as the resets of the circuit are; `Generalizations.GeneralizeExact` covers further restrictions, but its condition speaks of the re-initiated cube.
- Obligations are positions in a pool that lists them in order of creation, in place of pointers.
- MarcoMinimizers.MarcoMinimizer.DoMinimize: the random shuffling branch is left out, the proof is assumed inductive with its property, and at least one kind of refinement must be on, since otherwise the source does not terminate.
- MarcoMinimizers.MarcoMinimizer.Shrink: the random shuffling branch is left out.
- SeedSolvers.FindExtreme: the solvers of the map, which all hold the same clauses, are one clause list, loaded into a new solver for each question; that a solver kept between the questions answers the same is `MaxSatSessions.Run`. The number of clauses is kept below the largest unsigned value.
- MaxSat.Msu4MaxSatSolver.AddCardinality: the sorted copy of the last inputs is a multiset.
- PboMaxSat.PboMaxSatSolver.AssumpSolve: the sorted copy of the assumptions, by which bounds are kept, is a multiset.
- The totalizer encoding, hitting-set finder, MUS finder, validity-core enumeration, debugging engines, bounded model checking and the AIGER library are not part of this model.
- CdclSolvers.Solver.Search: the restart rule is the one by number of conflicts; the rule by averages of floating-point numbers, deletion and simplification of learnt clauses, imported clauses and unary watches are left out.
- CdclSolvers.Solver.PickBranchLit: any unassigned variable with any sign, in place of the activity heap and saved polarities.
- CdclSolvers.Solver.Analyze: selectors of the incremental build, activities and the quality measure stored with the clause are left out.
- The value of a variable is read off the trail; the array of values is not a second copy of it.
