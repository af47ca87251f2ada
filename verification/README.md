# Ensemble runtime: a verified model

This project models the in-process ensemble runtime `EnsembleFabric` as a transition system, the
decision functions it calls (quorum, consensus, arbitration) and the byte formats it speaks (wire
frames, CRC32C, the specification encoding), and proves properties of whole runs of that model.

How the files fit together:

- `Spec`, `Records`, `Lifecycle`: specifications with their validation, and the runtime's records as values.
- `Quorum`, `Consensus`, `Arbitration`, `Sorting`, `Reports`: the decision kernel, each computation as a
  function and as the loops that compute it; `Recomputation` says when recomputing repeats itself.
- `Attempts`, `Participants`, `Definition`, `Ingest`, `Progress`, `Finalization`, `Snapshots`: every
  operation as a function from state to state, state files included.
- `Loops`, `Fabric`: the same operations as methods of a class that updates its fields; every method is
  proved to compute exactly the function above.
- `Monotone`, `Invariants`, `Advancing`, `Ledger`, `Publishing`, `Restoration`, `System`, `Identities`,
  `Runs`: the preorder every operation respects, the invariants every operation keeps, and their
  extension to runs.
- `Authority`, `Safety`, `EvidenceKept`, `Settling`, `Idempotence`, `Guard`, `Coverage`, `Standing`,
  `Recovery`: the theorems.
- `Scenario`: one concrete run, whose states meet the premises of the theorems about behaviour that a
  reader would not expect; `Scenario.SomeRun` shows that it exists whatever the digests are.
- `LittleEndian`, `Crc32c`, `Frames`, `Channel`, `Grammar`, `Streams`, `SpecCodec`: the byte formats.

A run is a sequence of states joined by steps of nineteen kinds. `finalize` takes the lock three times,
so it is three steps of a thread that anything may come between; `restart` is two, and so is recovery: a
new process loads the state file the last one left, then invalidates. A commit may present any result
that was ever prepared, at any later time and any number of times. Each ensemble has an append-only log
of everything it dispatched, accepted, prepared and published, across processes; retry budgets,
provenance and exactly-once are statements about that log.

The state machine calls the decision kernel and the frame codec calls its checksum through a field of
their configuration; what holds for any kernel or checksum is proved once for all of them, and the
theorems that need the real ones say so (`Faithful`, `StandardWire`).

Some natural-sounding claims are false of the code, and the model keeps the code's behaviour:

- Recomputing reports can alternate between two answers; `Recomputation.RecomputationRepeatsExactlyWhen`
  gives the exact condition, `Recomputation.UnansweredJudgesAlternate` a family of inputs, and
  `Scenario.RecomputationAlternatesHere` a state of a run where it does.
- Arbitration counts hard-predicate evidence instead of matching it to criteria;
  `Coverage.CountForcesCoverageExactlyWhen` says exactly when the count is enough.
- Quorum impossibility is not stable, whatever the comment in the source says:
  `Quorum.ImpossibleStaysExactlyWhen` says when it lasts as long as nobody regains standing,
  `Standing.RegistrationRevivesExactlyWhen` when a registration ends it, and
  `Scenario.RegistrationRevives` shows one that does.
- The loop of `advance` can run into its guard: `Guard.GuardEndsTheLoopExactlyWhen` says exactly when,
  from the state before the call, and `Scenario.GuardIsReached` shows a run where it does.
- Recovery observes neither the identities of planned evaluations, which are not in the file at all, nor
  those of retained results: `Recovery.EvaluationIdentityIsFreshExactlyWhen` and
  `Recovery.ResultIdentityIsFreshExactlyWhen` say exactly which identities stay apart whatever file is
  recovered, `Recovery.LostPlanIsReissued` and `Recovery.RetainedResultIsReissued` show two that do not,
  and `Recovery.IdentitiesAreNeverReused` shows that the files the runtime writes are safe.
- A failure report can give standing back, when it overwrites another kind of absence:
  `Standing.FailureLosesStandingExactlyWhen`.

## Model

| member | source | states |
|---|---|---|
| Authority.AuthorityIsNeverResurrected | src/fabric_ingest.cpp:59-139 | in every run, a candidate authority accepted at one step and rejected at a later one is rejected at every step after that |
| Authority.AcceptanceIsConvex | src/fabric_ingest.cpp:59-139 | a state between two states that accept an authority accepts it too, because epochs, generations and execution identities only grow |
| Authority.EvaluatorIsNeverResurrected | src/fabric_ingest.cpp:265-341 | the same for the tokens of an evaluation submission: evaluator incarnation, execution and candidate generation |
| Authority.ReporterIsNeverResurrected | src/fabric_participant.cpp:191-222 | the same for the incarnation named by a participant failure report |
| Runs.ReachableIsGood | src/fabric_internal.hpp:17-159 | the whole invariant (slots, stages, evidence, results, finalizers) holds in every state of every run |
| Runs.RunsAdvance | src/fabric_internal.hpp:17-159 | any two states of a run are related by the forward preorder: identities, generations, results and terminal states never go back |
| Runs.StepAdvances | src/fabric_internal.hpp:164-213 | every operation moves the runtime forward in that preorder |
| System.StepKeeps | src/fabric_internal.hpp:164-213 | every operation keeps the invariant |
| System.LoadKeeps | src/fabric_persist.cpp:2040-2224 | loading the file the runtime left gives the same ensembles against the same logs, one epoch later, and moves nothing back |
| Identities.StepIdentifies | src/fabric_internal.hpp:164-213 | every operation keeps all recorded identities behind their allocators and all evaluations about questions the specification asks |
| Safety.CommittedAtMostOnce | src/fabric_commit.cpp:496-601 | under any interleaving of finalizers and commits, no execution is published twice, and every published result is the stored form of one prepared for the same generation, execution and epoch |
| Safety.CurrentResultWasCommitted | src/fabric_commit.cpp:547-599 | the result an execution carries is one of the logged publications |
| Safety.ResultsAreFinal | src/fabric_commit.cpp:510-539 | while an execution is current its result never changes and its status never returns to open; cancelled, superseded or to be revalidated without a result, it never gets one |
| Safety.SameDecisionSameFingerprint | src/fabric_commit.cpp:547-551 | a finalizer that lost the race with the same decision presents the stored fingerprint |
| Safety.CommittedPayloadWasAccepted | src/fabric_commit.cpp:474-489 | every COMMITTED result of every run rests on a reached quorum and a settled consensus, and carries exactly the non-empty bytes accepted, once, for the selected candidate generation |
| Safety.UndisturbedFinalizeIsSound | src/fabric_commit.cpp:603-666 | finalize without interference that answers a result committed a candidate that passes every hard gate on the evidence of that moment |
| Publishing.SelectionRestsOnQuorum | src/fabric_commit.cpp:403-414 | a selection exists only over a reached quorum and a consensus that is resolved, or a tie under a deciding tie-break, and not on a cancelled, superseded or to-be-revalidated execution |
| Publishing.SelectionPassedEveryGate | src/arbitration.cpp:172-299 | the selected candidate is present, holds content and passes the eligibility gates |
| Publishing.PublicationKeeps | src/fabric_commit.cpp:541-601 | publishing a prepared result keeps the ensemble invariant: first of its execution, winner and losers marked among accepted content only |
| Safety.StageBarrier | src/fabric_execution.cpp:366-504 | in every reachable state in-flight work belongs to the current stage and to a participant it lists, later stages have no candidates, a consumed plan leaves nothing in flight, and a sequential stage has at most one dispatched candidate with all earlier ones resolved |
| Safety.SettledHasNothingInFlight | src/fabric_execution.cpp:104-139 | an open execution that counts as settled has nothing in flight at all |
| Advancing.CompleteStageIsResolved | src/fabric_execution.cpp:24-40 | a complete stage leaves nothing in flight, so the barrier holds for the next one |
| Safety.RetryBudget | src/fabric_participant.cpp:39-84 | attempts used equal dispatches logged, never exceed the policy, leave one while declared; no attempt generation is dispatched twice or accepts two completions |
| Advancing.DispatchKeeps | src/fabric_execution.cpp:466-495 | dispatching a declared slot spends one attempt, logs one dispatch of its generation and keeps the execution invariant |
| Ledger.CompletionKeeps | src/fabric_ingest.cpp:154-206 | accepting the completion of a dispatched slot logs it once and keeps the ensemble invariant |
| Invariants.NothingToSupersede | src/fabric_participant.cpp:9-21 | withdrawing the evidence of a slot without accepted content changes nothing |
| Invariants.ReleaseKeeps | src/fabric_participant.cpp:86-112 | a participant failure retries or ends the slots it served and touches nothing but slots |
| Safety.EvidenceIsCurrent | src/fabric_ingest.cpp:329-446 | every stored evaluation names the present generation of a candidate with accepted content, each source answers a criterion about a candidate once, and hard evidence is about mandatory criteria |
| EvidenceKept.EvidenceIsNeverDiscarded | src/fabric_participant.cpp:61-112 | no step but invalidation takes an accepted evaluation away or makes it stale |
| Safety.FallbackAtMostOnce | src/fabric_execution.cpp:641-696 | fallback depth equals the number of synthesized stages and is at most one |
| Settling.LoopSettles | src/fabric_execution.cpp:359-703 | from every reachable state the loop settles within three rounds, and more rounds give the same result unless a plan stays impossible |
| Guard.GuardEndsTheLoopExactlyWhen | src/fabric_execution.cpp:359-703 | the guard of 64 ends the loop if and only if, before the call, all evaluators are verifiers without a mandatory criterion, some candidate has content, the remaining stages end without a dispatch, and the fallback is not due or would be over at once as well |
| Guard.StageLoopEnds | src/fabric_execution.cpp:365-504 | the stage loop gets past every stage if and only if nothing in flight can be served and every slot still to be declared is out of reach, and then every such slot has failed |
| Guard.FallbackDueBehind | src/fabric_execution.cpp:639-662 | behind the last stage the fallback is activated if and only if it was due before the first one |
| Scenario.GuardIsReached | src/fabric_execution.cpp:359-363 | in a state reached by eight operations an advance goes through all 64 rounds |
| Idempotence.SecondAdvanceIsSilent | include/ensemble_fabric/fabric.hpp:207-210 | in every reachable state a second advance right after a successful one succeeds with no actions |
| Settling.QuietRound | src/fabric_execution.cpp:361-699 | a quiet state performs nothing, stays quiet, and reports progress only while a plan is missing |
| Settling.PassSettles | src/fabric_execution.cpp:413-496 | one dispatch pass ends quietly or with one sequential dispatch behind idle slots |
| Settling.PlanStepSettles | src/fabric_execution.cpp:506-589 | planning leaves no content unplanned unless no evaluator has anything to evaluate |
| Settling.ActivationIsStable | src/fabric_execution.cpp:639-662 | recomputing reports shows the fallback triggers the same picture |
| Coverage.CountForcesCoverageExactlyWhen | src/arbitration.cpp:227-248 | counting hard evidence forces a PASS on every mandatory criterion if and only if there is nothing to cover, nobody to answer, or UNKNOWN is failure and there is one criterion or one source |
| Coverage.EligibleIsCovered | src/arbitration.cpp:227-248 | in every reachable state an eligible candidate whose hard evidence comes from one verifier generation has a PASS on every mandatory criterion, when UNKNOWN is failure |
| Coverage.SummaryCountsHardEvidence | src/fabric_execution.cpp:44-102 | the summary's hard counters are the number of current hard evaluations and of the failed and unknown ones among them |
| Recomputation.RecomputationRepeatsExactlyWhen | src/fabric_commit.cpp:123-310 | recomputing reports repeats them, apart from the sequence, if and only if the exhausted fallback does not depend on the judges' disagreement alone |
| Recomputation.RecomputationIsIdempotent | src/fabric_commit.cpp:221-241 | without the judge_disagreement trigger recomputation is idempotent |
| Recomputation.UnansweredJudgesAlternate | src/fabric_execution.cpp:286-290 | evaluators that never answered make an exhausted fallback alternate, whatever became of its slots |
| Scenario.RecomputationAlternatesHere | src/fabric_execution.cpp:286-290 | in a state reached by eight operations every recomputation undoes the last one |
| Recomputation.ReportsShape | src/fabric_commit.cpp:123-300 | a recomputation depends on the evidence, on its sequence only by copying it, and on earlier reports only through what the trigger saw |
| Recovery.NewEpochLeavesNobody | src/fabric_persist.cpp:2272-2287 | after the second section of a restart, or the loading of a state file, nobody is authoritative, registrations in between included |
| Recovery.NewEpochFencesPreparedResults | src/fabric_persist.cpp:2281-2286 | nothing prepared before a restart or a recovery commits in any continuation of the run |
| Recovery.RecoveryContinuesTheRun | src/fabric_persist.cpp:2093-2270 | loading and invalidating are recovery on a fresh process, and the run goes on under the same invariant |
| Recovery.IdentitiesAreNeverReused | include/ensemble_fabric/ids.hpp:165-191 | in every run, through restarts and recoveries, no allocator ever hands out an identity that a state recorded: ensembles, candidates, planned and accepted evaluations, current and retained results |
| Recovery.EvaluationIdentityIsFreshExactlyWhen | src/fabric_persist.cpp:2211-2243 | whatever file is recovered, an evaluation identity is never handed out again if and only if it is below the allocator of the process, below the watermark, or not above some stored evaluation |
| Recovery.ResultIdentityIsFreshExactlyWhen | src/fabric_persist.cpp:2217-2248 | the same for result identities, where only current results count and retained ones do not |
| Recovery.LostPlanIsReissued | src/fabric_persist.cpp:2211-2243 | a file that understates its watermark makes the next evaluation bear an identity used before |
| Recovery.RetainedResultIsReissued | src/fabric_persist.cpp:2245-2248 | a retained result is recovered and its identity handed out again |
| Recovery.LoadLeavesNobody | src/fabric_persist.cpp:2200-2224 | even before the invalidation runs, participants of the saved epoch hold no authority |
| Recovery.RecoveryKeepsResults | src/fabric_persist.cpp:2249-2257 | recovery restores results and history verbatim and turns open executions into ones to be revalidated |
| Recovery.RecoveredIdentitiesStayFresh | src/fabric_persist.cpp:2226-2248 | whatever file is recovered, no allocator ever hands out the identity of a recovered ensemble, candidate, accepted evaluation or current result |
| Recovery.NeverAllocatedExactlyWhen | include/ensemble_fabric/ids.hpp:167-191 | an allocator never hands out an identity if and only if it has passed it or it is the reserved last one |
| Quorum.PercentageCeilingIsLeast | src/quorum.cpp:25-31 | the threshold is the least count whose hundredfold reaches denominator times percent, and never exceeds the denominator up to 100 percent |
| Quorum.DuplicateVoteIsSuppressed | src/quorum.cpp:65-73 | a vote with a key already present changes the suppressed count and nothing else |
| Quorum.UniqueVotesHaveDistinctKeys | src/quorum.cpp:33-46 | no participant generation keeps two votes on a candidate |
| Quorum.DenominatorIsPartitioned | src/quorum.cpp:141-152 | contributors, abstentions and silent members add up to the denominator |
| Quorum.ImpossibleStaysExactlyWhen | src/quorum.cpp:216-236 | an impossible quorum stays impossible while nobody regains standing if and only if its basis is not who voted, or a role quota is out of reach, or not even the votes of everybody that would count reach the minimum |
| Quorum.RegainedStandingRevivesExactlyWhen | src/quorum.cpp:216-236 | when one member regains standing the quorum is possible again if and only if what it adds closes the gap to the minimum and to every role quota |
| Standing.RegistrationRevivesExactlyWhen | src/quorum.cpp:221-225 | the same for a registration, which brings back exactly one member |
| Standing.RegistrationRegainsStanding | src/fabric_participant.cpp:114-189 | a registration strengthens one member and leaves the others alone |
| Standing.FailureLosesStandingExactlyWhen | src/fabric_participant.cpp:223-230 | a failure report only takes standing away unless it overwrites another kind of absence |
| Scenario.RegistrationRevives | src/quorum.cpp:221-225 | in a run a registration turns an impossible quorum into a reached one |
| Quorum.ComputeQuorum | src/quorum.cpp:50-284 | the loops compute the quorum function |
| Consensus.ResolvedExactlyWhen | src/consensus.cpp:73-172 | the consensus is resolved if and only if nothing terminal happened, quorum was reached, someone is eligible, and the best agreement decides, in terms that name no order |
| Consensus.TieExactlyWhen | src/consensus.cpp:119-150 | a tie is reported if and only if votes are counted and two candidates share a best agreement that does not decide |
| Consensus.ConsensusIgnoresTallyOrder | src/consensus.cpp:61-72 | the order of the tallies shows only in the listing that repeats it |
| Consensus.VotesAreConserved | src/consensus.cpp:53-59 | contributors, abstaining and missing add up to the vote basis |
| Consensus.ComputeConsensus | src/consensus.cpp:44-193 | the loops compute the consensus function |
| Arbitration.ArbitrationIgnoresListing | src/arbitration.cpp:303-469 | any permutation of the candidates gives the same selection, ranks and eligible prefix |
| Arbitration.RankingClosedForm | src/arbitration.cpp:340-418 | the ranking lists the eligible candidates in order with ranks 1..n, then the eliminated ones unranked; eligible plus eliminated is considered |
| Arbitration.RankOrderIsStrictTotal | src/arbitration.cpp:149-164 | over distinct identities the comparator is a strict total order |
| Arbitration.SelectionIsEligible | src/arbitration.cpp:420-469 | the selection passed every gate and is the first-ranked, or the second when it ties the first on every factor |
| Arbitration.SelectionPrecedesTheRest | src/arbitration.cpp:352-372 | the first-ranked candidate precedes every other eligible one |
| Arbitration.Arbitrate | src/arbitration.cpp:303-487 | the loops compute the arbitration function |
| Sorting.SortedIsUnique | src/arbitration.cpp:352-372 | under a strict total order every sort returns the same list |
| Spec.AdmittedIsWellFormed | src/spec.cpp:347-357 | an admitted specification has distinct participants, stages and criteria and a positive retry budget |
| Loops.Recompute | src/fabric_commit.cpp:123-310 | collecting members, votes, tallies and inputs in loops computes the reports |
| Loops.SummarizeCandidate | src/fabric_execution.cpp:44-102 | the accumulation loop computes the summary of a candidate |
| Loops.FindTrigger | src/fabric_execution.cpp:655-662 | the trigger loop finds the first configured trigger that fires |
| Loops.RunRounds | src/fabric_execution.cpp:359-699 | the guarded loop computes the iteration the theorems are about |
| Loops.RunStages | src/fabric_execution.cpp:365-504 | declaring, dispatching and completing stage after stage |
| Loops.DispatchStage | src/fabric_execution.cpp:413-496 | the dispatch loop over the slots of a stage |
| Loops.PlanAllCandidates | src/fabric_execution.cpp:532-589 | the planning loops over candidates, evaluators and criteria |
| Loops.EmitEvaluations | src/fabric_execution.cpp:591-637 | the emission loop over planned evaluations |
| Loops.CancelInFlight | src/fabric_execution.cpp:313-338 | the cancellation loop over in-flight candidates |
| Attempts.ReleaseCandidates | src/fabric_participant.cpp:86-112 | the release loop after a participant failure |
| Ingest.FindDuplicate | src/fabric_ingest.cpp:405-420 | the search for an earlier answer to the same question |
| Finalization.MarkCandidates | src/fabric_commit.cpp:574-582 | the loop that marks the winner and the losers |
| Fabric.EnsembleFabric.DefineEnsemble | src/fabric.cpp:98-186 | new state and answer of a definition or redefinition |
| Fabric.EnsembleFabric.SupersedeEnsemble | src/fabric.cpp:188-210 | new state and answer of a supersession |
| Fabric.EnsembleFabric.OpenExecution | src/fabric_execution.cpp:141-189 | new state and answer of opening an execution |
| Fabric.EnsembleFabric.CancelEnsemble | src/fabric_commit.cpp:668-697 | new state and answer of a cancellation |
| Fabric.EnsembleFabric.RegisterParticipant | src/fabric_participant.cpp:114-189 | new state and answer of a registration |
| Fabric.EnsembleFabric.ReportParticipantFailure | src/fabric_participant.cpp:191-244 | new state and answer of a failure report |
| Fabric.EnsembleFabric.InvalidateDynamicAuthority | src/fabric_participant.cpp:246-279 | new state after invalidation |
| Fabric.EnsembleFabric.BeginNextEpoch | src/fabric_persist.cpp:2281-2286 | the epoch advances by one and nothing else changes, or the last epoch is refused |
| Fabric.EnsembleFabric.RestartRuntime | src/fabric_persist.cpp:2272-2287 | the two sections of a restart back to back, refused at the last epoch before anything changes |
| Fabric.EnsembleFabric.RecoverState | src/fabric_persist.cpp:2200-2270 | new state and answer of a recovery from a decoded state |
| Fabric.EnsembleFabric.AdvanceEnsemble | src/fabric_execution.cpp:295-703 | new state, answer and performed actions of an advance, errors included |
| Fabric.EnsembleFabric.SubmitCandidateOutput | src/fabric_ingest.cpp:143-206 | new state and answer of an output submission |
| Fabric.EnsembleFabric.SubmitCandidateFailure | src/fabric_ingest.cpp:208-238 | new state and answer of a failure submission |
| Fabric.EnsembleFabric.SubmitCandidateAbstention | src/fabric_ingest.cpp:240-263 | new state and answer of an abstention |
| Fabric.EnsembleFabric.SubmitCandidateEvaluation | src/fabric_ingest.cpp:265-455 | new state and answer of an evaluation submission |
| Fabric.EnsembleFabric.PrepareResult | src/fabric_commit.cpp:363-494 | new state and prepared result |
| Fabric.EnsembleFabric.CommitResult | src/fabric_commit.cpp:496-601 | new state and answer of a commit, and whether it published |
| Fabric.EnsembleFabric.FinalizeEnsemble | src/fabric_commit.cpp:603-666 | the three sections of finalize back to back, with the error of a decision other than COMMITTED |
| Fabric.EnsembleFabric.NextSequence | src/fabric_internal.hpp:182-185 | the sequence allocator, which answers 1 once exhausted |
| Crc32c.TableRefinesSerial | src/detail/crc32c.cpp:15-37 | for every register and byte one table step equals eight bit-serial steps of the reflected Castagnoli polynomial |
| Crc32c.ChecksumRefinesSerial | src/detail/crc32c.cpp:33-44 | over whole messages the table-driven checksum is the bit-serial one |
| Crc32c.ExtendIsConcatenation | src/detail/crc32c.cpp:33-40 | extending the checksum of a by b is the checksum of a followed by b |
| Crc32c.BuildTable | src/detail/crc32c.cpp:18-26 | the table loops fill in the eight-step results |
| Crc32c.ExtendWith | src/detail/crc32c.cpp:33-40 | the byte loop computes the checksum |
| Frames.DecodeOfEncode | src/protocol.cpp:113-216 | decoding an encoded frame gives it back and consumes exactly its bytes, whatever follows |
| Frames.StrictPrefixNeedsMore | src/protocol.cpp:148-191 | every strict prefix of a frame asks for more data |
| Frames.EncodeOfDecode | src/protocol.cpp:148-216 | whatever is accepted re-encodes to exactly the bytes consumed |
| Frames.WaitingBufferIsBounded | src/protocol.cpp:173-191 | a buffer that needs more data is smaller than the maximum frame |
| Frames.FrameChecksumIsCrc32c | src/protocol.cpp:140-144 | header-then-payload checksumming is the bit-serial CRC32C of both together |
| Frames.EncodeFrame | src/protocol.cpp:113-146 | storing the words computes the encoding |
| Frames.DecodeFrame | src/protocol.cpp:148-216 | loading the words computes the decoding |
| LittleEndian.StoreLe | src/protocol.cpp:26-41 | the store loop writes the little-endian bytes and nothing else |
| LittleEndian.LoadLe | src/protocol.cpp:43-62 | the load loop reads the little-endian word |
| LittleEndian.LeRoundTrip | src/protocol.cpp:26-62 | a word that fits is read back |
| Channel.ReassemblyIgnoresChunking | src/transport.cpp:321-347 | however a stream of frames is cut, repeated receives yield exactly those frames in order |
| Channel.RuntimeStreamsReassemble | src/transport.cpp:321-347 | the same for the checksum the runtime uses |
| Channel.ReceivesNextFrame | src/transport.cpp:321-347 | one receive yields the next frame and leaves exactly what follows it |
| Channel.InboundGuardIsUnreachable | src/transport.cpp:335-338 | the inbound-buffer-exceeded branch is never taken |
| Channel.FrameChannel.ReceiveFrame | src/transport.cpp:321-347 | the receive loop, its buffer and its answer |
| Grammar.ParseOfPrint | src/persistence.cpp:63-229 | parsing a printed value gives it back and leaves what follows |
| Grammar.PrintOfParse | src/persistence.cpp:118-229 | whatever is parsed conforms to its bounds and prints back to the bytes consumed |
| Grammar.ParseAllExactlyWhen | src/persistence.cpp:231-238 | a whole message parses to a value if and only if it is that value's printed form |
| Streams.Encoder.PutWord | src/persistence.cpp:77-95 | a word appends its little-endian bytes, with the buffer first set to the cap where they would pass it |
| Streams.Encoder.PutBytes | src/persistence.cpp:108-116 | a byte string appends its length and content, each under the same rule |
| Streams.Decoder.TakeWord | src/persistence.cpp:121-159 | a word is read and the cursor advanced, or the input is truncated |
| Streams.Decoder.TakeFlag | src/persistence.cpp:169-178 | a flag is 0 or 1, anything else is malformed |
| Streams.Decoder.TakeBytes | src/persistence.cpp:191-229 | a byte string's declared length is checked against its bound before it is taken |
| Streams.Write | src/fabric_persist.cpp:139-330 | what writing a record makes of the buffer, cap or no cap |
| Streams.WritingPrints | src/persistence.cpp:55-116 | as long as the cap is not passed, writing appends exactly the printed form |
| Streams.Read | src/fabric_persist.cpp:154-366 | reading a record follows the parser, errors included |
| SpecCodec.DecodesExactlyWhen | src/fabric_persist.cpp:370-627 | bytes decode to a specification if and only if it is valid, fits the format and encodes to those bytes |
| SpecCodec.DecodeOfEncodeSpec | src/fabric_persist.cpp:370-627 | decoding an encoded valid specification gives it back |
| SpecCodec.EncodeOfDecodeSpec | src/fabric_persist.cpp:436-627 | every accepted byte string re-encodes to itself |
| SpecCodec.WriteSpec | src/fabric_persist.cpp:370-434 | writing through the encoder produces the encoding whenever it fits the cap, and the clipped buffer otherwise |
| SpecCodec.ReadSpec | src/fabric_persist.cpp:436-627 | reading through the decoder produces the decoding |

## Left out

- Sockets, threads, the coordinator event loop, client, worker and command-line tools; the channel sees a socket as the chunks it will deliver.
- Files: reading, atomic rename and the state file container; recovery starts from a decoded state, in a run from the one written last. The remaining message, result and snapshot codecs follow the pattern of the specification codec.
- Text without effect on decisions: rendering, explanations, notes, failure details, elimination reasons, name tables, and the domain carried by slots and actions.
- Accounting without effect on decisions: per-participant completion counts, commit attempts and commit records, candidate and evaluation snapshots inside results, the hard counters cached in candidates, cancellation and commit sequences kept in executions.
- Digests: the commit fingerprint is an arbitrary function of what it digests, the evaluation fingerprint a number of the submission, the specification fingerprint an arbitrary function; collisions are allowed everywhere.
- IEEE doubles: scores are reals in the runtime and opaque 64-bit words in the codec; a submitted score or weight that is not finite is an absent number.
- Unchecked 32- and 64-bit increments of participant and candidate generations, attempts and report generations: these are unbounded here. Identity allocators, ensemble generations and execution identities have their 64-bit ends.
- Pointers into vectors: records are values in sequences and maps, and an operation writes the changed record back; aliasing between a record and its container is not modelled.
- Crc32c.TableRefinesSerial: the register is a list of 32 bits, not a machine word; conversions between the two are not modelled.
- Loops.DispatchStage: the flag that remembers a dispatch in the same pass is dropped, since a sequential pass ends at its first dispatch.
- Streams.Write: the field-by-field encoder functions are one printer driven by a description of the record, in the same order and with the same bounds.
- Frames.EncodeFrame: stores the header words in layout order, twice, instead of the checksum word alone the second time.
- Fabric.EnsembleFabric.BeginNextEpoch: refuses the last epoch itself, where the source refuses before the invalidation and then increments unconditionally; two restarts racing at the last 64-bit epoch are not modelled.
- Identities above 64 bits: allocators and observations ignore them, since no machine word holds them.
- Liveness: that every execution eventually settles is not true of the runtime and is not claimed.
- Textual identities: parsing and printing of identity numbers.
