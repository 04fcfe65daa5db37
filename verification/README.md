# Verified model of the batch-framework workloads

The repository drives a batch framework with four kinds of workload: an endurance campaign whose controller may die
at any moment, a restartable source-to-destination transform, a locally partitioned projection, and a CSV import.
This project models the repository's own protocols, accounting, encoders and arithmetic, and proves what they are for.
One module per component, all files side by side; `dafny verify dfyconfig.toml` checks everything.

| module | what it models |
|---|---|
| `Decimal` | printed decimal numbers and their parsers |
| `Resume`, `EvidenceScan`, `EvidenceStore` | reconciliation, the three scans and file names, durable writes with torn appends and leftover temporary files |
| `Controller`, `Campaign`, `Planner`, `Summary` | a controller invoked again and again, the guarded batch and acceptance loop, iteration plans and import names, the final summary |
| `Sampler`, `AdmissionGate` | the two concurrent protocols, one lock section or atomic operation a step |
| `Transform`, `Failpoint`, `MergeVerify`, `RowCodec` | the transform with crashes, recoveries and source writers; fault injection; the merge verifier; every hashed encoding |
| `PartitionPlan`, `PartitionReplay`, `PartitionBusiness` | range planning and the durable plan check; kills, restarts and refused recovery; the business check of the destination |
| `UniformRange`, `CsvFile`, `Inserts` | rejection sampling, CSV printing and reading, bounded inserts and the benchmark's accounting |

## Assumptions

- Storage and processes are scripted. In `Controller` every durable step takes an outcome: it succeeds, fails, or the
  controller dies during it, and then any part of the write may have reached disk: nothing, part of a line, a line
  without its newline, a temporary file without its rename. One controller runs at a time, and every sequence it runs
  comes from resume selection.
- The framework is the environment of `Transform`, `Failpoint` and `PartitionReplay`: it commits a chunk's rows and
  position together, refuses to launch over a nonterminal or completed execution, opens one transaction for each
  nonempty chunk and never retries one. STARTING, STARTED, STOPPING and UNKNOWN are one status, `Running`.
- Hashes are functions on the hashed text. Only where equal digests must mean equal contents is the hash required to be
  injective; that the text itself determines the content is proved in `RowCodec`.
- Upper-casing, trimming, time rendering and parsing, and the truncation of a hash to sixteen bytes are parameters.
  Text in PostgreSQL holds no NUL.
- `PartitionReplay` has one live run at a time; the source may change at any moment.

## Findings

- A controller that dies between `finalize_success`'s two writes, or whose last append tears, leaves a campaign that no
  later invocation will continue (`DyingBetweenFinalWrites`, `NotReadyIsFinal`; the first invocation of a fresh campaign
  can already do it: `FirstInvocationCanWedge`). An append that lost only its newline still reconciles, but the next
  invocation that gets as far as spawning a child has made the log unreadable for good (`PoisonedForGood`, reached in
  `SecondInvocationPoisons`).
- Partition keys sort in index order exactly up to 10000 partitions; beyond that `verify_framework` rejects every
  durable plan, the correct one included (`KeyOrderIsIndexOrder`, `FrameworkPasses`).
- The destination's fingerprint column has no length constraint, and the actual digest's input alone cannot tell two
  rows from one with a longer fingerprint (`LongFingerprintCollides`); the merge itself still reports the difference.
- `quote_csv_field` does not quote a carriage return; a field survives printing exactly when it has none or holds
  another character that forces quotes (`RecordReads`).
- A periodic sample can follow the terminal boundary sample (`PeriodicAfterTerminal`). In a run that finalizes success
  the terminal boundary is the last line exactly when no turn the sampler began between pushing it and stopping found
  its period due (`TerminalIsLastExactly`).
- The partition workload takes no lock on its source. A row that changes under a live run is written as it is then, and
  the partition owns what its plan recorded exactly when its part of the source still agreed with it at its last write
  (`PartitionsAreAtomic`, `WorkOwnsExactly`); if the source changes only between runs it always does (`QuietPartitions`).
- The business check of the partition workload reads the source when it runs, so it rejects a row whose source changed
  after its partition's last write and accepts one that changed before it, planned or not (`CompletedRunPasses`). Its
  destination digest alone does not identify the rows; together with the row count it does (`DigestAloneConfuses`,
  `CountedTextIdentifies`).
- On a restart that dispatches fewer tasks than workers the admission gate never opens (`TooFewNeverPass`).
- The reader mode is in the job key but not in the destination key: once one mode has committed rows of a content, no
  later run of the other commits or completes over it (`OtherModeNeverCompletes`).

## Model

| member | source | states |
|---|---|---|
| `Resume.ReconcileSequences` | postgres-postgres/src/endurance/resume.rs:433-558 | the loop's answer is a correct `Decision`: a loop-free description of state, frontier, next, blocked sequence and a reason that is true of the evidence |
| `Resume.NextHigher` | postgres-postgres/src/endurance/resume.rs:440-448 | the least sequence above a given one, or that there is none |
| `Resume.DecisionDetermined` | postgres-postgres/src/endurance/resume.rs:433-558 | two correct decisions agree on state, frontier, next and blocked sequence |
| `Resume.FrontierMaximal` | postgres-postgres/src/endurance/resume.rs:515-529 | the frontier is the longest complete prefix |
| `Resume.ReadyExactly` | postgres-postgres/src/endurance/resume.rs:560-573 | ready at f if and only if the sequences present are exactly 1..f (below the u64 limit), each with one success event, one singleton and no failure trace; the next sequence is then new |
| `Resume.BlockedFailureExactly` | postgres-postgres/src/endurance/resume.rs:495-513 | blocked by failure at f if and only if only sequence f + 1 deviates, and by failing |
| `Resume.BlockedIncompleteExactly` | postgres-postgres/src/endurance/resume.rs:531-549 | blocked as incomplete at f if and only if only sequence f + 1 deviates, and by never finishing |
| `Resume.NeverUnclassified` | postgres-postgres/src/endurance/resume.rs:551-556 | the "unclassified" branch is unreachable on anything the scans produce |
| `EvidenceScan.IterationNameExactly` | postgres-postgres/src/endurance/resume.rs:366-379 | a file name is read as sequence s if and only if it is the name printed for s |
| `EvidenceScan.FailureNameExactly` | postgres-postgres/src/endurance/resume.rs:381-406 | a failure name is read as s if and only if it is the padded s, a dash and u64 digits |
| `EvidenceScan.FailureNameParses` | postgres-postgres/src/endurance/evidence.rs:204-226 | every failure name the store writes reads back as its sequence |
| `EvidenceScan.TempNameRejected` | postgres-postgres/src/endurance/evidence.rs:524-572 | neither scan takes a leftover temporary file for evidence |
| `EvidenceScan.ScanEvents` | postgres-postgres/src/endurance/resume.rs:168-215 | accepts exactly the logs without a bad line, and counts events per sequence as the multiset of notes does |
| `EvidenceScan.ScanIterations` | postgres-postgres/src/endurance/resume.rs:217-286 | accepts exactly the directories without a bad entry or a second singleton, and marks each sequence |
| `EvidenceScan.ScanFailures` | postgres-postgres/src/endurance/resume.rs:288-334 | accepts exactly the directories without a bad entry, and counts artifacts per sequence |
| `EvidenceScan.NoteStep` | postgres-postgres/src/endurance/resume.rs:168-334 | one scanned note either rejects the scan or changes one sequence's entry by one |
| `EvidenceScan.EvidenceIsScanned` | postgres-postgres/src/endurance/resume.rs:168-334 | the evidence the scans build satisfies everything the reconciliation results assume of it |
| `EvidenceStore.ReconcileResumeStatus` | postgres-postgres/src/endurance/resume.rs:84-166 | the status is inconsistent with frontier 0 when a scan rejects, and otherwise a correct decision on the whole evidence |
| `EvidenceStore.ReadableExactly` | postgres-postgres/src/endurance/resume.rs:168-406 | no scan rejects if and only if every log line parses with the literal schema, version 1, this campaign, a positive sequence and a phase, every directory entry is a regular file whose name prints the sequence of such a record with the right terminal, and no two singletons share a name |
| `EvidenceStore.OrderIrrelevant` | postgres-postgres/src/endurance/resume.rs:168-334 | reordering log lines and directory listings changes neither state nor numbers |
| `EvidenceStore.PhaseKindExactly` | postgres-postgres/src/endurance/evidence.rs:169-180 | the scans read every recorded phase name as the kind it was recorded as |
| `EvidenceStore.AppendEffect` | postgres-postgres/src/endurance/evidence.rs:506-522 | an append adds exactly its event, or adds nothing, or makes the log unreadable when it tears or lands on an unfinished line |
| `EvidenceStore.PutSingletonEffect` | postgres-postgres/src/endurance/evidence.rs:182-202 | an atomic singleton write adds exactly its singleton, or nothing, or a rejected temporary file |
| `EvidenceStore.PutFailureEffect` | postgres-postgres/src/endurance/evidence.rs:204-226 | a failure write adds or replaces one artifact, or does nothing, or leaves a rejected temporary file |
| `EvidenceStore.PerformEffect` | postgres-postgres/src/endurance/evidence.rs:169-226 | any step under any outcome gains at most its own note or makes the evidence unreadable; a step seen to succeed has left its note |
| `Controller.ProgramShape` | postgres-postgres/src/endurance.rs:148-256 | in clean and crash iterations alike the first spawn follows a recorded nonterminal event, and only nonterminal events are recorded before the ending |
| `Controller.FinishedInvocation` | postgres-postgres/src/endurance.rs:148-256 | an invocation that runs to its end over a finished log appended exactly the literal phases of a clean iteration, or of a crash iteration when s % 50 is 24 or 49, terminal success included, and spawned exactly that iteration's children in order |
| `Controller.SpawnBeforeStarted` | postgres-postgres/src/endurance.rs:258-293 | however an invocation ends, each attempt to record a child's start came right after that child's spawn |
| `Controller.SpawnLeavesTrace` | postgres-postgres/src/endurance.rs:167-216 | a program that spawned a child has left an event of its sequence or unreadable evidence, wherever it died |
| `Controller.SelectionExactly` | postgres-postgres/src/endurance/progress.rs:67-130 | the status names s as next if and only if exactly 1..s-1 are present and complete |
| `Controller.NoSequenceSpawnedTwice` | postgres-postgres/src/endurance/progress.rs:67-130 | over every run of invocations under every outcome the sequences whose children were spawned strictly ascend |
| `Controller.FrontierNeverDecreases` | postgres-postgres/src/endurance/resume.rs:84-166 | the reported frontier never decreases over any run; once a scan fails every later status is inconsistent |
| `Controller.StartedNeverReselected` | postgres-postgres/src/endurance/resume.rs:531-549 | a sequence with a recorded event is never selected again |
| `Controller.NotReadyIsFinal` | postgres-postgres/src/endurance/progress.rs:67-130 | once the status is not ready no later invocation changes anything |
| `Controller.InvocationShape` | postgres-postgres/src/endurance/evidence.rs:296-431 | after any invocation its sequence has no trace, is incomplete, failed, complete or has an unsealed singleton, or the evidence is unreadable; success leaves it complete, and a spawn leaves a trace |
| `Controller.NextStatus` | postgres-postgres/src/endurance/resume.rs:433-558 | the next status, exactly, for each of those shapes |
| `Controller.WorkingStorageFinalizesOne` | postgres-postgres/src/endurance/sampling.rs:384-436 | with working storage every invocation finalizes exactly one of success and failure and the log is never torn, also when a step fails or the sampler behind a fully written event reports an error |
| `Controller.DyingBetweenFinalWrites` | postgres-postgres/src/endurance/evidence.rs:389-412 | death between the singleton and its terminal event makes the status inconsistent at that sequence |
| `Controller.FirstInvocationCanWedge` | postgres-postgres/src/endurance/evidence.rs:389-412 | the first invocation of a fresh campaign can die there, and then no later invocation continues the campaign |
| `Controller.LostNewlinePoisons` | postgres-postgres/src/endurance/evidence.rs:506-522 | after an append that lost only its newline, any later program that spawns a child has made the evidence unreadable |
| `Controller.PoisonedForGood` | postgres-postgres/src/endurance/evidence.rs:506-522 | and the whole invocation, endings included, leaves it unreadable |
| `Controller.SecondInvocationPoisons` | postgres-postgres/src/endurance/evidence.rs:506-522 | reached from a fresh campaign in two invocations: sequence 2 is selected over the unfinished line, and running it makes the evidence unreadable |
| `Controller.Store.RecordEvent` | postgres-postgres/src/endurance/evidence.rs:169-180 | the store's log after the append, and what the caller sees |
| `Controller.Store.WriteSuccess` | postgres-postgres/src/endurance/evidence.rs:182-202 | the singleton is written once; an existing one is refused and kept |
| `Controller.Store.WriteFailure` | postgres-postgres/src/endurance/evidence.rs:204-226 | the failure artifact is written atomically under its timestamped name |
| `Controller.Store.FinalizeSuccess` | postgres-postgres/src/endurance/evidence.rs:389-412 | singleton first, terminal event second, stopping at the first failure |
| `Controller.Store.FinalizeFailure` | postgres-postgres/src/endurance/evidence.rs:414-431 | artifact first, terminal event second, stopping at the first failure |
| `Controller.Store.ExecuteIteration` | postgres-postgres/src/endurance/sampling.rs:337-437 | the store after a whole invocation is the one the run theorems speak of |
| `Controller.Store.ExecuteNext` | postgres-postgres/src/endurance/progress.rs:26-66 | runs if and only if the status is ready, and then exactly the selected sequence |
| `Campaign.ExecuteGuardedBatch` | postgres-postgres/src/endurance/guarded_batch.rs:61-217 | a reported batch completed the sequences right after its starting frontier, allowed exactly those, says why it stopped, and its terminal status is the durable one; a batch without a completed step changed nothing; each attempt was allowed if and only if its guard exited with zero, and each kind of block has its literal cause |
| `Campaign.StepGuard` | postgres-postgres/src/endurance/guarded_batch.rs:168-217 | a one-step batch that completed its count had a guard that exited with zero, and one that reports a guard block did not |
| `Campaign.AfterSuccess` | postgres-postgres/src/endurance/guarded_batch.rs:123-150 | a successful step moves the frontier to its sequence, or the evidence is unreadable |
| `Campaign.RunAcceptanceLoop` | postgres-postgres/src/endurance/campaign.rs:125-257 | over any clock and any steps: floors satisfied only when elapsed time and frontier both reach their minimum; every step but the last advanced the frontier by one; nothing runs after a block; iterations are final minus initial frontier; a strictly advancing clock with succeeding steps reaches the floors |
| `Campaign.RealStepPasses` | postgres-postgres/src/endurance/campaign.rs:186-240 | a one-iteration batch run on the store whose status the loop holds passes each of the loop's checks, start frontier included; only unreadable evidence can make its terminal frontier wrong; a guard block leaves the frontier unchanged |
| `Campaign.RunCampaign` | postgres-postgres/src/endurance/campaign.rs:87-123 | the loop over real batches on one store: the mismatch errors are unreachable while the evidence can be read; the terminal status is the durable one; after n steps the floors stop at initial frontier plus n, a guard block at initial frontier plus n - 1; every step that advanced had a guard that exited with zero, and a guard block means the last one did not; the reported time is the clock's last reading |
| `Planner.ValidatorExactly` | postgres-postgres/src/endurance.rs:357-385 | the validator accepts a name for an identity if and only if the planner prints it for that identity |
| `Planner.ParsePrinted` | postgres-postgres/src/endurance.rs:104-129 | every planned import name reads back as its campaign and sequence, underscores and digits in the id included |
| `Planner.PlannerInjective` | postgres-postgres/src/endurance.rs:104-129 | one name, one iteration |
| `Planner.PlannedNameShape` | postgres-postgres/src/endurance.rs:104-129 | every planned import name ends with its reader, cursor exactly for odd sequences, and is 25 to 86 letters, digits, dashes and underscores long |
| `Planner.CleanupBusiness` | postgres-postgres/src/endurance.rs:320-332 | deletes exactly the rows of the one iteration the name identifies, counts them, and refuses any other name untouched |
| `Summary.Violations` | postgres-postgres/src/endurance/summary.rs:502-706 | the violations of a record are exactly the ways it departs from its plan, each once, in the order looked for; there is none if and only if the record is what a run of its plan writes |
| `Summary.ScanIterations` | postgres-postgres/src/endurance/summary.rs:502-689 | succeeds exactly when every singleton up to the frontier is there and is this campaign's success record of its sequence; the counts are then the tally of all records, the violations are exactly each sequence's departures in order, and there is none exactly when all are faithful |
| `Summary.CountsAreScheduled` | postgres-postgres/src/endurance/summary.rs:502-689 | without violations the counts are (n+26)/50 and (n+1)/50 crashes, the rest clean, (n+1)/2 cursor and n/2 paging |
| `Summary.ScheduleStep` | postgres-postgres/src/endurance.rs:110-119 | one more iteration raises exactly the counters its plan names |
| `Summary.CrashSlotReaders` | postgres-postgres/src/endurance.rs:110-119 | before-commit slots page, after-commit slots use the cursor |
| `Summary.FinalizeSummary` | postgres-postgres/src/endurance/summary.rs:315-389 | fails exactly on a duration that does not fit or a clock before the campaign; otherwise the reason codes are exactly the ones whose condition holds, without repetition, and the verdict is accepted exactly when none does |
| `Summary.CrashFloorsImplied` | postgres-postgres/src/endurance/summary.rs:333-389 | under the canonical policy the 100-iteration floor implies both crash floors |
| `Sampler.SharedState.EnqueueBoundary` | postgres-postgres/src/endurance/sampling.rs:232-243 | pushes one request at the back, or fails unchanged once the sampler has failed |
| `Sampler.SharedState.SetProcess` | postgres-postgres/src/endurance/sampling.rs:186-205 | unless the sampler has failed, the active process is the given one and its request is pushed in the same section |
| `Sampler.SharedState.ClearProcess` | postgres-postgres/src/endurance/sampling.rs:207-212 | unless the sampler has failed no process is active any more; the queue is untouched |
| `Sampler.SharedState.Drain` | postgres-postgres/src/endurance/sampling.rs:456-460 | takes the queue with the flags it saw as one turn, through the functions the interleavings use |
| `Sampler.SuccessWroteEverything` | postgres-postgres/src/endurance/sampling.rs:451-494 | in every interleaving a sampler that returned success wrote exactly the enqueued requests in order plus periodic samples, and its count is the number of lines |
| `Sampler.SamplesNameTheChild` | postgres-postgres/src/endurance/sampling.rs:186-230 | in every interleaving each periodic sample names the target of the last successful set_process not cleared since, as of its turn's drain, and each crash-marker request the one as of the read it held |
| `Sampler.SettledAfterSuccess` | postgres-postgres/src/endurance/sampling.rs:480-486 | nothing is enqueued or written after that |
| `Sampler.SuccessFinalizedAfterSamples` | postgres-postgres/src/endurance/sampling.rs:384-436 | success is finalized only after a successful sampler whose last boundary is terminal-success |
| `Sampler.StoppedSamplerFinishes` | postgres-postgres/src/endurance/sampling.rs:451-494 | a stopped sampler whose writes succeed returns success from any point, whatever was queued |
| `Sampler.PeriodicAfterTerminal` | postgres-postgres/src/endurance/sampling.rs:167-184 | a run that finalizes success with a periodic sample after the terminal boundary |
| `Sampler.TerminalIsLastExactly` | postgres-postgres/src/endurance/sampling.rs:451-494 | over every run that finalizes success the terminal boundary is the last sample if and only if no turn begun between pushing it and stopping found its period due |
| `Sampler.NoTurnBetween` | postgres-postgres/src/endurance/sampling.rs:456-460 | in particular whenever the sampler takes no lock between those two sections |
| `AdmissionGate.NobodyPassesEarly` | postgres-local-partition/src/main.rs:156-169 | in every interleaving, timers or not, no worker passes before as many as the target have entered |
| `AdmissionGate.PeakIsExact` | postgres-local-partition/src/main.rs:117-137 | the peak never exceeds the workers and equals them after a full run without timeouts |
| `AdmissionGate.ActiveReturnsToZero` | postgres-local-partition/src/main.rs:213-326 | active is zero whenever no task is in flight, on error paths too |
| `AdmissionGate.NeverStuck` | postgres-local-partition/src/main.rs:146-170 | with partitions at least workers the gate cannot deadlock before a timer fires |
| `AdmissionGate.TooFewNeverPass` | postgres-local-partition/src/main.rs:156-169 | with fewer dispatched tasks than the target nobody passes |
| `AdmissionGate.CountedStep` | postgres-local-partition/src/main.rs:117-170 | every atomic operation keeps each counter equal to the number of tasks it stands for |
| `AdmissionGate.OpeningStep` | postgres-local-partition/src/main.rs:117-170 | at the moment the barrier opens the peak has already been recorded |
| `Transform.DigestIdentifies` | postgres-postgres/src/source_digest.rs:88-107 | equal digests mean equal source contents |
| `Transform.TruncatesTowardZero` | postgres-postgres/src/processor.rs:64-76 | the loyalty score is the balance in whole units, truncated toward zero on both sides |
| `Transform.ProjectTransforms` | postgres-postgres/src/processor.rs:64-101 | the row a source row becomes: upper-cased name, score within one unit of a hundredth of the balance on zero's side, premium exactly from 50000 cents, and the truncated hash of the id, zero, name, zero, flag and balance bytes |
| `Transform.CommittedRows` | postgres-postgres/src/processor.rs:64-101 | in every run each committed row of a content is in the table with those literal values |
| `Transform.NothingElse` | postgres-postgres/src/job.rs:487-506 | and a row of its scope with any other id is not |
| `Transform.LaunchRefused` | postgres-postgres/src/job.rs:305-423 | a process whose instance's last execution is not failed is refused: it ends having changed neither instances nor table |
| `Transform.DestinationIsPrefix` | postgres-postgres/src/job.rs:487-506 | in every interleaving of runs, crashes, recoveries and source writers the rows of a scope are the projection of the first p rows of its content, p the position of the at most one mode with a nonzero one |
| `Transform.CompletedIsWhole` | postgres-postgres/src/job.rs:305-423 | a completed execution means the whole projection, whatever the chunk sizes; the other mode has committed nothing and never completed |
| `Transform.PositionsRise` | postgres-postgres/src/job.rs:162-180 | no step ever lowers a committed position |
| `Transform.OtherModeNeverCompletes` | postgres-postgres/src/job.rs:259-287 | once one reader mode has committed, no later run of the other commits or completes over the same content and import name |
| `Transform.StepInvariant` | postgres-postgres/src/job.rs:453-687 | each single step of run, recover, crash or source writer keeps the invariant |
| `Transform.OnlyNextCommits` | postgres-postgres/src/job.rs:305-423 | a chunk commits only if it is the next one of the only mode in progress: the primary key fences off every other process |
| `Transform.WriteInvariant` | postgres-postgres/src/source_digest.rs:125-133 | a writer that no SHARE lock blocks cannot invalidate any live digest |
| `Transform.RecoveryInvariant` | postgres-postgres/src/job.rs:619-687 | marking an execution failed keeps the invariant and changes neither rows nor positions |
| `Transform.CrashRecoverResume` | postgres-postgres/src/job.rs:619-687 | after a crash, recovery and one undisturbed run make the destination the whole projection |
| `Transform.Completes` | postgres-postgres/src/job.rs:305-423 | a launched process left alone commits the rest of the content and completes |
| `Transform.VerifierSeesPosition` | postgres-postgres/src/verify.rs:215-388 | at any moment the verifier reports exactly the uncommitted rows as missing, in order, and passes exactly when all are committed |
| `Transform.ListingIsPrefix` | postgres-postgres/src/verify.rs:235-244 | the verifier's ordered destination query returns exactly the projected prefix |
| `Failpoint.Decorators.Begin` | postgres-postgres/src/failpoint.rs:255-275 | every attempt advances the shared ordinal once, whatever the inner transaction does |
| `Failpoint.Decorators.Write` | postgres-postgres/src/failpoint.rs:131-151 | inserts into the open transaction; at the target it fires and the transaction is lost |
| `Failpoint.Decorators.Commit` | postgres-postgres/src/failpoint.rs:174-211 | the failpoint fires only after the inner commit is durable |
| `Failpoint.Decorators.RunChunks` | postgres-postgres/src/failpoint.rs:131-275 | the durable chunks and the end are the plain run's unless the target is reached; then k-1 or k chunks are durable, and it fires exactly once |
| `Failpoint.DisarmedIsPlain` | postgres-postgres/src/failpoint.rs:131-275 | with target 0 the outcome is the unwrapped one for any number of chunks |
| `Failpoint.SplitPrefix` | postgres-postgres/src/endurance/crash.rs:253-253 | the first k full chunks hold exactly the first k times chunk-size rows |
| `Failpoint.RequireCrashState` | postgres-postgres/src/endurance/crash.rs:644-680 | accepts exactly a nonterminal status with the expected commits, position and rows |
| `Failpoint.ContractMet` | postgres-postgres/src/endurance/crash.rs:330-349 | the armed failpoint leaves exactly the commits the crash iteration then demands: 2000 rows at the boundary "writer during-write" before a commit, 3000 at "after-business-commit" after one |
| `Failpoint.CrashIteration` | postgres-postgres/src/endurance/crash.rs:120-255 | end to end, the post-crash check accepts |
| `MergeVerify.Compare` | postgres-postgres/src/verify.rs:177-196 | names exactly the differing fields, each once, in declaration order |
| `MergeVerify.Merge` | postgres-postgres/src/verify.rs:246-335 | one pass computes the total, the first 100 mismatches, both counts and both digests of the full concatenations |
| `MergeVerify.Verify` | postgres-postgres/src/verify.rs:215-388 | passes if and only if the streams are equal; the count and digest failures cannot fire; totals and omissions are exact |
| `MergeVerify.MismatchesExactly` | postgres-postgres/src/verify.rs:264-331 | the reported list is, in strict id order, exactly the missing ids, the extra ids and the common ids with their differing fields |
| `MergeVerify.TotalExactly` | postgres-postgres/src/verify.rs:170-175 | the total is the number of missing ids plus extra ids plus differing common ids |
| `MergeVerify.NoneExactly` | postgres-postgres/src/verify.rs:354-388 | no mismatch if and only if the streams agree row by row |
| `RowCodec.LeInverts` | postgres-postgres/src/source_digest.rs:62-72 | eight little-endian bytes determine an i64 |
| `RowCodec.LeBytes` | postgres-postgres/src/source_digest.rs:62-72 | the eight bytes are the base 256 digits, least significant first, of the two's complement |
| `RowCodec.SourceLayout` | postgres-postgres/src/source_digest.rs:62-72 | the encoded row, byte by byte: id, 0, name, 0, flag, balance, 255 |
| `RowCodec.ProjectedLayout` | postgres-postgres/src/verify.rs:116-134 | the encoded projected row, byte by byte: id, name, 0, score, flag, fingerprint, 255 |
| `RowCodec.Compute` | postgres-postgres/src/source_digest.rs:88-107 | the hashed bytes are the concatenated row encodings |
| `RowCodec.SourceInverts` | postgres-postgres/src/source_digest.rs:62-72 | a decoder inverts the row encoding whatever bytes follow |
| `RowCodec.SourceUniquelyDecodable` | postgres-postgres/src/source_digest.rs:62-72 | equal hashed bytes if and only if equal row lists |
| `RowCodec.ProjectedInverts` | postgres-postgres/src/verify.rs:116-134 | the same for expected and actual rows with sixteen-byte fingerprints |
| `RowCodec.ProjectedUniquelyDecodable` | postgres-postgres/src/verify.rs:116-134 | equal hashed bytes if and only if equal row lists, when fingerprints have sixteen bytes |
| `RowCodec.LongFingerprintCollides` | postgres-postgres/src/verify.rs:126-134 | without that, any two rows have the bytes of a single third row |
| `RowCodec.CsvInverts` | csv-postgres/src/verify.rs:45-53 | the canonical CSV row, ended by the character U+00FF, is self-delimiting |
| `RowCodec.CsvUniquelyDecodable` | csv-postgres/src/verify.rs:45-53 | equal canonical texts if and only if equal row lists |
| `PartitionPlan.ValidateShape` | postgres-local-partition/src/main.rs:973-989 | accepts exactly the shapes with workers between one and the partitions, rows that divide evenly, and a row count within bigint |
| `PartitionPlan.Assignments` | postgres-local-partition/src/main.rs:951-971 | a good shape always yields the plan, whose i-th entry has index i, the key "partition-" with i in four digits, and the range i * size + 1 to (i + 1) * size: the overflow branches are dead |
| `PartitionPlan.Tiles` | postgres-local-partition/src/main.rs:1048-1050 | a range holds an id exactly when its index is the id's owner, and exactly the ids up to the row count have one |
| `PartitionPlan.KeysAscend` | postgres-local-partition/src/main.rs:991-993 | keys sort like indices up to 9999 |
| `PartitionPlan.KeyOrderIsIndexOrder` | postgres-local-partition/src/main.rs:991-993 | sorting by key keeps index order if and only if there are at most 10000 partitions |
| `PartitionPlan.SortedUnique` | postgres-local-partition/src/main.rs:693-693 | sorting any permutation of a strictly ascending plan restores it |
| `PartitionPlan.VerifyFramework` | postgres-local-partition/src/main.rs:693-736 | the three flags, elementwise over the sorted durable plan |
| `PartitionPlan.FrameworkPasses` | postgres-local-partition/src/main.rs:344-350 | passes if and only if both executions completed, the durable plan is, as a multiset, the expected one all completed, and there are at most 10000 partitions |
| `PartitionReplay.DigestIdentifies` | postgres-local-partition/src/main.rs:1019-1033 | equal source digests mean equal sources |
| `PartitionReplay.SourceIdentity` | postgres-local-partition/src/main.rs:1019-1033 | the stream's count and the digest every other result speaks of |
| `PartitionReplay.SourceTextGrows` | postgres-local-partition/src/main.rs:1019-1033 | each source row adds its id, a bar, its payload and a line end to the hashed text |
| `PartitionReplay.PartitionsAreAtomic` | postgres-local-partition/src/main.rs:234-320 | after any kills, restarts, recoveries and source mutations a partition owns none of its rows or all of them as one content projects them, the source at its last write; these are the planned rows exactly when that content agrees with the planned one there; a completed partition was written |
| `PartitionReplay.CompletedIsExact` | postgres-local-partition/src/main.rs:290-303 | once all partitions completed the destination holds exactly the source ids, each row under its owner's literal key and with three times plus seven the payload the source held at that owner's last write |
| `PartitionReplay.QuietPartitions` | postgres-local-partition/src/main.rs:234-320 | if the source changes only between runs, a completed partition owns all its planned rows and any other all or none |
| `PartitionReplay.QuietCompletedIsExact` | postgres-local-partition/src/main.rs:290-303 | and once all completed the destination is exactly the planned projection |
| `PartitionReplay.ReplayChangesNothing` | postgres-local-partition/src/main.rs:290-303 | the upsert over correct rows is the identity |
| `PartitionReplay.CheckRecovery` | postgres-local-partition/src/bin/postgres-local-partition-recoveryctl.rs:188-252 | accepts exactly a nonterminal run of the right size whose every key, range and digest is the live one's |
| `PartitionReplay.RecoverableExactly` | postgres-local-partition/src/bin/postgres-local-partition-recoveryctl.rs:236-252 | a durable entry passes exactly with an index below the count, that index's literal key and range, and the live digest |
| `PartitionReplay.RecoveryFollowsSource` | postgres-local-partition/src/bin/postgres-local-partition-recoveryctl.rs:219-252 | recovery of a killed run succeeds if and only if the source holds the content the plan was made for |
| `PartitionReplay.RunFinishes` | postgres-local-partition/src/main.rs:234-320 | a run over the planned source left alone completes the remaining partitions and then the job |
| `PartitionReplay.KillRecoverFinish` | postgres-local-partition/src/bin/postgres-local-partition-recoveryctl.rs:188-283 | after a kill over an unchanged source, recovery and one undisturbed run complete the job |
| `PartitionReplay.WorkOwnsExactly` | postgres-local-partition/src/main.rs:290-303 | under a live run one write leaves the planned rows exactly when the partition's part of the source is still the planned one |
| `PartitionReplay.MismatchWritesNothing` | postgres-local-partition/src/main.rs:234-262 | a worker whose durable assignment names another key, range or digest writes nothing |
| `PartitionReplay.OverflowWritesNothing` | postgres-local-partition/src/main.rs:290-303 | neither does one whose range holds a payload that overflows when tripled or when seven is added |
| `PartitionBusiness.ExpectedDestinationIdentity` | postgres-local-partition/src/main.rs:1035-1059 | stops with an error exactly when a source row cannot be checked, and otherwise counts and hashes the expected rows in order |
| `PartitionBusiness.DestinationIdentity` | postgres-local-partition/src/main.rs:1061-1079 | counts and hashes the destination rows in order |
| `PartitionBusiness.TextAppends` | postgres-local-partition/src/main.rs:1075-1075 | each destination row adds its id, value and key, separated by bars, and a line end |
| `PartitionBusiness.CountedTextIdentifies` | postgres-local-partition/src/main.rs:362-375 | against expected rows whose keys are single lines, equal count and equal text mean equal rows, whatever the destination's keys hold |
| `PartitionBusiness.DigestAloneConfuses` | postgres-local-partition/src/main.rs:1061-1079 | without the count it is not so: any two rows hash like one row with a line end in its key |
| `PartitionBusiness.VerifyBusiness` | postgres-local-partition/src/main.rs:738-802 | stops with an error exactly on a bad shape, a negative id, a partition number past 16 bits or an overflow; otherwise passes if and only if the source has the expected number of rows and the destination is, row by row, the projection under the key of the partition the id falls in |
| `PartitionBusiness.CompletedRunPasses` | postgres-local-partition/src/main.rs:635-664 | after any completed run, live source changes included, the check passes exactly when every row's partition was last written from what the source holds now |
| `UniformRange.ZoneExactly` | postgres-postgres/src/generator.rs:26-27 | neither the shift nor the subtraction loses a bit, and the zone covers at least half |
| `UniformRange.NothingOverflows` | postgres-postgres/src/generator.rs:30-34 | the product fits 128 bits and the result stays in range |
| `UniformRange.ExactlyUniform` | postgres-postgres/src/generator.rs:25-37 | every result has exactly 2^leading_zeros(range) accepted draws |
| `UniformRange.HalfAccepted` | csv-postgres/src/generator.rs:37-49 | the accepted draws number range times that, at least 2^63 |
| `UniformRange.Uniform` | csv-postgres/src/generator.rs:37-49 | the loop returns the result of the first accepted draw of the stream and leaves the stream just after it |
| `CsvFile.RecordReads` | csv-postgres/src/generator.rs:130-136 | an RFC 4180 reader recovers exactly the printed fields if and only if every carriage return sits in a field quoted for another reason |
| `CsvFile.CrFreeRoundTrip` | csv-postgres/src/generator.rs:130-136 | fields without carriage returns always round-trip |
| `CsvFile.FileReads` | csv-postgres/src/generator.rs:130-215 | so do whole files |
| `CsvFile.WriteRowPrints` | csv-postgres/src/generator.rs:164-215 | every variant's hand-written line is the printed line of its fields |
| `CsvFile.Generate` | csv-postgres/src/generator.rs:227-286 | whatever faults are injected, the file reads back as exactly the records emitted, in order |
| `CsvFile.SourceDigest` | csv-postgres/src/verify.rs:80-139 | succeeds exactly when every record parses and ids strictly ascend; count and hashed text are the rows' |
| `CsvFile.TextHashed` | csv-postgres/src/verify.rs:80-139 | the hashed text of a faultless generated file, row by row from the draws: id, NUL, printed name, NUL, "customer" id "@example.test", NUL, drawn amount, NUL, parsed time, U+00FF |
| `CsvFile.GenerateAndDigest` | csv-postgres/src/verify.rs:80-139 | generating and then verifying yields the row count and that text exactly when no fault hits a row and the ids fit a bigint, and is rejected otherwise |
| `CsvFile.AcceptedExactly` | csv-postgres/src/verify.rs:80-139 | a generated file passes if and only if its ids fit a bigint and no injected fault hits a row |
| `Inserts.InsertSql` | csv-postgres/src/writer.rs:47-63 | placeholders run 1..columns*rows in row order |
| `Inserts.BindChunk` | csv-postgres/src/writer.rs:83-92 | the statement inserts exactly the chunk's rows |
| `Inserts.WriteCustomers` | csv-postgres/src/writer.rs:67-129 | the statements insert the items in order, each binding 1 to 2000 values; their number is the ceiling over 400 |
| `Inserts.Seed` | postgres-postgres/src/generator.rs:95-119 | the same for seed batches of 500 rows by 4 columns |
| `Inserts.WriterMetrics` | postgres-postgres/benchmark/paired.py:137-154 | the statement loop equals its closed form |
| `Inserts.FullChunksFirst` | postgres-postgres/benchmark/paired.py:137-154 | full chunks at the front each cost the same statements |
| `Inserts.KillChunkIsFull` | postgres-postgres/benchmark/paired.py:130-134 | the chosen chunk is a full one with rows left after it |
| `Inserts.KillChunkIsMiddle` | postgres-postgres/benchmark/paired.py:130-134 | the chunks before the chosen one are half of all, rounded down |
| `Inserts.KillRefusedExactly` | postgres-postgres/benchmark/paired.py:130-134 | no chunk is chosen exactly when the rows fit three chunks |
| `Inserts.RecoveryCost` | postgres-postgres/benchmark/paired.py:579-609 | crash plus resume costs a clean run plus the reprocessed chunk, in rows, statements and bound values |
| `Inserts.DurablePrefix` | postgres-postgres/benchmark/paired.py:526-528 | the durable prefix the benchmark demands is what the failpoint leaves |
| `Decimal.ParsePadded` | postgres-postgres/src/endurance/resume.rs:408-425 | a zero-padded u64 parses back to itself |
| `Decimal.ParseSigned` | csv-postgres/src/verify.rs:98-119 | a printed number parses back exactly when it fits an i64 |

## Left out

- The framework's launcher, repository, readers and batch writer are not in the repository; they appear as assumptions only.
- Cleanup of a transform's destination rows and the reset command: `Transform` never deletes a row, so the prefix results speak of scopes that have not been cleaned.
- Failpoint.Decorators.Begin: the ordinal wraps as in a release build; an overflow-checking build stops at the attempt that would wrap.
- CsvFile.BaseRowOf: `id_offset + row_index` is not bounded; the model does not capture its wrap-around past u64.
- UniformRange.Uniform: a finite stream stands for the generator; an exhausted stream ends the loop, which a real generator never does.
- AdmissionGate.Run: the atomics are modelled on values, one step for each operation, not as objects shared by threads.
- Sampler.Run: a failed sample write leaves no partial line in the samples file; the summary's reading of that file is not modelled.
- PartitionReplay.Run: two live runs of one job at a time are not modelled, and a worker's failed check ends its own work rather than the run.
- PartitionBusiness.ExpectRow: the subtraction at id 0 wraps as in a release build; an overflow-checking build stops there.
- PartitionReplay.CheckRecovery: the version check of the mark-failed request is the framework's.
- Summary.ScanIterations: a file that does not parse stands as a missing one, and the fields only checked for presence are not modelled.
- Summary.FinalizeSummary: the two cross checks of terminal event counts enter as the snapshot's violation number, and the written JSON is not modelled.
- Resource trends (`observe`), percentiles and ratios: only easy members.
- Campaign metadata checks, binary identity, the database reconciliation of the summary, process probes and `df` parsing: input and output.
- `endurance/batch.rs` and `csv-postgres/src/failpoint.rs`: near copies of the guarded batch and of the modelled failpoints.
