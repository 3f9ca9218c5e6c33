# Verified models of the qualification tooling and of SIM

The repository's release is decided by Python tools that schedule, resume, parse and compare, and by
SIM, a similarity tester in C. This project models the algorithms on which those decisions rest and
proves what they promise. `dafny verify dfyconfig.toml` checks everything.

| Files | Subject |
|---|---|
| `Matrix`, `Signatures`, `Scheduler`, `SchedulerSafety`, `SchedulerRuns`, `SchedulerScan`, `SchedulerOrder`, `SchedulerVerdict`, `SchedulerLedger`, `SchedulerPlans`, `Qualification` | the qualification scheduler: the job matrix, its input signatures, the scheduling loop as a state machine, invariants over every run, termination, completeness, what one scan takes and what holds the jobs it leaves, the verdict, what a run takes over from earlier ones, and runs whose surroundings follow a plan; the class `Run` is the loop itself |
| `SimLanguage`, `SimCorpus`, `SimForward`, `SimCompare`, `SimShipped` | SIM: which runs a language accepts, the forward references, the pruned search for the longest run against brute force, the comparison of texts, and the languages that SIM ships |
| `ResFormat`, `ResRoundTrip`, `ResAccepts` | the writer and the reader of Win32 resource files (RESOURCEHEADER in Microsoft's "Resource File Formats") |
| `Masking`, `MaskingRegions` | the lexer that blanks Pascal comments and strings |
| `Decimals`, `Labels`, `LabelEquivalence` | the renaming of assembler labels that compares object dumps |
| `PulseRecords`, `PulseSources`, `PulseBatches`, `PulseMerge`, `PulseResume`, `PulseComplete`, `PulseAccepts`, `PulseExamples` | completing a measurement run: what is measured again, the partition into batches, resuming, which journals and measurements are accepted, the merge, and inputs on which two refusals fire |
| `PulseBinding`, `Invocations`, `InvocationTraces`, `InvocationLedger`, `PulseDisturbed` | which failed run may be completed and with which product, and all sequences of invocations on one run directory: its origins, its product and where its results come from |
| `ElfBindings`, `ElfSoundness` | the check that two linked images differ only in how their calls and data references are bound |
| `Digests`, `ProductFiles` | the framing of paths and contents under one digest, and what a green verdict says of the installed files |
| `Basics` | optional values and the like |

Three forms recur. Code that changes state is a method with its loops, proved equal to a function; the
theorems are about that function. What a program learns from its surroundings (finished jobs, the state
of the checkout, whether a log is intact) is a parameter, so a theorem about a run holds for every
answer. Where a property is false of the code, a lemma gives an input that breaks it and another says
exactly when it holds:

- With option `f`, SIM reduces a run to balanced parentheses and then cuts its tail, which in some languages
  unbalances it (`CutCanUnbalance`); every accepted run is balanced if and only if no non-final token closes
  a kind that some token opens (`FunctionsBalancedIff`). No shipped front end has a closer among its
  non-finals, so with all of them accepted functions are balanced and the search is brute force
  (`ShippedBalanced`, `ShippedIsBruteForce`).
- A written resource file is not always read back: `RoundTrip` has the exact condition.
- The refusal "original repeat disappeared" can be reached for every number of pairs
  (`DisappearedReachable`): `int()` accepts repeats, such as strings, that are equal to no number.
  `RefusedIff` and `MergeExact` say exactly when. For the same reason the last refusal of `move_batches`
  can fire (`NoPartitionReached`); `MoveBatches` says exactly when.
- An active completion need not name a recorded origin: a run directory created with completion
  arguments has none, and never gets one (`CreatedAdrift`, `NamedIff`).
- Behind a recorded origin the product can still change: the log of the `build` result is checked before the
  loop and again by the scan that comes to `build`, and `build` runs again if it was damaged in between.
  `ProductCanChange` is a sequence of invocations in which it does, from an empty run directory on and for
  every matrix in which Pulse depends on `build`. The log is the condition: at a scan that comes to `build`
  the product is safe if and only if the log is intact (`SafeIffIntact`), and of the runs that an accepted
  invocation may have none that finds the log intact throughout changes the product, and in every matrix some
  run that finds it damaged throughout does (`ProductSafeIff`). Over sequences of invocations this is
  `HistoryGrows`.

## Model

| member | source | states |
|---|---|---|
| Matrix.Allocation | qualification/release/qualify.py:32-33 | slots granted are at most what the job asks, at most the workers, and their memory fits the budget |
| Matrix.AllocationGreatest | qualification/release/qualify.py:32-33 | no greater number of slots would be |
| Matrix.StageIs | qualification/release/qualify.py:28-29 | an override counts, otherwise light, medium and full jobs are stages 0, 1 and 2 |
| Matrix.ParentsAre | qualification/release/qualify.py:40-41 | the parents are the names in the list for all platforms or in that for this one |
| Matrix.DependenciesFall | qualification/release/qualify.py:36-41 | along parents and jobs of earlier stages together, stage and rank fall lexicographically: the union is well-founded |
| Matrix.TopologicalIsRanked | qualification/release/qualify.py:93-107 | a listing with parents first gives a rank that falls along every dependency |
| Matrix.RankFallsAlongWalk | qualification/release/qualify.py:93-107 | along any walk of dependencies the rank falls |
| Matrix.RankedIsAcyclic | qualification/release/qualify.py:93-107 | a ranked relation has no cycle |
| Matrix.Search.Visit | qualification/release/qualify.py:94-105 | the depth-first search terminates; it finishes the job after all its parents, or returns a real cycle through the job it names |
| Matrix.SearchAll | qualification/release/qualify.py:93-107 | over all jobs: a listing of all of them, parents first, or a job on a real cycle, and then the relation is not acyclic |
| Matrix.CheckRows | qualification/release/qualify.py:80-92 | the row checks pass exactly for good rows and otherwise report the first bad row |
| Matrix.RowFaults | qualification/release/qualify.py:80-92 | a row is refused with the first of five faults that it has, each told of the raw row: absent parent, timeout or command, source inputs, budget, later stage |
| Matrix.GoodMatrixIs | qualification/release/qualify.py:76-108 | a matrix is good exactly when no id occurs twice, no row has such a fault, and no walk along the raw lists of parents comes back to where it started |
| Matrix.LoadMatrix | qualification/release/qualify.py:76-108 | accepts exactly the matrices with distinct ids, good rows and acyclic dependencies, and lists the jobs parents first; every error is exact: a duplicate id, the first bad row, or a job on a real cycle |
| Signatures.SignatureSound | qualification/release/qualify.py:161-193 | unless two hashed records collide, equal signatures mean the same job name and equal inputs as the raw declarations give them, recursively over all ancestors down to the installed product, or through `build` where none is installed |
| Signatures.SignatureComplete | qualification/release/qualify.py:161-193 | equal inputs give equal signatures |
| Signatures.SignatureDecides | qualification/release/qualify.py:161-193 | unless two hashed records collide, signatures are equal if and only if name, command, directory, expected text, both lists of parents, source inputs, the tree of each of them and the baseline agree for the job and every ancestor, and installed products agree where `build` is a parent |
| Signatures.ProductIrrelevant | qualification/release/qualify.py:183-188 | a job without `build` among its ancestors has the same signature for every product |
| Signatures.ProductMatters | qualification/release/qualify.py:183-188 | unless two hashed records collide, a job that needs `build` has different signatures for different installed products |
| Signatures.Memo.Compute | qualification/release/qualify.py:175-189 | the memoised recursion returns the plain signature and forgets nothing |
| Signatures.InputSignatures | qualification/release/qualify.py:169-193 | the table of all jobs holds exactly the plain signatures |
| SchedulerSafety.InitialInv | qualification/release/qualify.py:467-508 | the state before the loop satisfies the invariant |
| SchedulerSafety.ReadyStage | qualification/release/qualify.py:526-530 | when a job is ready, every job of an earlier stage has finished and passed |
| SchedulerSafety.StageOpens | qualification/release/qualify.py:541-544 | when a job may open a stage, nothing of another stage runs and the stage does not fall |
| SchedulerSafety.ReuseInv | qualification/release/qualify.py:531-540 | taking over an earlier pass keeps the invariant |
| SchedulerSafety.StartInv | qualification/release/qualify.py:545-569 | starting a job keeps the invariant: budgets, distinct resources, exclusive jobs alone, dependencies passed, one stage |
| SchedulerSafety.ConsiderSafe | qualification/release/qualify.py:522-571 | considering one job keeps the invariant and makes progress; a changed checkout stops the run only while nothing runs |
| SchedulerSafety.ScanSafe | qualification/release/qualify.py:522-571 | a whole scan keeps the invariant, loses no running job, and the stage never falls |
| SchedulerSafety.NobodyTakenNeedsBuild | qualification/release/qualify.py:526-540 | while `build` runs, no job that was reused, finished or started has it among its ancestors |
| SchedulerSafety.RecomputationStable | qualification/release/qualify.py:611-614 | recomputing the signatures after `build` changes none of a job reused, finished or running |
| SchedulerSafety.FinishSafe | qualification/release/qualify.py:597-614 | a finished job, whatever its result, keeps the invariant and the stage and lowers the work left |
| SchedulerSafety.FinishAllSafe | qualification/release/qualify.py:597-614 | so do all jobs that finish together |
| SchedulerRuns.RunSafe | qualification/release/qualify.py:517-618 | every run keeps the invariant, whatever its surroundings answer; the stage never falls, and a changed checkout ends the run only while nothing runs |
| SchedulerRuns.RunTerminates | qualification/release/qualify.py:517-618 | twice the pending plus the running jobs bounds the iterations that deliver something |
| SchedulerRuns.IdleTakes | qualification/release/qualify.py:545-554 | with nothing running, a ready job is reused or started: slots, memory, resources and exclusivity cannot hold it back |
| SchedulerRuns.IdleScan | qualification/release/qualify.py:517-571 | a scan with nothing running that neither reuses nor starts found no ready job |
| SchedulerRuns.LoopExit | qualification/release/qualify.py:572-575 | the loop is left only with nothing running and no pending job ready |
| SchedulerScan.ScanWastesNothing | qualification/release/qualify.py:519-571 | a job left pending although everything before it has passed is held at the end of the scan: its resource is taken, its slots or memory exceed what is left, or an exclusive job is involved; a job taken runs, with its signature, exactly if it has no earlier result that may stand |
| SchedulerScan.ScanGivesUp | qualification/release/qualify.py:541-544 | a scan that gives up has come to a ready job whose stage would have to be opened, and the checkout had changed |
| SchedulerScan.WholeFrame | qualification/release/qualify.py:519-571 | a scan changes nothing but pending and running jobs and the stage; it reports a reuse exactly if some job was taken over, and opens a stage only for a job that found the checkout clean |
| SchedulerOrder.ScanInTurn | qualification/release/qualify.py:519-571 | a ready job left pending is held by the jobs that ran before the scan and those listed before it: nothing behind it is started in its place |
| SchedulerRuns.LeftOverExplained | qualification/release/qualify.py:526-530 | each job left pending has a chain of dependencies down to a job that was executed and failed |
| SchedulerRuns.VerdictExact | qualification/release/qualify.py:619-652 | unless the run is rejected (in a final run also when the full discovery no longer holds), the verdict is green exactly when nothing executed has failed and all evidence is intact; then nothing was left over |
| SchedulerVerdict.VerdictIs | qualification/release/qualify.py:623-652 | behind the loop of any run: rejected exactly for a changed checkout, another product than the recorded one, a changed baseline, or in a final run a discovery that lost a result, a log or a signature; otherwise green exactly when nothing executed has failed and every log is intact |
| SchedulerVerdict.CarriedExactly | qualification/release/qualify.py:643-648 | a green verdict is provisional exactly if some job was not executed in this run and its ledger entry has another HEAD; a final run never is; an unqualified verdict means every pass is bound to this HEAD |
| SchedulerVerdict.LedgerIs | qualification/release/qualify.py:619-622 | a job left over is blocked unless an older pass stands, after a rejection every job executed has failed, and everything else stays as it was |
| SchedulerRuns.GreenAttestsProduct | qualification/release/qualify.py:626-642 | a green verdict means passes whose signatures were computed from the product installed now; a final one that the full discovery holds for it |
| SchedulerRuns.RejectionDiscards | qualification/release/qualify.py:510-515 | of every run that is rejected, before a new stage or behind the loop: nothing runs on, no job executed in it holds a pass, and every other pass stands |
| SchedulerRuns.ReachableSafe | qualification/release/qualify.py:517-618 | in every reachable state exactly the running jobs hold slots, each those it was given, slots and memory are within budget, running jobs share no resource and one stage, an exclusive job is alone, and every job taken has all parents and all earlier-stage jobs passed |
| SchedulerRuns.ProgramTerminates | qualification/release/qualify.py:517-618 | from any ledger, leaving idle timeouts aside, the loop ends within two iterations per job |
| SchedulerRuns.ProgramComplete | qualification/release/qualify.py:517-622 | from any ledger, when the loop ends, every job left over has a chain of dependencies to a job that failed in this run |
| SchedulerRuns.GreenRun | qualification/release/qualify.py:500-652 | a green run left nothing pending; every job holds a pass with its current signature and an intact log, executed here or reused under the conditions of the reuse test |
| SchedulerLedger.RunKeepsResult | qualification/release/qualify.py:517-618 | a job that a run does not execute keeps its earlier result |
| SchedulerLedger.RunKeepsBuild | qualification/release/qualify.py:459-466 | a `build` result that meets the conditions of reuse, with its log intact at every scan, is never built again: product, recorded identity and signatures stay in every run |
| SchedulerLedger.UnusableIsRebuilt | qualification/release/qualify.py:531-540 | with nothing running, a `build` that is the first ready job a scan comes to and cannot be reused is run, and the identity of what it installs is recorded |
| SchedulerLedger.SafeIffIntact | qualification/release/qualify.py:531-540 | at a scan in which a trusted `build` is the first ready job, the recorded identity is safe from all answers of the surroundings if and only if the log is intact |
| SchedulerLedger.RunKeepsRecorded | qualification/release/qualify.py:611-613 | the recorded identity keeps a property that every newly installed product has |
| SchedulerLedger.GreenMeansAgreement | qualification/release/qualify.py:638-652 | a green verdict means that each job was executed in this run or its result stood in the ledger, and then whatever run produced it had inputs that agree with the current ones recursively |
| SchedulerPlans.PlannedRun | qualification/release/qualify.py:517-618 | in every matrix a run whose waits deliver and whose checkout stays clean comes to an end with nothing running and nothing ready, whichever jobs are planned to fail |
| SchedulerPlans.DueIsLeft | qualification/release/qualify.py:517-618 | in such a run every job that cannot be reused, and below which nothing is planned to fail, is executed and leaves the planned result with its current signature |
| SchedulerPlans.RunSafeIffIntact | qualification/release/qualify.py:517-618 | over whole runs of every matrix a trusted `build` result keeps the recorded identity safe from all answers if and only if its log is intact throughout rather than damaged throughout |
| Qualification.LoadedConfigIsGood | qualification/release/qualify.py:368-371 | `load_matrix` and the budget checks establish everything the scheduler relies on |
| Qualification.BudgetsAre | qualification/release/qualify.py:32-33 | each job gets the greatest number of slots, at most what it asks for (one by default) and what both budgets allow, and for each of them its memory (512 by default) |
| Qualification.RunEnds | qualification/release/qualify.py:572-575 | when a run from any good state ends by itself, nothing runs and nothing pending is ready |
| Qualification.Run.constructor | qualification/release/qualify.py:467-508 | the loop starts in the initial state, which satisfies the invariant |
| Qualification.Run.ConsiderJob | qualification/release/qualify.py:522-571 | the body of the scan, updating the fields, is `Consider`, of whose whole scans the rows of `SchedulerScan` and `SchedulerOrder` tell |
| Qualification.Run.Scan | qualification/release/qualify.py:518-571 | the scan is `WholeScan`, so all that is proved of it holds |
| Qualification.Run.Finish | qualification/release/qualify.py:597-614 | one finished future is `Finished` |
| Qualification.Run.Step | qualification/release/qualify.py:517-618 | one iteration is `Iterate` and keeps the invariant |
| Qualification.Run.Loop | qualification/release/qualify.py:517-618 | the loop is `Run`; when it ends by itself nothing runs and nothing pending is ready |
| SimLanguage.FillTable | utils/sim_pasc/algollike.c:45-53 | afterwards the table holds the position of every token in its set |
| SimLanguage.StartsAndEnds | utils/sim_pasc/algollike.c:55-81 | a run may start with any token but the non-initials and end with any but the non-finals |
| SimLanguage.CountToken | utils/sim_pasc/algollike.c:107-127 | the counters become the new balances, and `n_imbalances` stays the number of kinds out of balance, unless the token is a closer too many |
| SimLanguage.LargestFunction | utils/sim_pasc/algollike.c:83-135 | the longest prefix that is balanced in every kind and has no closer too many |
| SimLanguage.CheckRun | utils/sim_pasc/algollike.c:60-81 | the accepted length |
| SimLanguage.AcceptedIsGreatest | utils/sim_pasc/algollike.c:73-80 | without option `f`, no longer prefix may end a run |
| SimLanguage.CutCanUnbalance | utils/sim_pasc/algollike.c:68-80 | a language, not a shipped one, in which option `f` accepts an unbalanced run |
| SimLanguage.FunctionsBalancedIff | utils/sim_pasc/algollike.c:68-80 | every run accepted with option `f` is balanced if and only if no non-final closes an opened kind |
| SimLanguage.AcceptedFunctionIsGreatest | utils/sim_pasc/algollike.c:60-81 | then the accepted length is the greatest of a balanced prefix, without excess closer, that may end a run |
| SimForward.HashOnce | utils/sim_pasc/hash.c:179-210 | each position refers to the next one that may start a run and has the same first hash code |
| SimForward.HashTwice | utils/sim_pasc/hash.c:238-273 | short-circuiting the chains leaves each position referring to the next one with both codes equal |
| SimForward.MakeForwardReferences | utils/sim_pasc/hash.c:59-77 | the finished table: the next position with both codes equal, or 0 if there is none |
| SimCompare.RunMeansPartner | utils/sim_pasc/hash.c:195-281 | a position with a run of the minimum size is on the chain: the hashing misses nothing |
| SimCompare.TailMatches | utils/sim_pasc/compare.c:143-152 | the test from the back compares exactly the tokens of both stretches |
| SimCompare.Extend | utils/sim_pasc/compare.c:157-175 | the extension reaches the longest common stretch there is room for |
| SimCompare.LongestRun | utils/sim_pasc/compare.c:91-198 | the pruned search over the chain finds the greatest run size over all positions in the range, at the first position that reaches it, or 0 if none reaches the minimum |
| SimCompare.RunSizeIsGreatest | utils/sim_pasc/compare.c:157-183 | no acceptable run at two positions is longer than the one the extension and the language leave |
| SimCompare.RunSizeIsAcceptable | utils/sim_pasc/compare.c:157-183 | what they leave is acceptable |
| SimCompare.SearchIsBruteForce | utils/sim_pasc/compare.c:20-28 | the search equals brute force: its run is acceptable, none in the range is longer and none in front is as long; without a run every acceptable one is too short |
| SimCompare.RunInside | utils/sim_pasc/compare.c:133-172 | a run has equal tokens, stays inside both texts and does not reach its own copy |
| SimCompare.ReportedInOrder | utils/sim_pasc/compare.c:69-88 | reported runs are ascending and disjoint, each the first longest at its position |
| SimCompare.UncoveredHasNoRun | utils/sim_pasc/compare.c:84-87 | a position that no reported run covers has no run |
| SimCompare.ReportedGenuine | utils/sim_pasc/compare.c:69-88 | every reported run is a real copy of at least the minimum size and ends before the next one starts |
| SimCompare.CompareText | utils/sim_pasc/compare.c:58-89 | `compare1text` terminates and reports exactly the runs `Reported` describes |
| SimCompare.Compare | utils/sim_pasc/compare.c:30-56 | every new text is compared with the texts its options select |
| SimCompare.RangesAre | utils/sim_pasc/compare.c:34-53 | these are, in ascending disjoint ranges, the old texts under `S`, the later ones under `s`, and else also the text itself; single texts under `e`, at most one range without it |
| SimShipped.ApartCutsSafely | utils/sim_pasc/algollike.c:12-20 | tables whose closers are neither openers nor non-finals cut safely, with option `f` and without |
| SimShipped.PascalCutsSafely | utils/sim_pasc/pascallang.l:122-173 | the tables for Pascal do |
| SimShipped.CCutsSafely | utils/sim_pasc/clang.l:82-130 | the tables for C do |
| SimShipped.JavaCutsSafely | utils/sim_pasc/javalang.l:85-150 | the tables for Java do |
| SimShipped.Modula2CutsSafely | utils/sim_pasc/m2lang.l:157-199 | the tables for Modula-2 do |
| SimShipped.MirandaCutsSafely | utils/sim_pasc/miralang.l:42-63 | the tables for Miranda do |
| SimShipped.LispCutsSafely | utils/sim_pasc/lisplang.l:42-61 | the tables for Lisp do |
| SimShipped.TextAcceptsAll | utils/sim_pasc/textlang.l:19-35 | for text, empty tables accept every run as it is |
| SimShipped.ShippedIsBruteForce | utils/sim_pasc/compare.c:20-28 | with each of the seven shipped front ends the search equals brute force |
| SimShipped.ShippedBalanced | utils/sim_pasc/algollike.c:68-80 | and every run accepted with option `f` is balanced |
| ResFormat.RecordBytes | qualification/compiler-resource-case/run_gate.py:33-39 | a record takes its header size plus its aligned data |
| ResFormat.ReadRes | qualification/compiler-resource-paths/run_gate.py:11-38 | the loops of the reader are `ReadFile` |
| ResFormat.ScanIdent | qualification/compiler-resource-paths/run_gate.py:14-21 | the identifier scan: a number behind the escape, or the units up to the zero unit |
| ResRoundTrip.IdentReadBack | qualification/compiler-resource-paths/run_gate.py:14-21 | a written identifier is read within its bytes, and one without a zero unit that does not start with the escape is read back |
| ResRoundTrip.HeaderReadBack | qualification/compiler-resource-paths/run_gate.py:23-33 | a written header gives back the body and the key |
| ResRoundTrip.MetadataWritten | qualification/compiler-resource-case/run_gate.py:36-39 | the written metadata, field by field as bytes: memory flags, language, and zeros |
| ResRoundTrip.ReadIsClean | qualification/compiler-resource-paths/run_gate.py:14-21 | no identifier with a zero unit or a leading escape is ever read |
| ResRoundTrip.RoundTrip | qualification/compiler-resource-case/run_gate.py:33-45 | reading back a written list of records, each with its language, gives exactly its resources if and only if there is one, their keys are distinct and their identifiers can be told |
| ResRoundTrip.BodiesLaid | qualification/compiler-resource-paths/run_gate.py:22-36 | the bodies passed lie in bounds, in order and without overlap |
| ResRoundTrip.AcceptedFile | qualification/compiler-resource-paths/run_gate.py:22-38 | of every accepted file: bodies in bounds, in order, disjoint; the result holds exactly those that are not of kind 0 |
| ResAccepts.AcceptedIff | qualification/compiler-resource-paths/run_gate.py:22-38 | a file is accepted exactly when it is a row of good headers, each at the next multiple of four behind the body before it, with something kept and no key kept twice; behind the last body the padding may be missing |
| Masking.MaskCommentsAndStrings | RTL-test/surface/check_surface.py:34-91 | the loop is `Masked` |
| Masking.MaskAligned | RTL-test/surface/check_surface.py:34-91 | same length, newlines exactly where they were, every other character kept or a space |
| Masking.MaskOpensNothing | RTL-test/surface/check_surface.py:43-61 | no comment opens anywhere in the output |
| Masking.MaskFixed | RTL-test/surface/check_surface.py:34-91 | the output of any state is its own mask, including doubled quotes and regions cut off by the end |
| Masking.MaskTwice | RTL-test/surface/check_surface.py:34-91 | masking twice is masking once |
| MaskingRegions.RegionMasked | RTL-test/surface/check_surface.py:43-90 | a comment is blanked with its delimiters, a string between its quotes, and any other character kept |
| MaskingRegions.RegionsMasked | RTL-test/surface/check_surface.py:34-91 | a row of regions is masked region by region |
| MaskingRegions.RegionsOf | RTL-test/surface/check_surface.py:34-91 | every source is such a row, so the two say what masking does to every source |
| Decimals.DecimalInjective | qualification/build-driver/release_metadata_gate.py:84 | different numbers are written differently |
| Labels.SetDefault | qualification/build-driver/release_metadata_gate.py:82-84 | the dictionary numbers labels in the order of their first occurrence |
| Labels.ObjectPayload | qualification/build-driver/release_metadata_gate.py:77-85 | the substitution loop is `Payload` |
| LabelEquivalence.RenamedDecides | qualification/build-driver/release_metadata_gate.py:82-85 | renamed token lists are equal if and only if the tokens agree but for label names and the names are paired one to one |
| LabelEquivalence.ShapeStable | qualification/build-driver/release_metadata_gate.py:85 | other label names leave the text reading as the same tokens |
| LabelEquivalence.PayloadTokens | qualification/build-driver/release_metadata_gate.py:77-85 | the payload reads as the renamed tokens |
| LabelEquivalence.PayloadDecides | qualification/build-driver/release_metadata_gate.py:77-85 | payloads of two texts are equal if and only if the texts agree position by position but for label names, with a bijection between the names |
| LabelEquivalence.PayloadTwice | qualification/build-driver/release_metadata_gate.py:77-85 | a payload is its own payload |
| PulseRecords.FreezeRow | qualification/release/pulse_completion.py:228-257 | the checks of one case in their order; accepted, its unclean pairs with both records |
| PulseRecords.FreezeMissing | qualification/release/pulse_completion.py:225-260 | accepted exactly when every case passes and some pair is unclean; the plan has exactly the unclean pairs; a refusal is that of the first bad case |
| PulseSources.RowFaults | qualification/release/pulse_completion.py:228-257 | a case is refused with the first of six faults that it has, told of the raw records: their number, a foreign one, the grid of repeats, the stack phase, the fixed work, the count of clean pairs |
| PulseSources.FrozenPairs | qualification/release/pulse_completion.py:253-260 | an accepted source freezes exactly the pairs of which some record is not valid, each as the two records of its repeat in their order |
| PulseBatches.SameGroup | qualification/release/pulse_completion.py:362-386 | a pair is in the batch of one group only |
| PulseBatches.BatchedIff | qualification/release/pulse_completion.py:353-354 | a pair is sorted as batched exactly if it is of a Move case and both its logs have `-batch-` in their names |
| PulseBatches.MembersAre | qualification/release/pulse_completion.py:365-369 | the members of a group are the Move cases of its category with a record of its process at its repeat |
| PulseBatches.GroupFaults | qualification/release/pulse_completion.py:362-386 | a group is refused with the first of five faults that it has, told of the raw records: category, number of members, name, a member without exactly two records of the process, variants in different orders |
| PulseBatches.MembersInOrder | qualification/release/pulse_completion.py:365-369 | the members are listed in the order of the cases |
| PulseBatches.MemberIsBatched | qualification/release/pulse_completion.py:351-386 | a missing pair in an accepted batch was sorted as batched |
| PulseBatches.BatchedIsMember | qualification/release/pulse_completion.py:351-369 | a batched pair with a record equal to its repeat is found again by its group |
| PulseBatches.ExactIff | qualification/release/pulse_completion.py:387-390 | after the checks, batches and individual pairs partition the missing pairs if and only if no batched pair lacks a record equal to its repeat |
| PulseBatches.MoveBatches | qualification/release/pulse_completion.py:349-391 | accepts exactly the plans in which the batch of every batched pair can be recovered and every batched pair has a record equal to its repeat, and these it partitions exactly; the final refusal fires exactly for those that meet the first condition alone; the pairs measured alone are those not logged in a batch, the batches are one for each group of the others, and every refusal is explained |
| PulseMerge.ReplacementExact | qualification/release/pulse_completion.py:394-415 | of an unclean pair exactly the clean replacements are accepted: same case, repeat, variant order, work, executables, processors and stack phase |
| PulseMerge.MergeCase | qualification/release/pulse_completion.py:694-705 | the merge loop is `Merged`, refused if some replacement was not put in |
| PulseMerge.MergedByRepeat | qualification/release/pulse_completion.py:697-703 | a repeat that is not replaced keeps its records; a replaced one has its new pair, beside any record not equal to the repeat |
| PulseMerge.MergedOrder | qualification/release/pulse_completion.py:697-703 | repeats first occur in the same order as before |
| PulseMerge.MergedOthers | qualification/release/pulse_completion.py:697-703 | the records of repeats not replaced stay as they are and in order |
| PulseMerge.MergeConserves | qualification/release/pulse_completion.py:689-705 | with whole repeats: no refusal, two records for each repeat, one of each variant and all valid, valid evidence unchanged and in order |
| PulseMerge.MergeExact | qualification/release/pulse_completion.py:689-705 | the merge is accepted with two records for each repeat if and only if every record of an unclean repeat has a whole repeat number |
| PulseMerge.RefusedIff | qualification/release/pulse_completion.py:704-705 | the refusal fires if and only if some unclean repeat has no record equal to it |
| PulseResume.ResumePairs | qualification/release/pulse_completion.py:485-534 | the nested loops over journal lines and members are `ResumeStages`, whose answers `PulseAccepts` gives in full |
| PulseResume.FirstCleanIsFirst | qualification/release/pulse_completion.py:497-512 | `FirstClean` is the pair of the earliest stage that shows the key clean |
| PulseResume.FirstCleanWins | qualification/release/pulse_completion.py:452-540 | resuming takes exactly the missing pairs that some stage shows clean, each from the earliest such stage |
| PulseAccepts.ResumeAccepts | qualification/release/pulse_completion.py:491-531 | journals are accepted exactly when each line but the preflight has an allowed context and two records per member, and says of every missing pair that no earlier line shows clean exactly two records of the old categories, with the metrics of their raw counters, and if both are valid a clean replacement with unchanged evidence |
| PulseAccepts.ResumeRefuses | qualification/release/pulse_completion.py:491-531 | a refusal says what is wrong with the first line that is not accepted |
| PulseAccepts.TakenIsTrusted | qualification/release/pulse_completion.py:497-532 | exactly the missing pairs that some line shows clean are taken, each from the first such line, and each has those categories, metrics, that evidence and is a clean replacement |
| PulseAccepts.MeasureAccepts | qualification/release/pulse_completion.py:627-686 | measurements are accepted exactly when each unit kept its number of cases and gave, for every pair that nothing before has replaced, exactly two records that replace it cleanly |
| PulseComplete.Measure | qualification/release/pulse_completion.py:627-688 | the measuring loops are `MeasureAll`, refused unless every missing pair was returned |
| PulseComplete.EveryPairOnce | qualification/release/pulse_completion.py:627-688 | each missing pair is replaced once, by its first clean observation or else by its first new measurement |
| PulseComplete.AllReturned | qualification/release/pulse_completion.py:687-688 | once every unit was accepted, exactly the missing pairs are replaced, each cleanly: the refusal cannot fire |
| PulseComplete.CompletionConserves | qualification/release/pulse_completion.py:627-705 | of every completion whose journals and measurements are accepted, each case with whole repeats keeps its evidence as `MergeConserves` says |
| PulseExamples.DisappearedReachable | qualification/release/pulse_completion.py:704-705 | for every number of pairs, a case that `freeze_missing` accepts and whose merge is refused here |
| PulseExamples.TwoCasesUnplaceable | qualification/release/pulse_completion.py:387-390 | for every number of pairs and any two Move cases, a plan whose batches can be recovered and which is no partition |
| PulseExamples.NoPartitionReached | qualification/release/pulse_completion.py:387-390 | a plan that `freeze_missing` makes and that `move_batches` refuses only here |
| PulseBinding.Run.BindPulseCompletion | qualification/release/qualify.py:260-303 | the updates of the state are `Bind`; a refusal changes nothing |
| PulseBinding.BindIff | qualification/release/qualify.py:260-303 | a binding is accepted exactly while the product and the logs of all origins stand and the completion stays, is given up for a fresh run after a newer failure, or is that of an intact failure, newer than the origin and no completion itself; and what the state is then |
| PulseBinding.BindKeeps | qualification/release/qualify.py:260-303 | binding keeps the order of origins, only adds the intact failed attempt as the newest one, and requires the recorded product |
| Invocations.InvokeKeeps | qualification/release/qualify.py:454-618 | so does a whole invocation, including the run of its jobs; with an origin the product found is the recorded one |
| Invocations.InvokeIff | qualification/release/qualify.py:453-466 | an invocation that finds a file is accepted exactly if its completion arguments are absent or a path and two digests of 64 hexadecimal digits, the binding accepts them, and a discovery run with an origin can rely on its `build` result: passed, not to be repeated, with the current signature and log, and the HEAD where the job asks for it |
| Invocations.InvokeFirst | qualification/release/qualify.py:347-405 | one that finds none is accepted exactly if it asks for more than the status and its arguments are such |
| Invocations.ProductStays | qualification/release/qualify.py:459-466 | with an origin, an accepted invocation whose run is not disturbed leaves the product identity as it was, by the scheduler's own runs |
| Invocations.DisturbedRebuilds | qualification/release/qualify.py:531-540 | in every matrix, a run that finds the log of `build` damaged which was intact before the loop can build again and record any other product |
| Invocations.ProductSafeIff | qualification/release/qualify.py:459-618 | of the runs that one accepted discovery invocation with an origin may have, none changes the product if and only if the log of the `build` result is intact throughout rather than damaged throughout |
| InvocationTraces.HistoryGrows | qualification/release/qualify.py:260-303 | over every sequence of invocations origins are only appended and their attempts strictly increase; after the first one the product stays while no run is disturbed |
| InvocationTraces.NamedIff | qualification/release/qualify.py:386-408 | after every invocation an active completion names the recorded origin if and only if the run directory was created without completion arguments |
| InvocationTraces.CreatedAdrift | qualification/release/qualify.py:386-396 | every run created with completion arguments has a completion without an origin |
| PulseDisturbed.ProductCanChange | qualification/release/qualify.py:459-618 | for every matrix in which Pulse depends on `build`: the directory is made, the loop runs to its end with Pulse failed, its completion is bound, and the next run replaces the product behind the origin; each invocation starts from the results the one before left |
| InvocationLedger.PassHasSource | qualification/release/qualify.py:597-622 | every pass in every state file was produced by the run of an earlier invocation of the same phase |
| InvocationLedger.GreenAgrees | qualification/release/qualify.py:638-652 | over every sequence of invocations from an empty run directory, a green verdict means that each job passed, in this invocation or an earlier one, on inputs that agree with the current ones unless two hashed records collide |
| ElfBindings.Scan | qualification/build-driver/elf_link_bindings.py:83-93 | the candidates of an instruction, all of them in order |
| ElfBindings.Displacement | qualification/build-driver/elf_link_bindings.py:76-95 | the displacement bound alike in both images, if there is exactly one |
| ElfBindings.CheckSection | qualification/build-driver/elf_link_bindings.py:64-99 | accepts exactly the linked sections and counts the changed instructions |
| ElfBindings.Check | qualification/build-driver/elf_link_bindings.py:59-100 | both sections; accepted exactly when they are linked, which `LinkedIff` tells of the bytes |
| ElfSoundness.Decodes | qualification/build-driver/elf_link_bindings.py:77-78 | the little-endian two's complement of every signed 32-bit number is read as that number |
| ElfSoundness.Encodes | qualification/build-driver/elf_link_bindings.py:77-78 | and every four bytes are those of the number they are read as |
| ElfSoundness.LinkedIff | qualification/build-driver/elf_link_bindings.py:59-100 | a section is accepted exactly when every listed instruction stands in both images or differs only in four bytes that hold a number in each, leading to PLT entries of one name or to aligned GOT entries with one relocation or one stored value, and every byte that differs is covered |
| ElfSoundness.InstructionField | qualification/build-driver/elf_link_bindings.py:96-98 | a byte that differs lies in the displacement field of the instruction that covers it |
| ElfSoundness.OnlyBindingsDiffer | qualification/build-driver/elf_link_bindings.py:59-100 | an accepted section is the full one with only such fields overwritten |
| ElfSoundness.CountsDiffering | qualification/build-driver/elf_link_bindings.py:70-100 | the number returned counts exactly the instructions in whose bytes the sections differ |
| Digests.DigestPaths | qualification/release/inputs.py:9-34 | the digest of readable paths, or the error of the first missing or empty one |
| Digests.CountsIff | qualification/release/inputs.py:14-16 | a file of a directory counts unless a part of its name is `__pycache__` or `.git` or it is some stem with `.pyc` |
| Digests.CountedSplit | qualification/release/inputs.py:14-16 | exactly these are fed, in their order |
| Digests.JoinSnoc | qualification/release/inputs.py:20 | names are the parts joined by slashes |
| Digests.JoinInjective | qualification/release/inputs.py:20 | two files of a directory have one name only if they are the same file |
| Digests.HeadDecodes | qualification/release/inputs.py:19-33 | the front of the stream tells path number, name and content digest of its first file |
| Digests.StreamDecodes | qualification/release/inputs.py:19-33 | equal streams have equal files, unless two of the contents collide: the framing is unambiguous |
| Digests.DigestDecides | qualification/release/inputs.py:9-34 | unless two of the strings hashed collide, digests are equal if and only if names, order and contents agree path by path |
| Digests.KeptByLines | qualification/release/inputs.py:24-29 | the build profile is taken line by line |
| Digests.OnlyBuiltIgnored | qualification/release/inputs.py:24-29 | a line `built_utc=` changes nothing, and every other line is kept as it is, also a last one without a newline |
| Digests.KeptIs | qualification/release/inputs.py:24-29 | what is fed of every text: its lines without those that start with `built_utc=` |
| Digests.LinesOf | qualification/release/inputs.py:27 | every text is such a row of lines |
| ProductFiles.GreenMeansFiles | qualification/release/qualify.py:626-642 | where the recorded identity is the digest of the product's files, a green verdict means that exactly these names and contents are installed, built times aside, and that every job holds a pass with the signature they give |
| ProductFiles.TakenOverSameFiles | qualification/release/qualify.py:183-188 | a result taken over, of a job that needs `build`, was obtained with the files that are installed now |

## Left out

- The scan looks at pending jobs sorted by stage and name; here the order is any listing of all jobs, and what is proved holds for every one.
- Selecting rows by platform and mode, the version number, the check that `source_inputs` names every job, and the rewriting of Pulse commands in `load_matrix`; a bad `source_inputs` entry is an empty one.
- A final run's check of the full discovery before the loop, which only refuses more, and the printed plan and status. The names and signatures of the full discovery behind a final run are an answer of the surroundings.
- SHA-256 is a function whose results have one length; that no two of the finitely many records or strings hashed in a comparison collide is a hypothesis of the lemmas. Git tree ids are a function of the path; the fingerprint is its fields.
- Signatures.SignatureDecides: compares two runs with a product installed in both or in neither, because with one on one side only the signature of `build` itself stands against the product's identity.
- SchedulerRuns.ProgramTerminates: leaves aside iterations in which no job finishes within the waiting time, because the loop may repeat them without end.
- A finished future of a job that is not running does not exist; such an entry of a run is ignored.
- Results of failed executions with an exception are failures without a log; log contents and times are not modelled in the scheduler; the number of an attempt is an answer of the surroundings.
- SIM: token positions are unbounded numbers, so unsigned wrap-around of `i0 + MinRunSize` and the signedness of a table entry above 127 are not modelled; the primary hash code is any function of the window; storing and printing runs is left out.
- SimLanguage.FunctionsBalancedIff: speaks of languages in which no token both opens and closes and some token that is no parenthesis may end a run, because in others nothing can show the difference.
- SimCompare.SearchIsBruteForce: with option `f` it speaks of the languages of `FunctionsBalancedIff`, which the shipped ones are (`ShippedIsBruteForce`); `LongestRun`, `RunInside` and `ReportedGenuine` hold for all.
- Resource files: the writer gives every record the language 0, here it may be any; a number as an identifier has 16 bits (packing a larger one fails); the encoding of text as 16-bit units, with its errors for lone surrogates, is not modelled; records whose sizes exceed 32 bits are excluded because packing them fails. A structure error and an assertion both refuse the file.
- Labels: `\d` and `\w` are any classes in which digits are word characters, the ten decimal digits are digits and the point is no word character. Running objdump and removing debug sections is not modelled.
- Pulse: the provenance checks of sources, plans and journals, the processor assignment and the category and duration checks of a batch are not modelled; a journal is the list of its complete lines, and a pair's metrics and evidence are answers. `int()` of a repeat is assumed to succeed; iterations and durations are integers. Batches are handled in any order, where the code sorts them. A log is its file name.
- PulseBatches.MoveBatches: assumes what `freeze_missing` and `case_descriptors` have checked before it is called.
- The analysis of merged records, verdicts and confirmations.
- Invocations: other reasons to refuse an invocation are not modelled; they leave the state file as it was or, of a first run, the file that `init` would have made. The Pulse processor plan is left out.
- Invocations.ProductStays: takes for granted that the product read after a passed `build` of a final run is the one its verification has just found (qualify.py 217-220 and 611-612).
- ELF: parsing of ELF files, of the symbol and relocation tables and of disassembly text; instructions lie at or behind the start of their section.
- Digests: names and contents are strings of bytes; reading in blocks and the sorting of directory entries are not modelled.
- `expand_includes`, `declaration_end` and the surface gates, subprocesses, archives, coordination over ssh, and the Pascal compiler and run-time library.
