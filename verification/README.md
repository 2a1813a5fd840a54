# Verified model of the xbat core

xbat benchmarks jobs on a cluster: a daemon on each node (`xbatd`, C++) samples hardware and
ships rows to a database, a control daemon (`xbatctld`, Python) submits jobs and talks to the
host and to Slurm, a REST backend (Python) keeps the records, and a web interface (TypeScript)
shows them. This project models the parts whose correctness is not visible from one function
body and proves what they promise. One module stands for one component.

| module | component | main results |
|---|---|---|
| `Traverser`, `ScopedTraverser`, `ScopedSteps` | the command line parser's tree traversers and search loop | preorder, each node once; lexicographic termination although scopes move the position backwards; what each step hides |
| `MeasurementQueue`, `DbWriter` | queue between collectors and database writer | no lost wake-up, rows conserved end to end |
| `PipePool` | pool of host pipes | no pipe with two holders, error branches unreachable, exactly which pipes can be lost |
| `IntervalScheduler`, `LikwidBudget` | measurement grid and LIKWID time budget | one grid for all collectors, no overrun, exactly when the collector keeps measuring |
| `Decimal`, `SeparatorRewrite`, `BraceText`, `BraceOrder`, `BraceEncode`, `BraceDecode`, `BraceInput`, `BraceRoundTrip` | brace notation printer and parser | two rewrite passes are enough; exact condition of the round trip; what typed text decodes to |
| `PhaseLog`, `PhaseRows` | import of the time stamp log | one-pass state machine refines a per-phase splitter; what becomes of the rows |
| `DeepClone` | deep copy of object graphs | terminating, fresh, isomorphic copy; sharing kept |
| `JobRegistration` | job and node registration, run numbers | benchmarking window, one record per job, increasing run numbers, with deletions and imports around |
| `JobPermutations` | jobs of a benchmark | each (variant, assignment, iteration) once, at the mixed-radix number of its choices |
| `JobIdRemap` | job ids on import | exact condition on the input under which references survive |
| `SlurmTracker` | polling Slurm | the table after each poll, dropped jobs looked up exactly once, eviction only of old jobs |
| `Roofline` | roofline statistics | mediant bound on total intensity, total performance is the average, what the median point is |

Objects that the source updates in place are classes here (`DepthFirstTraverser`,
`ScopedDfsTraverser`, `CQueue`, `Sink`, `Pool`, `Collector`, `Budget`, `Importer`, `JsObject`,
`Memo`, `Store`, `Record`, `SlurmConnector`). Their methods keep the source's loops and branches
and are proved equal to functions on values; the lemmas then talk about those functions over all
inputs or all runs. Concurrent code is a state machine whose steps are the lock regions, semaphore
operations and waits. Interleaving, timeouts, spurious wake-ups, clock readings, the answers of
the database sender, of LIKWID, of the host and of Slurm are parameters of the steps.

## Where the code does not meet the expectation

Each is a lemma with the exact condition or a concrete counterexample.

- **An interval of zero.** The daemon takes the interval as unsigned seconds and only the web form
  asks for more than none. With zero the first reading a millisecond past the start time divides by
  zero (`IntervalScheduler.ConfiguredIntervalWorksIffPositive`, `ZeroSurvivesIffNeverLate`). With
  every other configured interval, ends are later than the clock reading they were chosen from.
- **Brace notation from 0 to 10.** A prefix with all of 0 to 10 prints as a range starting in "0",
  which the decoder takes for padding and widens; this is the only exception to the round trip for
  numbers without leading zeros (`BraceRoundTrip.RoundTripIffNoZeroToTen`). A leading zero
  itself is lost (`BraceRoundTrip.SingleNameRoundTripsIffCanonical`).
- **A suffix behind a prefix.** Text that neither begins nor ends with a brace gets braces around
  the whole, and the decoder takes the first of them for those of the entry: "node[1-3]x" does not
  decode to its three names (`BraceInput.RangeTextDecodesIff`). For the same reason a name typed alone
  is read as a number (`BraceInput.NameAloneComesBackIff`).
- **A phase named "general".** Its first occurrence overwrites the document of the events without
  a phase (`PhaseLog.GeneralDocIffNameIsFree`).
- **Job ids that the benchmark does not list.** They keep their number on import and can be equal to
  a new one. References are preserved exactly when no unlisted reference has a number r above the
  maximum such that the id listed at place r - maximum - 1, for the last time there, is referenced
  too (`JobIdRemap.ImportFolder`, `JobIdRemap.UnlistedIdCanCollide`).
- **A pipe test that raises.** The test whether a pipe is still there stands outside the `try`. An
  error it passes on, such as a denied permission, takes the pipe and its permit out of the pool for
  good, and this is the only way to lose one (`PipePool.ExecuteOnHost`,
  `PipePool.QuietPoolMissesTheLost`).
- **Deletions and imports around registration.** A job that is deleted with its run is recorded again
  by its next registration (`JobRegistration.JobCanBeRecordedTwice`), and after an import over a node
  it is commissioned again however short the time between (`JobRegistration.NodeCanBeCommissionedTwice`).
  `DeletedJobIsRecordedAgainIff` and `ReplacedNodeIsCommissionedAgainIff` say exactly when,
  `RegistrationIsSafe` that there is no other way, and `QuietRegistrationIsSafe` states the rest.
- **Two consumers on the queue.** A wake-up can then be lost
  (`MeasurementQueue.TwoConsumersCanLoseAWakeup`); the daemon has one consumer.
- **Second node of a job submitted from the command line.** The record created for the first node
  has no configuration, and registering the second node fails on reading it
  (`JobRegistration.SecondNodeOfCliJobFails`), although the docstring promises default settings.

## Model

| member | source | states |
|---|---|---|
| Traverser.NextVisitsHead | src/xbatd/src/clipp.h:2967-2994 | one `++` visits the head of what remains and leaves exactly its tail |
| Traverser.VisitsPreorder | src/xbatd/src/clipp.h:2967-2994 | from the root, the k-th position is the k-th preorder node and the stack is empty exactly after as many steps as there are nodes |
| Traverser.PreorderListsEveryNodeOnce | src/xbatd/src/clipp.h:2789-2818 | the listing holds every node of the tree exactly once, ancestors before descendants, siblings from left to right |
| Traverser.LastInPathIffNextEmpties | src/xbatd/src/clipp.h:2842-2851 | `is_last_in_path` holds exactly when the next `++` empties the stack |
| Traverser.NextSiblingRemaining | src/xbatd/src/clipp.h:2981-2994 | `next_sibling` leaves exactly what was pending after the current subtree |
| Traverser.NextAfterSiblingsRemaining | src/xbatd/src/clipp.h:2996-3003 | `next_after_siblings` leaves exactly what was pending outside the innermost group |
| Traverser.DepthFirstTraverser.Advance | src/xbatd/src/clipp.h:2967-2979 | the in-place step is the functional step |
| Traverser.DepthFirstTraverser.AdvanceSibling | src/xbatd/src/clipp.h:2981-2994 | the popping loop leaves every finished group and moves the first unfinished one on |
| Traverser.DepthFirstTraverser.AdvanceAfterSiblings | src/xbatd/src/clipp.h:2996-3003 | the same after jumping to the last sibling |
| Traverser.DepthFirstTraverser.PutBack | src/xbatd/src/clipp.h:3083-3092 | `undo` cuts back to the saved level and restores the saved context, in the two cases where it acts |
| Traverser.DepthFirstTraverser.RetreatTo | src/xbatd/src/clipp.h:3005-3016 | `back_to_ancestor` pops until it stands on the given group |
| Traverser.DepthFirstTraverser.AtLastInPath | src/xbatd/src/clipp.h:2842-2851 | the loop answers whether the next `++` exhausts the traverser |
| ScopedTraverser.StepLowersMeasure | src/xbatd/src/clipp.h:4127-4165 | each `++` lowers (saved scopes, nodes still ahead) lexicographically |
| ScopedTraverser.EverySearchEnds | src/xbatd/src/clipp.h:4397-4415 | from every well-formed state finitely many steps exhaust the traverser |
| ScopedTraverser.NeverBackwardsWithoutScopes | src/xbatd/src/clipp.h:4127-4165 | without saved scopes a step leaves a proper suffix of what was left |
| ScopedSteps.StepHidesOnlyWhatIsBlocked | src/xbatd/src/clipp.h:4138-4159 | read off the stack and the tree: without a match here, the outermost blocking group that the step would leave unmatched takes its siblings along, else a blocking parameter takes its siblings along (only itself among alternatives); in every other case just the current node is left |
| ScopedSteps.StepIs | src/xbatd/src/clipp.h:4127-4165 | the whole step, whatever scopes are saved: at the last node and behind a skip off the tree it falls back, and then it gives up the scopes it left |
| ScopedSteps.SamePositionIffSamePath | src/xbatd/src/clipp.h:3052-3067 | two traversers are at the same position exactly when they stand on the same node |
| ScopedSteps.OutermostExploredIs | src/xbatd/src/clipp.h:2917-2929 | the group found is the outermost blocking one among those whose last children the stack stands on |
| ScopedSteps.BackToAncestorIs | src/xbatd/src/clipp.h:3009-3017 | the retreat ends where the traverser stands on the group, or nowhere |
| ScopedSteps.ShutOffGroupOfLinked | src/xbatd/src/clipp.h:4145-4148 | in a linked stack a skipped group leaves exactly what is pending around it |
| ScopedSteps.PositionStaysLinked | src/xbatd/src/clipp.h:4127-4165 | a new search is linked and stays so while no scope is saved |
| ScopedSteps.ScopesGivenUp | src/xbatd/src/clipp.h:4279-4295 | which scopes a step gives up: those too deep for the position reached by then, one level earlier behind the place of the last match |
| ScopedSteps.FallingBackIs | src/xbatd/src/clipp.h:4298-4315 | every scope is put back, innermost first, the place after the last match is forgotten and no repeat group goes on |
| ScopedSteps.InnermostRepeatGroupIs | src/xbatd/src/clipp.h:2893-2898 | the innermost repeatable group on the stack |
| ScopedSteps.RepeatContinuesIff | src/xbatd/src/clipp.h:4268-4276 | a repeat group goes on exactly while position and last match have the same innermost one and the place after the last match is not left |
| ScopedTraverser.OutermostScopeIsRestored | src/xbatd/src/clipp.h:4298-4315 | falling back from inside the tree lands on the outermost saved scope exactly when no other scope lies above it, and otherwise above that scope |
| ScopedTraverser.FallingBackFromTheEnd | src/xbatd/src/clipp.h:4298-4315 | for every stack of scopes, falling back after running off the tree lands on the outermost scope saved in the root group, or ends the search when there is none |
| ScopedTraverser.IgnoringBlocksIsPlainTraversal | src/xbatd/src/clipp.h:4138-4140 | with blocking ignored and no scopes, the scoped traverser is the plain one for any number of steps |
| ScopedTraverser.FreshSearchFindsFirstInPreorder | src/xbatd/src/clipp.h:4397-4415 | the search that ignores blocking returns the first acceptable parameter in preorder, or nothing only if there is none |
| ScopedTraverser.CheckLeftScope | src/xbatd/src/clipp.h:4279-4295 | scopes are given up from the innermost one on, the position moves only by that, and the innermost scope left is not deeper than the position |
| ScopedTraverser.NoScopeIsDeeper | src/xbatd/src/clipp.h:4279-4295 | no scope left is deeper than the position, when each was saved at least as deep as the one before |
| ScopedTraverser.ScopedDfsTraverser.Advance | src/xbatd/src/clipp.h:4127-4165 | the in-place step with all its branches is the functional step |
| ScopedTraverser.ScopedDfsTraverser.CheckIfLeftScope | src/xbatd/src/clipp.h:4279-4295 | both restoring loops and the repeat flag equal the specification |
| ScopedTraverser.ScopedDfsTraverser.ReturnToOutermostScope | src/xbatd/src/clipp.h:4298-4315 | every scope is unwound, or the traverser is invalidated when there is none |
| ScopedTraverser.ScopedDfsTraverser.FullMatch | src/xbatd/src/clipp.h:4397-4415 | the loop terminates at the first step that stands on an accepted parameter, else exhausted |
| MeasurementQueue.CQueue.PushMultiple | src/xbatd/src/CQueue.hpp:66-78 | appends all items in order and asks for a notify exactly when the queue was empty; exactly the protocol's push step |
| MeasurementQueue.CQueue.PopAll | src/xbatd/src/CQueue.hpp:130-144 | empties the queue, splitting it by value type in queue order |
| MeasurementQueue.SplitLosesNothing | src/xbatd/src/CQueue.hpp:130-144 | the two lists together are the queue, as multisets |
| MeasurementQueue.SingleConsumerNeverLosesWakeups | src/xbatd/src/CQueue.hpp:66-78 | one consumer, any producers, any interleaving with spurious wake-ups and with timeouts, also ones reported after a notify: blocked in front of a non-empty queue implies an owed notify |
| MeasurementQueue.OwedNotifyDelivers | src/xbatd/src/CQueue.hpp:121-196 | the owed notify can be sent and wakes the consumer; its next lock region empties the queue, or reports a timeout after all, and then its next call does |
| MeasurementQueue.TwoConsumersCanLoseAWakeup | src/xbatd/src/CQueue.hpp:99-112 | a run with two consumers that ends with one blocked, an entry queued and no notify owed |
| DbWriter.Sink.Store | src/xbatd/src/main.cpp:110-120 | rows move to the buffer in order, a flush happens exactly at the size limit, and the counter equals the rows buffered; exactly the state machine's move |
| DbWriter.EveryRunKeepsInv | src/xbatd/src/main.cpp:103-121 | in every reachable state nothing is lost or duplicated, `bufferSize` is the number of rows buffered, and no wake-up is lost |
| DbWriter.CleanExitConservesRows | src/xbatd/src/main.cpp:103-123 | at exit without sender error, pushed rows are flushed rows plus queued rows (plus dropped), in push order within each value type |
| DbWriter.FailedExitLosesOnlyTheBuffer | src/xbatd/src/main.cpp:125-128 | a sender error loses exactly the rows buffered at that moment |
| DbWriter.WriterIsAlwaysAboutToWake | src/xbatd/src/main.cpp:104-108 | a writer blocked on a non-empty queue can be notified, and then takes all rows: by popping them, or in the next round of the loop if the wait reports a timeout after all, unless canceled |
| PipePool.Pool.TakePipe | src/xbatctld/pipe.py:78-87 | pops the last listed pipe or reports an empty list; exactly the worker step of the state machine |
| PipePool.Pool.Release | src/xbatctld/pipe.py:102-103 | fails exactly when the semaphore is full; exactly the worker step of the state machine |
| PipePool.AllocPipe | src/xbatctld/pipe.py:64-87 | hands out the last listed pipe under a permit; a failed acquire changes nothing |
| PipePool.FreePipe | src/xbatctld/pipe.py:89-103 | appends the pipe and releases one permit, unless the semaphore is full |
| PipePool.ExecuteOnHost | src/xbatctld/pipe.py:109-143 | the pool ends as it began, an allocated pipe being freed exactly once, on every path but one: if the pipe test raises, the pipe and its permit are gone |
| PipePool.PermitMeansPipe | src/xbatctld/pipe.py:78-83 | a worker with a permit finds a pipe: the inconsistency branch is unreachable |
| PipePool.PoolIsSafe | src/xbatctld/pipe.py:64-103 | any workers, any interleaving, lost pipes included: available plus held pipes are the initial set, no pipe has two holders, the semaphore is never over-released |
| PipePool.QuietPoolMissesTheLost | src/xbatctld/pipe.py:127-132 | when no worker is at work any more, the pipes and permits missing are exactly those lost to exceptions of the pipe test |
| PipePool.QuietPoolIsWhole | src/xbatctld/pipe.py:64-103 | when all workers are done without such exceptions, every pipe and permit is back |
| IntervalScheduler.SleepMillisecondsAndCheck | src/xbatd/src/CDataCollectionBase.cpp:164-173 | sleeps exactly the requested time in bounded slices unless stopped, never more |
| IntervalScheduler.Collector.SynchronizeMeasurement | src/xbatd/src/CDataCollectionBase.cpp:179-204 | chooses the interval end, leaves timeLeft in [0, interval] and sleeps off the excess; fails exactly when an interval of zero is divided by |
| IntervalScheduler.Collector.IntervalCleanup | src/xbatd/src/CDataCollectionBase.cpp:210-212 | the next interval starts at the last end when asked to |
| IntervalScheduler.EndIsOnGrid | src/xbatd/src/CDataCollectionBase.cpp:180-190 | the chosen end is the start plus a whole, positive number of intervals |
| IntervalScheduler.EndIsNextReachableGridPoint | src/xbatd/src/CDataCollectionBase.cpp:180-190 | which grid point: the next end if a quarter interval is left, one later if less, else the first one after the clock |
| IntervalScheduler.ConfiguredIntervalWorksIffPositive | src/xbatd/src/threadhelper.cpp:76 | for intervals of whole seconds, over all readings: the scheduler never divides by zero, and ends after every reading, if and only if the interval is not zero |
| IntervalScheduler.ZeroSurvivesIffNeverLate | src/xbatd/src/CDataCollectionBase.cpp:186-188 | with an interval of zero a run survives if and only if no reading is a millisecond past the start time |
| IntervalScheduler.EndsAfterClockIffFourMillis | src/xbatd/src/CDataCollectionBase.cpp:180-190 | the truncating arithmetic behind it: the end is later than every reading if and only if the interval is at least 4 ms |
| IntervalScheduler.GrantedWithinInterval | src/xbatd/src/CDataCollectionBase.cpp:190-201 | the time granted lies in [0, interval] for every clock reading |
| IntervalScheduler.GrantAndSleepFillTime | src/xbatd/src/CDataCollectionBase.cpp:195-201 | grant and sleep together are the time to the end, and there is a sleep only before a grant of the whole interval |
| IntervalScheduler.TruncDivIs | src/xbatd/src/CDataCollectionBase.cpp:183-185 | milliseconds are cut off towards zero |
| IntervalScheduler.StampsStayOnGrid | src/xbatd/src/CDataCollectionBase.cpp:179-212 | over every run, stamps lie on the grid and are at least one interval apart |
| IntervalScheduler.StampsAreAhead | src/xbatd/src/CDataCollectionBase.cpp:179-212 | over every run, each stamp is later than the reading it was chosen from |
| IntervalScheduler.CollectorsShareTheGrid | src/xbatd/src/CDataCollectionBase.cpp:179-212 | stamps of two collectors with one start time differ by whole intervals |
| IntervalScheduler.PunctualRunsSkipNothing | src/xbatd/src/CDataCollectionBase.cpp:186-191 | a collector that always has a quarter interval left stamps every grid point |
| LikwidBudget.Budget.PrepareMeasurements | src/xbatd/src/CLikwidPerfctr.cpp:374-404 | succeeds exactly when LIKWID starts, offers some default set and accepts all that are offered; then there is one id per set, in order |
| LikwidBudget.Budget.MeasureSets | src/xbatd/src/CLikwidPerfctr.cpp:161-212 | equal sleeps that with the predicted overhead stay within timeLeft and waste under a millisecond per set; failures keep the prediction; taken alone it divides by an empty set list |
| LikwidBudget.Budget.Measure | src/xbatd/src/CLikwidPerfctr.cpp:57-79 | the whole measurement ends as the cycles say, and never divides by an empty set list: preparing refuses it |
| LikwidBudget.AffordableCyclesGoOn | src/xbatd/src/CLikwidPerfctr.cpp:164-166 | the collector keeps measuring as long as no cycle costs more than one millisecond above what every interval grants |
| LikwidBudget.SteadyCyclesGoOnIff | src/xbatd/src/CLikwidPerfctr.cpp:164-166 | under a constant cost it keeps measuring if and only if the cost is at most one millisecond above the time granted; otherwise it gives up after finitely many cycles |
| LikwidBudget.PredictionStaysBetween | src/xbatd/src/CLikwidPerfctr.cpp:312-317 | the new prediction lies between the old one and the sample |
| LikwidBudget.TotalOfParts | src/xbatd/src/CLikwidPerfctr.cpp:312 | the overhead of a cycle is the sum of its samples |
| LikwidBudget.PredictionSettles | src/xbatd/src/CLikwidPerfctr.cpp:312-317 | under constant cost x it reaches x (from above) or x-1 (from below) and stays |
| LikwidBudget.CycleEndsInTime | src/xbatd/src/CLikwidPerfctr.cpp:164-170 | a cycle whose overhead is at most the prediction ends within timeLeft |
| SeparatorRewrite.TwoPassesAreEnough | src/ui/utils/braceNotation.js:18-19 | on every string two non-overlapping passes equal "each semicolon between digits becomes a comma" |
| SeparatorRewrite.NoSeparatorIsLeft | src/ui/utils/braceNotation.js:18-19 | no semicolon between digits is left |
| SeparatorRewrite.OnePassIsNotEnough | src/ui/utils/braceNotation.js:18-19 | of two separators around a single digit one pass rewrites only the first |
| BraceText.SpacesAroundCommaVanish | src/ui/utils/braceNotation.js:17 | white space around a comma vanishes in the first rewrite, wherever the comma stands |
| BraceText.NormalizedBareText | src/ui/utils/braceNotation.js:16-19 | without such white space the three rewrites keep the commas between digits, turn every other one into a semicolon, and semicolons between digits into commas |
| BraceEncode.EncodeBraceNotation | src/ui/utils/braceNotation.js:89-158 | output is one text per prefix, each holding exactly that prefix's numbers in ascending order, prefixes by their last name with the latest first, then the names without a number as they came |
| BraceEncode.PrintNumbers | src/ui/utils/braceNotation.js:136-153 | the loop with the pending minus prints the ranges of the number list |
| BraceEncode.GroupNodes | src/ui/utils/braceNotation.js:110-130 | the pop-and-splice loop puts every node into exactly one group, one group per prefix, in the order of the prefixes' last nodes from the end |
| BraceDecode.GetPaddingLength | src/ui/utils/string.ts:54-61 | the number of leading zeros |
| BraceOrder.SplitAtText | src/ui/utils/string.ts:32-45 | the loop from the end splits off the text behind the last numeric character |
| BraceOrder.KeyIsNumberAfterBase | src/ui/utils/braceNotation.js:69-75 | the comparator compares the numbers right behind the base, whatever text follows |
| BraceOrder.KeyOfName | src/ui/utils/braceNotation.js:70-71 | a name is compared by the digits behind the base, whatever its suffix |
| BraceOrder.SortByKeySorts | src/ui/utils/braceNotation.js:68-75 | sorting keeps every name as often as it was, with ascending numbers when every name has one |
| BraceOrder.SortByKeyIsStable | src/ui/utils/braceNotation.js:68-75 | names with equal numbers keep their order |
| BraceDecode.OutputHolds | src/ui/utils/braceNotation.js:68-76 | sorting inside the entries changes the order and no name |
| BraceDecode.DecodeBraceNotation | src/ui/utils/braceNotation.js:10-80 | the decoding loops with the optional sort compute the specification; the result holds exactly the names the string stands for, each once |
| BraceInput.SpacesDoNotMatter | src/ui/utils/braceNotation.js:13-19 | white space around a comma changes nothing in what is decoded |
| BraceInput.JoinedTextsDecode | src/ui/utils/braceNotation.js:21-77 | texts with braces, suffixes and plain names joined by commas decode to what each stands for, one after the other, sorted within each or not |
| BraceInput.SpacedTextsDecode | src/ui/utils/braceNotation.js:16-77 | the same with white space around the commas |
| BraceInput.RangeDecodes | src/ui/utils/braceNotation.js:36-64 | two bounds in either order stand for exactly the numbers between them: as wide as the wider bound if the first begins with a zero, else without superfluous zeros |
| BraceInput.FurtherBoundsDoNotCount | src/ui/utils/braceNotation.js:36-39 | a third bound is ignored |
| BraceInput.RangeTextDecodesIff | src/ui/utils/braceNotation.js:13-33 | a range with a prefix and a suffix decodes to its names if and only if one of the two is empty |
| BraceInput.NameAloneComesBackIff | src/ui/utils/braceNotation.js:13-65 | a name typed alone comes back if and only if it is a number without superfluous zeros (or spelled NaN) |
| BraceText.UniqueInOrder | src/ui/utils/braceNotation.js:79 | each name once, in the order of first occurrence |
| BraceRoundTrip.RunsAreMaximal | src/ui/utils/braceNotation.js:138-152 | the ranges of an ascending list cover exactly its numbers, ascend and cannot be merged |
| BraceRoundTrip.RangesAreRuns | src/ui/utils/braceNotation.js:138-152 | the printed ranges are those maximal runs |
| BraceRoundTrip.RoundTripIffNoZeroToTen | src/ui/utils/braceNotation.js:10-158 | for names of a plain prefix and a number without leading zeros, decoding what was encoded gives back exactly the set if and only if no prefix has all of 0 to 10 |
| BraceRoundTrip.RoundTripFailsFromZeroToTen | src/ui/utils/braceNotation.js:54-60 | in that case a name comes out that was never there |
| BraceRoundTrip.PositiveNumbersRoundTrip | src/ui/utils/braceNotation.js:10-158 | positive numbers always round-trip |
| BraceRoundTrip.SingleNameRoundTripsIffCanonical | src/ui/utils/braceNotation.js:65 | a single name comes back if and only if its number has no leading zero |
| BraceRoundTrip.PrintedTextNeedsNoSorting | src/ui/utils/braceNotation.js:68-75 | what the encoder prints for a group decodes in ascending order of the numbers, so the sort changes nothing, padded names included |
| PhaseLog.Importer.Take | src/xbatctld/processing.py:192-240 | one line updates the three dictionaries as the state machine's step |
| PhaseLog.Importer.ImportLog | src/xbatctld/processing.py:178-240 | the loop over the rows leaves the state of the whole run |
| PhaseRows.KindSays | src/xbatctld/processing.py:203-218 | a line is a start exactly when "start" stands somewhere in its message, in any case, and an end when only "end" does |
| PhaseRows.ParsedRow | src/xbatctld/processing.py:183-200 | which rows are skipped, and which time stamp, hardware, phase and message the others show |
| PhaseRows.PhaseRowsAreImported | src/xbatctld/processing.py:178-231 | in the words of the messages: documents numbered from 0, each a stretch of the phase's rows from one that says start up to the first that says end, or the row before the next start, or the end of the log; stretches in order and disjoint, one for every start |
| PhaseRows.PlainRowsAreImported | src/xbatctld/processing.py:232-240 | unless a row starts a phase "general", the rows without a phase make up the general document, from the first time stamp on and unfinished |
| PhaseLog.DocsInOrderOfCreation | src/xbatctld/processing.py:208-240 | every document is listed once, in the order of creation |
| PhaseLog.DocsOfPhaseAreSegments | src/xbatctld/processing.py:202-231 | the documents of a phase in an interleaved log are the segments of the log filtered to it |
| PhaseLog.PhasesAreIndependent | src/xbatctld/processing.py:202-231 | logs with the same lines of a phase give the same documents for it |
| PhaseLog.PhaseDocsAreStretches | src/xbatctld/processing.py:202-231 | occurrences dense from 0; each document a contiguous stretch from a start line, finished exactly when it ends in an end line; stretches disjoint, every start begins one |
| PhaseLog.GeneralDocIffNameIsFree | src/xbatctld/processing.py:232-240 | the general document holds exactly the unphased events if and only if no phase "general" starts |
| DeepClone.Copy | src/ui/utils/misc.ts:46-52 | a value already in the memo is answered from it; otherwise the memo grows and stays sound |
| DeepClone.CopyObject | src/ui/utils/misc.ts:54-101 | the copy is in the memo before its parts are copied, and is complete afterwards; terminates as the memo grows |
| DeepClone.DeepClone | src/ui/utils/misc.ts:46-102 | on any finite graph of arrays and plain objects with data properties: fresh copies, memo injective and commuting with every edge, exactly the reachable originals copied, source untouched |
| DeepClone.ReachableSetExists | src/ui/utils/misc.ts:46-102 | the set of reachable objects the previous row speaks of always exists |
| DeepClone.PathsCorrespond | src/ui/utils/misc.ts:46-102 | every access path leads to corresponding values in source and copy |
| DeepClone.SharingIsKept | src/ui/utils/misc.ts:52 | two paths meet in the copy exactly when they meet in the source |
| JobRegistration.Store.RegisterJob | src/backend/restapi/api/jobs.py:213-334 | the reply and the database after one lock region, configured default interval and error case included |
| JobRegistration.RegistrationAddsHost | src/backend/restapi/api/jobs.py:277-285 | the job's record gets this host besides those it has; nothing else of any job changes |
| JobRegistration.RegistrationCreatesJob | src/backend/restapi/api/jobs.py:225-266 | an unknown job gets a record behind all others with this host only, the next run number and no configuration |
| JobRegistration.RegistrationStampsNode | src/backend/restapi/api/jobs.py:289-326 | the node is stamped exactly when benchmarks are commissioned: it is new, or one is missing and the last stamp is over 900 s old or absent; other nodes and all results stay |
| JobRegistration.RegistersIff | src/backend/restapi/api/jobs.py:270-275 | the registration gets through exactly when the job has no record or its record has a configuration |
| JobRegistration.RegisteredHostStays | src/backend/restapi/api/jobs.py:277-285 | over every history: until jobs are deleted or replaced, a host that registered is on record with its latest hash |
| JobRegistration.Store.RegisterNode | src/backend/restapi/api/nodes.py:34-46 | stamps the node; benchmarks not posted stay |
| JobRegistration.Store.NextRunNr | src/shared/mongodb.py:123-135 | returns and stores the successor of the last run number |
| JobRegistration.RegistrationIsSafe | src/backend/restapi/api/jobs.py:223-326 | over every history with a non-decreasing clock, deletions and imports included: two positive replies for one hash are over 900 s apart unless an import replaced the node in between, two records created for one job id are separated by a removal, run numbers strictly increase |
| JobRegistration.DeletedJobIsRecordedAgainIff | src/backend/restapi/api/benchmarks.py:153-161 | after deleting a run the next registration of a job creates a record if and only if all its records were of that run |
| JobRegistration.ReplacedNodeIsCommissionedAgainIff | src/backend/restapi/backup.py:687-701 | after an import over a node the next successful registration commissions it if and only if the imported record lacks benchmarks and is out of its window |
| JobRegistration.JobCanBeRecordedTwice | src/backend/restapi/api/benchmarks.py:153-161 | in every database, registering a new job, deleting its run and registering it again records it twice under two run numbers |
| JobRegistration.NodeCanBeCommissionedTwice | src/backend/restapi/backup.py:687-701 | in every database, registering a new node, importing over it and registering it with another job commissions it twice, however short the time between |
| JobRegistration.QuietRegistrationIsSafe | src/backend/restapi/api/jobs.py:223-326 | without deletions, replaced jobs and node imports: always over 900 s apart, and at most one record created per job id |
| JobRegistration.SecondNodeOfCliJobFails | src/backend/restapi/api/jobs.py:246-275 | after a command line job is registered, registering it again fails |
| JobPermutations.GenerateVariablePermutations | src/xbatctld/submission.py:45-62 | the loops compute single-valued variables merged with each choice of the product |
| JobPermutations.ChoiceAtRank | src/xbatctld/submission.py:56 | in the product a choice stands at its mixed-radix rank |
| JobPermutations.RankIsOnto | src/xbatctld/submission.py:56 | every position is the rank of some choice |
| JobPermutations.RankIsInjective | src/xbatctld/submission.py:56 | of only one |
| JobPermutations.EveryAssignmentExactlyOnce | src/xbatctld/submission.py:45-62 | with distinct keys and values the list holds exactly the full assignments, each once |
| JobPermutations.PreparePermutations | src/xbatctld/submission.py:78-160 | the triple loop over the generated assignments: the nr-th job is the one its number stands for |
| JobPermutations.JobCount | src/xbatctld/submission.py:78-160 | there are variants times the product of the selection sizes times iterations jobs |
| JobPermutations.EveryJobExactlyOnce | src/xbatctld/submission.py:45-160 | with distinct keys and values, every variant with every full assignment and every iteration is generated exactly once, at the number whose mixed-radix digits are the variant, the position of each variable's value, and the iteration |
| JobPermutations.OnlyFullJobsOccur | src/xbatctld/submission.py:45-160 | and nothing else is generated |
| JobPermutations.RankIsMixedRadix | src/xbatctld/submission.py:56 | the rank in the product is the number the positions spell to the bases of the selection sizes |
| JobIdRemap.GetNewJobIds | src/backend/restapi/backup.py:438-443 | the loop builds the map from each id to maximum + 1 + the place where it is listed last |
| JobIdRemap.NewIdsAreFresh | src/backend/restapi/backup.py:438-443 | that map is injective and every new id is above the maximum |
| JobIdRemap.CollectJobIds | src/backend/restapi/backup.py:427-437 | every stored job id once, in order |
| JobIdRemap.CollectedInOrder | src/backend/restapi/backup.py:427-437 | in the order of the records that hold them first |
| JobIdRemap.RenamedIds | src/backend/restapi/api/benchmarks.py:347-350 | exactly the listed ids get a new number above the maximum, all stored ones if none is listed, and none without a maximum |
| JobIdRemap.RenameList | src/backend/restapi/backup.py:336-341 | every entry of the id list is renamed in place |
| JobIdRemap.Record.RenameJob | src/backend/restapi/backup.py:342-348 | job id and nested job id are renamed |
| JobIdRemap.Record.RenameOutput | src/backend/restapi/backup.py:349-352 | an output's job id is renamed if it is in the map |
| JobIdRemap.ImportFolder | src/backend/restapi/api/benchmarks.py:347-363 | across a folder's benchmark list, jobs, nested job infos and outputs, which references name the same job is preserved if and only if none collides, read off the file and the maximum; in particular when every one is listed |
| JobIdRemap.FolderMap | src/backend/restapi/api/benchmarks.py:347-350 | the folder's map is that of the benchmark's list, or else of the stored jobs, or empty without a maximum |
| JobIdRemap.NewIdIffClaimed | src/backend/restapi/backup.py:438-443 | an id gets the number r if and only if its last place in the list is r - maximum - 1 |
| JobIdRemap.ReferencesKeptIffNoCollision | src/backend/restapi/backup.py:331-358 | the equivalence on sequences of references |
| JobIdRemap.ListedIdsDoNotCollide | src/backend/restapi/backup.py:424-443 | no collision when every id is listed or at most the maximum |
| JobIdRemap.UnlistedIdCanCollide | src/backend/restapi/backup.py:331-358 | a folder whose import makes two different jobs one |
| SlurmTracker.SlurmConnector.GetSqueue | src/xbatctld/slurm.py:211-261 | one poll: recording, one lookup per dropped job as collected by the loop, and eviction, or nothing at all when the listing fails |
| SlurmTracker.SlurmConnector.UpdateJobScontrol | src/xbatctld/slurm.py:143-169 | a successful lookup replaces the job's entry, a failed one changes nothing |
| SlurmTracker.TableAfterPoll | src/xbatctld/slurm.py:211-261 | the whole table read off the poll: a job has its last entry's record, or the answer of its lookup if it was dropped, or what it had, unless that record ended over seven days ago; recorded are the jobs of the listing, looked up the dropped ones |
| SlurmTracker.FailedPollKeepsTable | src/xbatctld/slurm.py:211-226 | a failed poll changes nothing and looks nothing up |
| SlurmTracker.LookedUpExactlyWhenDropped | src/xbatctld/slurm.py:241-246 | over any polls: a poll looks up exactly the jobs of the last successful poll that it does not record |
| SlurmTracker.DroppedJobIsLookedUpOnce | src/xbatctld/slurm.py:211-246 | looked up in the next successful poll, in no failed one between, and not again until recorded again |
| SlurmTracker.OnlyOldJobsLeave | src/xbatctld/slurm.py:249-261 | a job leaves the table only with a known end time over seven days old |
| SlurmTracker.RecordedJobStaysUnlessOld | src/xbatctld/slurm.py:227-261 | a recorded job stays exactly when its own record is not outdated |
| Roofline.GetStats | src/backend/restapi/api/measurements.py:1084-1172 | zero statistics without interval or usable points; otherwise the first best point, the first point nearest the median rate, averages and totals, total performance equal to the average and bounded by the peak |
| Roofline.ArgMax | src/backend/restapi/api/measurements.py:1128-1133 | the first point of largest performance |
| Roofline.SamplesAreAtPlaces | src/backend/restapi/api/measurements.py:1100-1120 | the samples are the values at exactly the places where both series are positive, in order |
| Roofline.MedianSplitsValues | src/backend/restapi/api/measurements.py:1135-1137 | at least half of the rates are at most, and at least half at least, the middle ones the median lies between |
| Roofline.MedianPointIsNear | src/backend/restapi/api/measurements.py:1135-1141 | the median point's rate is off the median by half the gap between the middle two rates, so not at all for an odd number of points |
| Roofline.NearestIsHalfTheGap | src/backend/restapi/api/measurements.py:1136-1137 | the value nearest to the median of any series is off it by half the gap between the middle two |
| Roofline.TotalTime | src/backend/restapi/api/measurements.py:1151-1155 | all operations over total time is the mean of the rates |
| Roofline.TotalIntensityBetweenPoints | src/backend/restapi/api/measurements.py:1151-1155 | total intensity lies between any lower and upper bound of the point intensities |

## Left out

- Groups without children in the command line tree: `++` would descend into them and dereference the end; the tree is assumed to have none.
- Recording a match (`next_after_match`) and the parser around the search loops (joined flags, conflicts, repeat groups, conversion): the traversers are proved from every well-formed state instead of from the states the parser reaches.
- `waitAndPop` woken spuriously on an empty queue reads the front of an empty queue; the protocol has that step only for a non-empty queue, and the writer calls `waitAndPopAll`.
- The queue wait is a step without duration; that a scheduled notify or wake-up happens eventually is not stated.
- IntervalScheduler.SleepMillisecondsAndCheck: the terminate flag is read before each slice, and that reading is a parameter; real sleeping may take longer than asked.
- Overflow of 64-bit clock arithmetic, and an `abs` chosen for a narrower type: the model uses unbounded integers.
- LikwidBudget.Budget.MeasureSets: the unsigned conversion of a negative time left is not modelled; the scheduler grants none.
- The pool without any pipe, where neither semaphore nor lock exist and both operations return at once.
- Reading the result files after a host command, and the shell itself.
- BraceDecode.DecodeBraceNotation: signs, exponents, fractions and numbers beyond 2^53 are not parsed as JavaScript would, white space is limited to the common characters and not skipped in front of numbers, input is a string, and the order among names of which some have no number (engine-dependent in the source) is that of an insertion sort.
- BraceEncode.EncodeBraceNotation: the delimiter is the default comma, input is already a list of strings, digits are ASCII, and the order of numbers of equal value (1 and 01) is left open.
- The Python encoder `encode_brace_notation`, which adds mixed-width groups that the decoder does not restore.
- Splitting a log line at commas, stripping, and integer parsing; lower-casing is ASCII. The phase summary and the database writes after the loop.
- The watch loop and severity fold of `process`: a fold over exit states without a property beyond its body.
- DeepClone.DeepClone: objects with a clone method, dates, regular expressions, document nodes and boxed primitives; holes in arrays; functions count as primitives. Properties are plain data: an own key named `__proto__` goes through the prototype setter in the copy and is lost, and accessor properties or inherited setters run code instead of being copied.
- JobRegistration.RegistrationIsSafe: node registration, deletions and imports are each one atomic step although the source does not hold the registration lock in them.
- JobRegistration.Store.RegisterJob: a failing insert of the benchmark record, and fields other than those named.
- The clock of `JobRegistration` is one non-decreasing clock for all processes.
- The text of job scripts, templates and substitution: a job is its variant, variables, iteration and number.
- Rewriting ids in CSV exports.
- The test-data mode of the Slurm connector, malformed JSON, and which fields of a job are parsed.
- Roofline.GetStats: missing or non-finite samples, and floating-point rounding (arithmetic is over reals).
- Forced stop and revival of collector threads, access control, and the user interface around the modelled functions.
