# n2 and nix-ninja, modelled in Dafny

A model of the parts of n2 and nix-ninja whose correctness rests on more than
one function, with proofs of what they promise.

- **The graph** (`BuildGraph`, `GraphStore`, `GraphEdit`, `Ordering`): files,
  edges, interned names, adding an edge, the edit a deferral makes, and the
  theory of paths, cycles and orders that both schedulers rest on.
- **n2's scheduler** (`WantWalk`, `N2States`, `Runner`, `N2Progress`, `Manifest`,
  `N2Disk`, `N2Work`): the want walk with its validation re-entry, pools,
  counters and queues, the run loop, and the files on disk. `BuildStates`, `Runner` and `Work` are classes with the fields of the
  original. `Work.disk`, `clock` and the ghost `trace` are the world around it.
- **nix-ninja's scheduler** (`NixStates`, `WantExplored`, `NixProgress`,
  `NixScheduler`): the same graph edited while it is being built. A deferral
  puts a running build back to Want with more inputs; a budget of edges that
  can still be added bounds the whole run.
- **Path canonicalization** (`CanonSpec`, `Canon`): two cursors and a stack of
  offsets over one buffer, refining a walk over components.
- **The build log** (`DbFormat`, `DbLog`, `Db`, `DbReader`): the byte format, logs
  that were cut off, the writer and the reader across sessions.
- **From one build to the next** (`N2Log`, `N2Rebuild`): whole sessions of n2 over
  the bytes of the log, up to the null rebuild.
- **Realising derivations** (`FanOut`, `RealiseRequest`, `Realise`,
  `RealiseClient`): the worker loop under every interleaving, one request to the
  daemon, and the cache in front of it, with other threads writing to it.
- **The include walk** (`IncludeSpec`, `IncludeWalk`, `IncludeClosure`): batches,
  defines and uses in any order, and the closure that comes out.
- **Text** (`EvalStrings`, `NinjaText`, `ShellQuoting`, `NestedRoots`): variable
  scopes, reading ninja strings, shell quoting against section 2.2 of
  POSIX.1-2017 Shell Command Language, and moving a text from one pair of
  nested directories to another.

What the code calls but the model cannot see is a parameter: what commands
write, report and take (`N2Disk.Env`), what deferrals come back (a function from
the number of a report to the report), the daemon (`RealiseRequest.Daemon`, one
answer for ever, replies under any key), what files contain
(`IncludeSpec.Tree`), which cached paths exist.

## Where the code does less than one would think

Each of these is a theorem about the code as it is, with the condition under
which it does what it is meant to; most say if and only if.

- Dropping repeated outputs leaves too high an explicit count if and only if an
  explicit output beyond the first n + 1 repeats an earlier one, n being the number
  of distinct explicit outputs: 1 1 1 and 1 1 2 2 come out wrong, 1 1 1 2 3 4 right
  (`GraphStore.RemoveDuplicates`, `CountMissesARepeat`).
- The log writer lets id 2^24 through and writes it as 0, and cuts the number of
  outputs and of discovered inputs (`DbFormat.ReadBackExactly`,
  `LargestIdWraps`).
- A log with one byte past its last record opens without complaint. What is
  appended then is not read back, unless it is nothing but copies of that byte
  (`DbLog.CutLog`, `AppendedExactly`, `StrayByteSpoils`).
- The comment at vendor-n2/src/db.rs:200-209 expects two things: that a record
  whose outputs no longer belong to one build is ignored, and that one for A and B
  still attaches to A when B is no longer made. The code stops at the first output
  that nothing makes. So it attaches the record to A even if a third output has
  come to belong to another build, and to nobody if B was listed before A
  (`DbLog.OwnerExactly`, `OwnerMistaken`).
- nix-ninja visits validation inputs on the stack of the build they validate and
  refuses a validation that is built from what it validates; n2 accepts it
  (`NixScheduler.ValidatorIsRefused`, `N2States.BuildStates.WantTarget`).
- A deferral whose only new files are validation inputs of the same build adds
  nothing and is new again every time (`NixScheduler.DeferralNeverSettles`). A run
  goes on for ever if and only if such idle deferrals never stop
  (`NixScheduler.Scheduler.Run`, `EndlessExactly`); none is idle unless it names a
  validation input of the build that reports it (`IdleNamesCheck`).
- A deferral is accepted although the edit closes a cycle through a validation
  input, when the cycle passes through a build that was wanted already: the walk
  does not enter such builds, and the guard looks at ordering edges alone
  (`NixScheduler.Scheduler.HandleDeferred`, `DeferralMissesCycle`).
- In a release build a failure budget of 0 wraps around: the run stops at failure
  2^64, as it stops at failure k for a budget of k (`N2Work.Work.SpendFailure`,
  `Run`). A debug build panics on the subtraction.
- An include that was listed as the spelling of another file first is never
  scanned, so what it includes is missed (`IncludeClosure.AliasHidesAnInclude`).
  The files scanned are the least closed set if and only if no path is spelled
  before it is reached (`LeastClosure`).
- Pooling replies by output name is right only because each request names one
  derivation, as the requests of the client do (`RealiseRequest.RequestAnswerRight`,
  `SharedRequestIsWrong`, `RealiseClient.GroupAnswerRight`).
- Moving the two directories by one replacement after the other goes wrong when the
  second finds something in what the first put in; the placeholder prevents it
  (`NestedRoots.TwoReplacesExactly`, `TwoReplacesCorrupt`, `RewriteIsSplit`).
- An empty file name in a quoted list vanishes (`ShellQuoting.ShellReadsNames`).

## Model

| member | source | states |
|---|---|---|
| BuildGraph.UsersOf | vendor-n2/src/work.rs:517-531 | finds every build ordered after a given one, and only builds that list one of its outputs as an input |
| Ordering.ClosedReaches | vendor-n2/src/work.rs:208-282 | what a build reaches stays inside any set closed under its edges; the argument behind every statement about whole walks |
| Ordering.TopologicalReachesNoCycle | vendor-n2/src/work.rs:208-282 | nothing that a topologically ordered, closed set of builds leads to lies on an ordering cycle |
| Ordering.RankedNoCycle | vendor-n2/src/work.rs:208-282 | builds ranked along their ordering edges lie on no ordering cycle |
| Ordering.WaitingReachesDead | vendor-n2/src/work.rs:756-765 | following the waits from a build that is not done leads to one that failed |
| Ordering.StoppedExactly | vendor-n2/src/work.rs:756-765 | when a scheduler stops, a wanted build is done if and only if nothing it is ordered after, itself included, is dead |
| WantWalk.ChainPath | vendor-n2/src/work.rs:252-282 | the stack of files a walk carries is a path of the builds that make them |
| WantWalk.FileCycleOnCycle | vendor-n2/src/work.rs:252-282 | a list of files reported as a cycle is a cycle of the builds that make them |
| WantWalk.StackCycle | vendor-n2/src/work.rs:252-282 | meeting a file that is on the stack again closes a cycle, and the reported slice of the stack is that cycle |
| N2States.PoolsMove | vendor-n2/src/work.rs:143-199 | one state change keeps every pool in step: the running count is the number of its Running builds, within a non-zero depth, and its queue holds exactly its Queued builds |
| N2States.CountsMove | vendor-n2/src/work.rs:143-199 | one state change keeps the six counters equal to the number of commands in each state, and the pending count equal to the number of builds under way |
| N2States.CountedPositive | vendor-n2/src/work.rs:56-75 | a counter that is about to be lowered is positive, so no count underflows |
| N2States.EnterState | vendor-n2/src/work.rs:208-246 | setting a build whose ordering inputs have all been visited keeps the first-set order topological, also when a validation edge led to it before |
| N2States.ValidatedClosed | vendor-n2/src/work.rs:208-246 | when a whole walk has returned, what is wanted is closed under ordering and validation edges |
| N2States.WalkReached | vendor-n2/src/work.rs:208-282 | after a walk everything its target leads to is wanted and no ordering cycle is among it |
| N2States.BuildStates.Set | vendor-n2/src/work.rs:143-199 | changes the state of one build and keeps counters, ready queue and pools in step with the states; a build turned ready is queued once |
| N2States.BuildStates.WantBuild | vendor-n2/src/work.rs:208-246 | wants a build and what it leads to; an error carries a cycle of ordering edges, on an ordering stack that validation inputs start afresh |
| N2States.BuildStates.WantFile | vendor-n2/src/work.rs:252-282 | visits one file: reports whether its producer is done, or the cycle the stack closed |
| N2States.BuildStates.WantTarget | vendor-n2/src/work.rs:252-282 | succeeds if and only if no ordering cycle can be reached from the target, over any edges, and then wants exactly what can be reached |
| N2States.BuildStates.PopReady | vendor-n2/src/work.rs:284-289 | takes the ready build that waited longest off the queue |
| N2States.BuildStates.PopQueued | vendor-n2/src/work.rs:319-328 | takes the head of the first non-empty queue whose pool has room, and finds none only when no pool has both |
| N2States.BuildStates.Enqueue | vendor-n2/src/work.rs:303-315 | puts a build at the end of its pool's queue; refused exactly when the pool does not exist |
| N2States.DeclarePools | vendor-n2/src/work.rs:121-137 | the pools of a run are the unnamed one, console and those declared, each name once, with the depth it was declared with last and nothing queued or running |
| Runner.ClaimedStart | vendor-n2/src/task.rs:156-178 | a task that starts in the lowest free slot shares it with no other task |
| Runner.AllClaimed | vendor-n2/src/task.rs:156-178 | when every slot is taken there are no more slots than tasks |
| Runner.Runner.Start | vendor-n2/src/task.rs:205-245 | starts a task in the lowest slot that no other task holds, and keeps the number of slots within the parallelism |
| Runner.Runner.Finish | vendor-n2/src/task.rs:255-267 | frees the slot of a finished task and no other |
| N2Progress.WeightFalls | vendor-n2/src/work.rs:702-808 | every state change forwards lowers the measure that bounds a run |
| N2Progress.AncestorsDone | vendor-n2/src/work.rs:399-418 | a build past Want has everything it is ordered after done, however far back |
| N2Progress.HistoryStep | vendor-n2/src/work.rs:720-753 | one more event keeps the history in order: builds start and settle once, after everything they are ordered after has settled |
| N2Progress.NothingToDo | vendor-n2/src/work.rs:706-765 | nothing started, nothing ready and nothing running means that every wanted build is Want, Done or Failed |
| N2Progress.IdleExactly | vendor-n2/src/work.rs:756-765 | in such a state a wanted build is done if and only if no failed build is among what it is ordered after |
| N2Progress.NeverStuck | vendor-n2/src/work.rs:760-765 | with builds pending and nothing left to do some build has failed, so the BUG panic cannot be reached |
| N2Progress.RunEnded | vendor-n2/src/work.rs:756-808 | a run that ends by itself leaves done exactly the wanted builds that no failure blocks |
| Manifest.TokensInjective | vendor-n2/src/hash.rs:97-120 | different manifests never feed the hasher the same tokens: a changed time, or a file moved from one list to another, changes the token sequence |
| N2Disk.InputsSettled | vendor-n2/src/work.rs:564-598 | the inputs of a build that is ready are not written by anything still to come |
| N2Disk.TouchedQuiet | vendor-n2/src/work.rs:465-514 | no file a finished command reads or writes is written again during the run |
| N2Disk.FilesOkTick | vendor-n2/src/work.rs:465-514 | a step of the running commands, which write only their own outputs, leaves finished commands up to date |
| N2Disk.CleanIsFresh | vendor-n2/src/work.rs:624-684 | a build found clean has an up to date record |
| N2Disk.NullIsClean | vendor-n2/src/work.rs:624-684 | a build with an up to date record and no missing file is found clean |
| N2Disk.StreamTells | vendor-n2/src/hash.rs:97-120 | the hash function is given the same for two builds if and only if names and times in the three lists of files, the command and the response file are the same |
| N2Disk.TimesTell | vendor-n2/src/hash.rs:72-86 | for one build the hash function is given the same if and only if every declared input, discovered input and output has the time it had |
| N2Disk.ChangeIsSeen | vendor-n2/src/work.rs:665-684 | against a recorded hash that the hash function tells apart, a build is up to date exactly when its files are there and nothing has changed since |
| N2Disk.ExplainedStep | vendor-n2/src/work.rs:702-808 | each state change has its reason: done after a start only if the command succeeded and with the inputs it reported, done without one only if phony, up to date or adopted, failed only if the command did |
| N2Disk.ExplainedTick | vendor-n2/src/work.rs:702-808 | what running commands write does not undo the reason of a build that was found up to date: its record matches the disk still |
| N2Disk.ExplainedIdle | vendor-n2/src/work.rs:756-808 | when nothing runs, each command that was started has ended, done if it succeeded and failed if not |
| N2Work.Work.EnsureInputs | vendor-n2/src/work.rs:423-461 | stats inputs not seen before and reports exactly the first that is missing, or that is generated but was never stat-ed |
| N2Work.Work.CheckBuildDirty | vendor-n2/src/work.rs:624-684 | finds a command clean if and only if its files are there and its manifest hashes to its last record; where the hash function tells the two apart, dirty exactly when a file is missing or a time, name, list, command or response file has changed; the first input that is missing or unknown is an error if it was never stat-ed or is a declared source, and makes the build dirty otherwise |
| N2Work.Work.RecordFinished | vendor-n2/src/work.rs:465-514 | stores the discovered inputs that are not declared ones, each once, and logs the build when none of its files is missing |
| N2Work.Work.RecheckReady | vendor-n2/src/work.rs:399-418 | true if and only if everything the build is ordered after is done |
| N2Work.Work.ReadyDependents | vendor-n2/src/work.rs:517-537 | marks a build done and readies exactly the waiting builds that waited for it last |
| N2Work.Work.ProcessReady | vendor-n2/src/work.rs:720-753 | takes the ready build that waited longest; it is done if it is phony or up to date for the times just stat-ed or if builds are adopted, and queued otherwise; a null rebuild only settles |
| N2Work.Work.StartOne | vendor-n2/src/work.rs:708-716 | starts one queued build within parallelism and pool depth, in a runner that knows exactly the Running builds |
| N2Work.Work.SpendFailure | vendor-n2/src/work.rs:778-786 | lowers the failure budget, which is unsigned: in a release build a budget of 0 wraps around instead of stopping the run |
| N2Work.Work.FinishOne | vendor-n2/src/work.rs:767-800 | what becomes of a build whose task came back is what its command came to: done, failed, or running still when interrupted or when the budget is spent |
| N2Work.Work.MakeProgress | vendor-n2/src/work.rs:706-765 | makes the measure fall, or finds every queue and the ready list empty |
| N2Work.Work.Run | vendor-n2/src/work.rs:702-808 | always ends; starts and settles every build once and in order; never runs out of work without a failure; true means that every wanted build is done, and a run that stops leaves done exactly what no failure blocks; the last failure that the budget allows ends it, and no earlier one does; every command that was started came to what its task came to, so true means that none failed, and a run that gives up or is interrupted has a started command that did so |
| N2Work.BuildOnce | vendor-n2/src/run.rs:46-93 | refused if and only if a target leads to an ordering cycle; otherwise everything the targets lead to is done, or it says what stopped it: a run that ended by itself leaves done exactly what no failure blocks; in a build that succeeds every started command succeeded, and every other done one was up to date |
| N2Log.SaysAll | vendor-n2/src/db.rs:126-152 | whatever a run logs, the last record of each build says by name what is known of it |
| N2Log.OrderedLogged | vendor-n2/src/work.rs:465-514 | the inputs in the log come from builds ordered before, so the next session may begin with them |
| N2Log.OrderedLoaded | vendor-n2/src/db.rs:199-256 | what is loaded from such a log comes from builds ordered before, whatever ids its files get |
| N2Log.SameHashByName | vendor-n2/src/hash.rs:97-120 | a build has one hash in both sessions, although its discovered inputs have other ids |
| N2Log.FreshBuild | vendor-n2/src/work.rs:465-514 | a finished command that was logged and misses no file is up to date for whoever loads the log |
| N2Log.ReloadStartsFresh | vendor-n2/src/work.rs:465-514 | what a successful build logged makes the next one a null rebuild |
| N2Rebuild.BuildSession | vendor-n2/src/run.rs:46-93 | opens the log of any earlier sessions, builds the targets and appends what was run: it starts nothing when what it loads is fresh, and the bytes it leaves can be opened by the next session |
| N2Rebuild.BuildTwice | vendor-n2/src/run.rs:46-93 | over the bytes of the log and a freshly loaded graph, a second build succeeds, starts no command and changes no file, if commands write only their own outputs, the records fit the format and no file is missing |
| NixStates.EnterState | crates/nix-ninja/src/build.rs:468-505 | setting a build keeps the wanted builds ranked along their ordering edges |
| NixStates.BuildStates.Set | crates/nix-ninja/src/build.rs:417-433 | the pending count and the ready queue follow every state change, moves back to Want included |
| NixStates.BuildStates.WantBuild | crates/nix-ninja/src/build.rs:468-505 | wants a build, its ordering inputs first and then its validation inputs, on one stack; an error carries a cycle over both kinds of edge |
| NixStates.BuildStates.WantFile | crates/nix-ninja/src/build.rs:443-466 | visits one file; what was met earlier and is off the stack has been left for good |
| WantExplored.MetAgain | crates/nix-ninja/src/build.rs:443-466 | where builds make one file each, a build met again off the stack has been left |
| WantExplored.LeaveBuild | crates/nix-ninja/src/build.rs:468-505 | a build is left after everything it leads to |
| WantExplored.LeftReachesNoCycle | crates/nix-ninja/src/build.rs:468-505 | what has been left reaches no cycle of ordering and validation edges |
| GraphEdit.AddImplicitInputs | crates/nix-ninja/src/dyndep.rs:312-321 | the edit adds one implicit input at the end of the implicit run and leaves every other input its kind |
| GraphEdit.AddImplicitWellFormed | crates/nix-ninja/src/dyndep.rs:312-321 | the edit keeps producer and dependents links in agreement |
| GraphEdit.EditedDeps | crates/nix-ninja/src/build.rs:712-724 | after a run of edits the build is ordered after the producers of the new files too, and no other build changed |
| GraphEdit.SearchDone | crates/nix-ninja/src/task.rs:590-614 | a search that has run out of work has seen exactly what can be reached |
| GraphEdit.ProducerCycle | crates/nix-ninja/src/task.rs:590-614 | the guard finds a cycle if and only if one of the producers already reaches the consumer |
| GraphEdit.InputClosure | crates/nix-ninja/src/build.rs:346-365 | lists, once each, exactly the ordering inputs of everything that can be reached |
| NixProgress.ProgressedDone | crates/nix-ninja/src/build.rs:570-591 | a finished build makes stale exactly the waiting builds ordered after it |
| NixProgress.Resort | crates/nix-ninja/src/build.rs:702-711 | new edges that the guard let through keep the wanted builds in order: everything that reaches the consumer moves above its new producers |
| NixProgress.EditedFewerMissing | crates/nix-ninja/src/build.rs:712-724 | edits never bring an edge back, and a file that is no input yet uses up one edge that could be added |
| NixProgress.BudgetFalls | crates/nix-ninja/src/build.rs:678-759 | a deferral that adds an edge, or the last one a build may make, pays for starting everything over |
| NixProgress.RunEnded | crates/nix-ninja/src/build.rs:798-803 | with nothing ready and nothing running a wanted build is done if and only if no abandoned build is among what it is ordered after |
| NixScheduler.Scheduler.NewIds | crates/nix-ninja/src/task.rs:569-584 | the files of a deferral that are not ordering inputs yet, each once, in one order whatever order they came in |
| NixScheduler.Scheduler.WantTarget | crates/nix-ninja/src/build.rs:538-542 | where every build with validation inputs makes one file, refuses a target if and only if a cycle of ordering and validation edges can be reached; in any graph what is wanted lies on no ordering cycle |
| NixScheduler.Scheduler.StartReady | crates/nix-ninja/src/build.rs:773-791 | starts every ready build, each with everything it is ordered after done, and pays for it from the budget |
| NixScheduler.Scheduler.RecheckReady | crates/nix-ninja/src/build.rs:550-564 | true if and only if everything the build is ordered after is done |
| NixScheduler.Scheduler.ReadyDependents | crates/nix-ninja/src/build.rs:570-591 | marks a build done and readies the builds that waited for it last |
| NixScheduler.StartKeeps | crates/nix-ninja/src/build.rs:773-791 | a build that is started has its inputs done and no other invariant is lost |
| NixScheduler.RequeueKeeps | crates/nix-ninja/src/build.rs:741-757 | a build may go back from Running to Want: the pending count, the queue and the order all stand |
| NixScheduler.ReopenKeeps | crates/nix-ninja/src/build.rs:712-724 | changing the inputs of the build that came back leaves every other build as it was |
| NixScheduler.Reranking | crates/nix-ninja/src/build.rs:702-731 | there is an order of the wanted builds after any edit the guard let through |
| NixScheduler.Scheduler.RunAgain | crates/nix-ninja/src/build.rs:684-701 | a deferral with nothing to add runs the build once more, and never defers it again |
| NixScheduler.Scheduler.HandleDeferred | crates/nix-ninja/src/build.rs:678-759 | refuses, with the graph untouched, every deferral that would order a build after itself; otherwise adds the inputs, wants their producers and puts the build back, unless from an added file a cycle of builds that were not wanted can be reached, and exactly then where those with validation inputs make one file each; the budget does not rise if a file was no input yet |
| NixScheduler.AmongIsCycle | crates/nix-ninja/src/build.rs:720-731 | a cycle of builds that were not wanted, for which a deferral is refused, is a cycle over both kinds of edge of the whole graph |
| NixScheduler.DeferralMissesCycle | crates/nix-ninja/src/build.rs:702-731 | failing input: the first of two builds defers on what the second makes, which has its output as validation input; nothing is in the way of the deferral, and the edited graph has a cycle over both kinds of edge |
| NixScheduler.Scheduler.TakeReport | crates/nix-ninja/src/build.rs:805-838 | takes one report in: a failed task is given up, one that succeeded with nothing to wait for is done, a deferral is given up if it turns back on its build or meets a cycle and only then, where the exact condition of HandleDeferred holds; nothing else is done, given up or kept from deferring |
| NixScheduler.JudgedDeferral | crates/nix-ninja/src/build.rs:817-836 | whether a deferral is refused depends on the files it adds, in whatever order; it adds none exactly when all it names are ordering inputs already |
| NixScheduler.KeptSnoc | crates/nix-ninja/src/build.rs:805-838 | over a whole log, the builds done, given up and kept from deferring are those that the reports put there |
| NixScheduler.Scheduler.Run | crates/nix-ninja/src/build.rs:761-844 | a finished run has built everything that was wanted although edges were added on the way; one that stops is blocked by exactly its failures; whatever deferrals come back, starts and reports stay within the budget and three for each idle deferral; the graph has grown by what the reports named and nothing else; when no report names a validation input, a run allowed more reports than the budget does not run out of them; every report is judged by whether its task succeeded, so a finished run has taken in no failure and no refused deferral, and the failures counted are the builds given up |
| NixScheduler.RunLogUntil | crates/nix-ninja/src/build.rs:761-844 | what was logged of a run up to any report is again the log of a run |
| NixScheduler.EndlessExactly | crates/nix-ninja/src/build.rs:761-844 | a run that is allowed ever more reports, with the logs that the run loop promises, goes on for ever if and only if its idle deferrals never stop |
| NixScheduler.IdleNamesCheck | crates/nix-ninja/src/task.rs:569-584 | an idle deferral names a validation input of the build it is about, so reports that name none end every run |
| NixScheduler.ValidationDeferralRepeats | crates/nix-ninja/src/task.rs:569-584 | a deferral on validation inputs alone leaves the ordering inputs as they were, so the same deferral is new again |
| NixScheduler.DeferralNeverSettles | crates/nix-ninja/src/build.rs:761-844 | a build that keeps deferring on its own validation input is started again after every report, any number of times |
| NixScheduler.ValidatorCycle | crates/nix-ninja/src/build.rs:468-505 | a validation that is built from what it validates: no ordering cycle, but a cycle over both kinds of edge |
| NixScheduler.ValidatorIsRefused | crates/nix-ninja/src/build.rs:468-505 | nix-ninja refuses that graph with a cycle over both kinds of edge; n2 accepts it |
| GraphStore.DistinctCounts | vendor-n2/src/graph.rs:102-120 | the distinct outputs and the repeats add up |
| GraphStore.RemoveDuplicates | vendor-n2/src/graph.rs:102-120 | keeps the first occurrence of each output in order; the explicit count comes out right if and only if no explicit output past position Distinct repeats an earlier one |
| GraphStore.CountMissesARepeat | vendor-n2/src/graph.rs:102-120 | for the explicit outputs 1 1 1 the condition fails: one is distinct, and the repeat at position 2 is not counted off |
| GraphStore.Store.IdFromCanonical | vendor-n2/src/graph.rs:356-371 | a name has one id and an id one name; a new name gets the next id |
| GraphStore.LinkedWellFormed | vendor-n2/src/graph.rs:314-346 | linking an edge to its inputs and outputs keeps producers and dependents in agreement |
| GraphStore.Store.AddBuild | vendor-n2/src/graph.rs:314-346 | refused if and only if an output has a producer already; otherwise the edge is linked both ways, every other link stands, and its explicit count is that of its distinct outputs exactly when no late explicit output repeats one |
| CanonSpec.WalkShaped | vendor-n2/src/canon.rs:61-136 | what the walk keeps are parent steps first, then plain names |
| CanonSpec.WalkText | vendor-n2/src/canon.rs:61-136 | walking what a walk wrote gives back what was written |
| CanonSpec.CanonIdempotent | vendor-n2/src/canon.rs:61-136 | canonicalizing a second time changes nothing |
| CanonSpec.CanonLeadsThere | vendor-n2/src/canon.rs:61-136 | the canonical path leads to the same place from every working directory, with `..` popping a stack of entries |
| CanonSpec.CanonLeadingParents | vendor-n2/src/canon.rs:61-136 | in a canonical path `..` comes only as a leading run, and the other entries are plain names |
| CanonSpec.CanonShorter | vendor-n2/src/canon.rs:61-136 | a canonical path is not empty and no longer than the path it came from |
| Canon.StackStack.Push | vendor-n2/src/canon.rs:21-27 | pushes an offset; refused exactly when the stack is full |
| Canon.CopyWithin | vendor-n2/src/canon.rs:117-128 | moves a component to the left and nothing else |
| Canon.UpPops | vendor-n2/src/canon.rs:79-83 | moving the write cursor back to a remembered offset takes exactly the last name away |
| Canon.UpKept | vendor-n2/src/canon.rs:84-103 | a parent step with no name before it is written out over text that has been read already |
| Canon.NameKept | vendor-n2/src/canon.rs:113-128 | a name moved to the write cursor is what the walk keeps, and no unread text is lost |
| Canon.CanonicalizePath | vendor-n2/src/canon.rs:44-137 | in place, with every index in bounds, leaves exactly the canonical path; gives up if and only if more than 60 names have to be kept at once |
| DbFormat.LeRoundTrip | vendor-n2/src/db.rs:46-60 | a little-endian number reads back if and only if it fits its width |
| DbFormat.BytesOfRecords | vendor-n2/src/db.rs:40-152 | two records byte by byte: the lowest byte first, and the top bit of the count of outputs set |
| DbFormat.ParseEncode | vendor-n2/src/db.rs:87-152 | a record that fits is read back, whatever follows it |
| DbFormat.ParseFits | vendor-n2/src/db.rs:161-241 | whatever is read as a record fits the format and is byte for byte what the writer would have put down |
| DbFormat.ReadBackExactly | vendor-n2/src/db.rs:43-152 | a record is read back if and only if its ids are below 2^24, its name and outputs fit 15 bits, its inputs 16 and its hash 64 |
| DbFormat.LargestIdWraps | vendor-n2/src/db.rs:69-74 | the largest id that is let through is written as id 0 |
| DbLog.ParseAllEncoded | vendor-n2/src/db.rs:258-279 | a log of records that fit is read back record by record |
| DbLog.CutLog | vendor-n2/src/db.rs:258-279 | a log cut anywhere is accepted if and only if the cut is at the end of a record or one byte past it, and gives the records before the cut |
| DbLog.AppendedExactly | vendor-n2/src/db.rs:258-303 | what is appended to an accepted log is read back if and only if the log ended at the end of a record, or what is appended is nothing but copies of the stray byte |
| DbLog.StrayByteSpoils | vendor-n2/src/db.rs:258-303 | the failing input: one stray byte is accepted, and the record appended behind it makes the log unreadable |
| DbLog.StrayRunSurvives | vendor-n2/src/db.rs:258-303 | the other side of the condition: a record that is a run of the stray byte does exist |
| DbLog.ScanFindsOwner | vendor-n2/src/db.rs:199-236 | the loop over the outputs of a record finds its owner: the maker of the first output, unless the first output with another maker has a maker at all |
| DbLog.OwnerUnchanged | vendor-n2/src/db.rs:199-236 | in an unchanged graph a record counts for the build that wrote it |
| DbLog.OwnerExactly | vendor-n2/src/db.rs:199-236 | a record counts for the only maker of the outputs before the first that nothing makes; this is the only maker of all of them unless another build comes behind that output, or it comes first |
| DbLog.OwnerMistaken | vendor-n2/src/db.rs:199-236 | failing inputs: makers 0, none, 1 count for 0, and makers none, 0 for nobody |
| Db.PathWritten | vendor-n2/src/db.rs:100-124 | a name is written once, before any record that uses its id |
| Db.Writer.EnsureId | vendor-n2/src/db.rs:111-124 | gives every file one id and keeps the two id maps inverse to each other; refused exactly for a new name that is too long |
| Db.Writer.WriteBuild | vendor-n2/src/db.rs:126-152 | the log says what it said before and then this build, with its files by name |
| DbReader.Reader.ReadPath | vendor-n2/src/db.rs:190-197 | a name read from the log gets the next log id and the file id the graph knows it by |
| DbReader.Reader.ReadBuild | vendor-n2/src/db.rs:199-256 | reads exactly one record and attaches it to its owner |
| DbReader.Reader.ReadFile | vendor-n2/src/db.rs:271-295 | reads every log of whole records with earlier references to its end, and then each build is known by the last record that counts for it |
| DbReader.Open | vendor-n2/src/db.rs:297-322 | opens the log of any earlier sessions: the writer goes on where they stopped and the replay is complete |
| DbReader.Session | vendor-n2/src/db.rs:87-322 | a session leaves a log that holds what it held and then the builds of the session, with inputs that nobody knew of before, ready for the next one |
| DbReader.LastLogged | vendor-n2/src/db.rs:199-256 | in an unchanged graph the replay gives every build what it was last logged with, and knows of no other build |
| FanOut.ActFair | crates/nix-builder-rpc-client/src/lib.rs:1201-1234 | every atomic action of every worker keeps the indices handed out a prefix, each with its result stored or with one worker |
| FanOut.ActFalls | crates/nix-builder-rpc-client/src/lib.rs:1201-1234 | every action brings the end nearer, so every interleaving ends |
| FanOut.EverySchedule | crates/nix-builder-rpc-client/src/lib.rs:1201-1234 | under every schedule, once all workers have left the answer is what a loop from 0 would have returned, the lowest error included |
| FanOut.BusyAtMost | crates/nix-builder-rpc-client/src/lib.rs:1201-1234 | at most the given width is evaluated at once, no index twice |
| FanOut.ForEachBounded | crates/nix-builder-rpc-client/src/lib.rs:1201-1234 | returns what a plain loop returns, and what each index came to that was handed out |
| RealiseRequest.Merge | crates/nix-builder-rpc-client/src/lib.rs:2142-2178 | one entry for each derivation, asking for what was asked and nothing else |
| RealiseRequest.Chunk | crates/nix-builder-rpc-client/src/lib.rs:2190-2222 | splits an output list in order and without loss into entries of at most 4096 characters, or of one output |
| RealiseRequest.SplitLong | crates/nix-builder-rpc-client/src/lib.rs:2190-2222 | splitting changes nothing about what is asked |
| RealiseRequest.LookupRight | crates/nix-builder-rpc-client/src/lib.rs:2514-2648 | with one derivation to a request, pooling the replies by output name finds the right path, whatever keys the replies carry |
| RealiseRequest.BuildPathsUncached | crates/nix-builder-rpc-client/src/lib.rs:2125-2648 | merges, splits, asks, pools and looks up, for any request; one for a single derivation answers as asking for each path would |
| RealiseRequest.RequestAnswerRight | crates/nix-builder-rpc-client/src/lib.rs:2125-2648 | what comes of a request for one derivation is what asking for each path would give, whatever keys the replies carry |
| RealiseRequest.SharedNameIsWrong | crates/nix-builder-rpc-client/src/lib.rs:2514-2648 | with two derivations that share an output name one answer is wrong, whatever was pooled |
| RealiseRequest.SharedRequestIsWrong | crates/nix-builder-rpc-client/src/lib.rs:2125-2648 | failing input: a request for one output name of two derivations is answered wrongly, whatever the daemon replies |
| Realise.DisplayRoundTrip | crates/nix-builder-rpc-client/src/lib.rs:1979-1982 | a path is known by how it is written, so cache keys never collide |
| Realise.SplitByDerivation | crates/nix-builder-rpc-client/src/lib.rs:1296-1315 | a partition into groups that each name one derivation |
| Realise.GroupsApart | crates/nix-builder-rpc-client/src/lib.rs:1296-1315 | no position is in two groups |
| RealiseClient.ReorderMisses | crates/nix-builder-rpc-client/src/lib.rs:1187-1192 | the slots in range, each once, in ascending order |
| RealiseClient.MergeHitsAndMisses | crates/nix-builder-rpc-client/src/lib.rs:1328-1347 | every slot is filled, with the path that was asked for there |
| RealiseClient.Scatter | crates/nix-builder-rpc-client/src/lib.rs:2096-2112 | the group answers put back slot by slot |
| RealiseClient.Client.Confirm | crates/nix-builder-rpc-client/src/lib.rs:2008-2046 | exactly the hits that were never confirmed and are gone become misses, the others are marked unless another thread has replaced them, and the cache stays truthful under interference |
| RealiseClient.Client.LookUp | crates/nix-builder-rpc-client/src/lib.rs:1972-2046 | everything that is not cached, or was never confirmed and is gone, has to be asked for; with no other thread about, every hit that stands is marked in the cache |
| RealiseClient.Client.Remember | crates/nix-builder-rpc-client/src/lib.rs:2113-2121 | what was made is in the cache, marked as there, and no other mark is lost |
| RealiseClient.GroupAnswerRight | crates/nix-builder-rpc-client/src/lib.rs:2081-2094 | each group of misses names one derivation, so the request made for it answers as asking for each of its paths would |
| RealiseClient.NoteEach | crates/nix-builder-rpc-client/src/lib.rs:2078-2094 | the derivations of every group that was asked for and failed are noted, and only broken ones |
| RealiseClient.Client.BuildPaths | crates/nix-builder-rpc-client/src/lib.rs:1948-2123 | slot i is the realisation of path i for every truthful cache, every set of vanished hits, every pattern of repeats, any number of groups asked for at once, any truthful replies and any interference; what had to be asked for is in the cache afterwards, and everything is if no other thread wrote |
| RealiseClient.AnsweredExactly | crates/nix-builder-rpc-client/src/lib.rs:1948-2123 | the answer is the one that asking for each path in turn would give, its error included |
| IncludeSpec.ResolveExactly | crates/deps-infer/src/c_include_parser.rs:239-245 | a use resolves from the directory of the file that has it, whatever the include directories hold; failing that, from the first of them that has the value |
| IncludeSpec.HitExactly | crates/deps-infer/src/c_include_parser.rs:223-257 | what uses lead to, told by the directories alone |
| IncludeSpec.AliasExactly | crates/deps-infer/src/c_include_parser.rs:246-252 | a spelling joins the value to the directory it was found from |
| IncludeWalk.VisitKeeps | crates/deps-infer/src/c_include_parser.rs:169-205 | a path that is led to is listed and queued once |
| IncludeWalk.GatheredMore | crates/deps-infer/src/c_include_parser.rs:186-221 | defines, uses and hopeless directives are those of the files scanned so far |
| IncludeWalk.TryEachKeeps | crates/deps-infer/src/c_include_parser.rs:223-257 | every use is tried with every value of its macro, in whatever order they were seen |
| IncludeWalk.AfterTracks | crates/deps-infer/src/c_include_parser.rs:159-258 | after any number of rounds, what has been visited and gathered is what the files scanned so far lead to and say |
| IncludeClosure.BfsParseIncludes | crates/deps-infer/src/c_include_parser.rs:136-277 | lists exactly the roots, what scanned files include, what uses resolve to with any value seen anywhere, and the spellings of those; incomplete if and only if a use has no value or a directive is hopeless |
| IncludeClosure.BesideAfter | crates/deps-infer/src/c_include_parser.rs:159-258 | as long as no file is spelled before it is visited, the walk is where a walk that lists no spellings is |
| IncludeClosure.LeastClosure | crates/deps-infer/src/c_include_parser.rs:136-277 | the files scanned are among those of every closed set; they are closed if and only if, in the walk that lists no spellings, no path is spelled before it is visited |
| IncludeClosure.AliasesApart | crates/deps-infer/src/c_include_parser.rs:136-277 | the files scanned are the least closed set when none of its spellings is a path that its files lead to |
| IncludeClosure.AliasHidesAnInclude | crates/deps-infer/src/c_include_parser.rs:246-256 | a tree on which the walk always ends without a file that every closed set holds: it is included by a path that was listed as a spelling first |
| EvalStrings.EvaluateInner | vendor-n2/src/eval.rs:35-49 | appends the expansion; terminates on every list of scopes, with names that refer to themselves included |
| EvalStrings.CalcEvaluatedLength | vendor-n2/src/eval.rs:51-66 | the length computed ahead is the length of what evaluation gives |
| EvalStrings.ExpandUnbound | vendor-n2/src/eval.rs:35-49 | without scopes the text is the plain text, and references give nothing |
| EvalStrings.ExpandSubstitutes | vendor-n2/src/eval.rs:35-49 | the innermost scope replaces the references it binds, and what it puts in is expanded in the scopes outside |
| EvalStrings.ExpandFills | vendor-n2/src/eval.rs:35-49 | in scopes of plain text the innermost binding of each name is filled in, and nothing for a name that none binds |
| EvalStrings.ChainCollapses | vendor-n2/src/load.rs:115-120 | below any scopes a chain of evaluated scopes is worth one scope in which inner bindings win |
| NinjaText.Scanner.Read | vendor-n2/src/scanner.rs:67-87 | moves one character on and counts lines |
| NinjaText.Scanner.Back | vendor-n2/src/scanner.rs:54-65 | moves back, over a carriage return too when it goes back over a newline, and keeps the line count right |
| NinjaText.ReadEscape | vendor-n2/src/parse.rs:378-406 | reads what follows a `$`: continuation, escaped character, braced or simple name |
| NinjaText.ReadEval | vendor-n2/src/parse.rs:299-360 | reads a string to its end; on success the scanner is in the buffer, on what stopped it, with the line one more than the newlines passed |
| NinjaText.BracedIsReference | vendor-n2/src/parse.rs:389-399 | a name in braces behind a dollar is a reference to it, whatever follows |
| NinjaText.NameIsReference | vendor-n2/src/parse.rs:400-405 | the longest run of name characters behind a dollar is a reference to it |
| NinjaText.ContinuationIsNothing | vendor-n2/src/parse.rs:381-384 | a dollar at the end of a line drops the newline and the blanks that begin the next |
| NinjaText.PlainValue | vendor-n2/src/parse.rs:329-349 | in a value, blanks, colons and bars are text up to the end of the line |
| NinjaText.EscapeRoundTrip | vendor-n2/src/parse.rs:299-406 | a non-empty name without newline, NUL, carriage return or bar, escaped, reads back as itself under any scopes |
| ShellQuoting.ShellEscapeInto | vendor-n2/src/load.rs:65-79 | appends the quoted form of a path |
| ShellQuoting.FileList | vendor-n2/src/load.rs:33-46 | the quoted names with a separator between |
| ShellQuoting.ShellUndoesQuoting | vendor-n2/src/load.rs:33-79 | a shell splits the list back into its names, those that are empty aside |
| ShellQuoting.ShellReadsNames | vendor-n2/src/load.rs:33-79 | the list comes back unchanged if and only if no name is empty |
| NestedRoots.SplitExactly | crates/nix-ninja-task/src/main.rs:1328-1333 | a text is cut at the first place the pattern is found, again and again: joined by the pattern the pieces are the text, and no occurrence begins in a piece |
| NestedRoots.ReplaceJoins | crates/nix-ninja-task/src/main.rs:1328-1333 | replacing is splitting and joining again |
| NestedRoots.RewriteIsSplit | crates/nix-ninja-task/src/main.rs:1328-1333 | the three replacements equal cutting the text at the binary directory, rewriting the source directory inside the pieces, and joining with the new binary directory |
| NestedRoots.TwoReplacesExactly | crates/nix-ninja-task/src/main.rs:1302-1314 | for any text, two replacements in a row come out right if the second finds the source directory only inside the pieces, or it stays as it is, and only then if the source directory cannot overlap itself or the text is the binary directory |
| NestedRoots.WholeFoundApart | crates/nix-ninja-task/src/main.rs:1302-1314 | in the binary directory itself the second replacement finds nothing it should not if and only if the new one does not hold the source directory |
| NestedRoots.TwoReplacesCorrupt | crates/nix-ninja-task/src/main.rs:1302-1314 | failing input: /s/b moved to /n/s/b, with source directory /s, comes out wrong wherever /s is moved to |

## Left out

- NixScheduler.Scheduler.WantTarget: the exact condition is for graphs in which every build with validation inputs makes one file; in others a refusal still means a cycle over both kinds of edge and an acceptance still means no ordering cycle, but which cycles are met depends on the output through which a build is entered.
- NixScheduler.Scheduler.HandleDeferred: which deferrals are refused is exact where no build with validation inputs that the walk may enter makes two files; elsewhere a refusal still means that the consumer or a cycle of builds not wanted before can be reached from an added file.
- NixStates.BuildStates.Enter: the progress denominator is kept as the code keeps it, which counts a build with several outputs again when a validation edge led to it before; no theorem is about it.
- N2Rebuild.BuildSession: the log is written after the run, where the code writes each record as its command finishes; for a run that succeeds the bytes are the same.
- N2Work.Work.Run: an error leaves the history in order but says nothing more about the state; the program exits on it.
- GraphStore.Store.AddBuild: a refused edge leaves half of its links behind, as in the code; loading stops there, so nothing is stated about that store.
- IncludeClosure.BfsParseIncludes: the files of a batch are taken in order, where the code scans them in parallel and then takes them in order; a batch with several unreadable files reports the first.
- RealiseRequest.BuildPathsUncached: the error says that a build failed, not with which messages; transient failures, retries and the watchdog are not modelled.
- NestedRoots.TwoReplacesExactly: that the two replacements go wrong whenever the second finds something outside the pieces is for source directories that cannot overlap themselves, or for the text that is the binary directory itself.
- NinjaText.ReadEval: the readers of whole statements around it are left out, among them the one that reads on after a value that ended in an error at the end of the file; carriage-return mode is left out.
- Reading, statting and writing files can fail in the original; here only what the code decides on, a missing file, is modelled. Directories and response files are not created.
- Processes, signals, terminals, progress display and tracing: a command is an outcome.
- The hash function: any function of the manifest's tokens. That different manifests get different hashes is not assumed, and how tokens become bytes is not modelled: there a name that begins with the separator byte makes the end of a list ambiguous.
- File ids stand for canonical names in the schedulers; GraphStore and Canon are where names are made unique.
- nix-ninja's local edges, dyndep files and their two-phase run, store uploads and the errors of starting and waiting for tasks.
- The daemon protocol, connection pool and archive streaming.
- Scanning C files for directives: a scan is a parameter of the walk.
- Discovery caches, statistics, command lines, dense and small maps, and the other helpers that would add easy members only.
