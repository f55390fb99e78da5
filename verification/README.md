# pynixd, verified

A Dafny model of the `pynixd` daemon of the nixidae repository, with proofs about its hardest state and
arithmetic: the shared build queue and the delegation of builds between instances, the garbage collector's
plans and its delete loop, the NAR codec and the streaming NAR forwarder, the tree editor over archives, the
closure search, the placement of builds and their retries, the build limit, the two halves of the daemon
handshake, derived paths, and the activity log of a build.

Code that changes things step by step is a class or a method with a loop, proved against a specification
function; the laws are lemmas about that function, over every input or every run. Code made of expressions
is functions and lemmas.

`dafny verify dfyconfig.toml` checks the whole project.

## Files

| file | what it holds |
|---|---|
| `NarFormat.dfy`, `NarReader.dfy`, `NarCodec.dfy` | the archive format, the reader, and the writer and parser as loops over a buffer |
| `NarForwarder.dfy`, `NarForwardExact.dfy` | the chunked forwarder, and for which trees it finds the end of the archive |
| `NarTree.dfy` | paths into an archive tree and the edits of `NarPath` |
| `Closure.dfy`, `GcPlan.dfy`, `GcDelete.dfy` | the closure search, what a collection pass may drop, and the delete loop |
| `QueueModel.dfy`, `QueueRuns.dfy`, `Answers.dfy`, `BuildQueue.dfy` | the build queue as a value, its laws over every run, and the classes that implement it |
| `Delegation.dfy`, `DelegationQueue.dfy` | any number of instances that delegate builds to each other, and the queue of one of them behind that machine |
| `Retries.dfy`, `Allocator.dfy`, `Placement.dfy`, `Scheduling.dfy` | failure counts, scores, filters, the stable sort, the memory fit and the choice, and how the scheduler strings them together |
| `BuildLimit.dfy`, `BuildLimitExact.dfy` | the build limit of a store under pressure, and for which settings it works |
| `Features.dfy`, `Handshake.dfy` | feature names, and both halves of the handshake over two FIFO channels |
| `DerivedPath.dfy` | printing, parsing and nested builds |
| `Activity.dfy` | the start, stop and result messages of a build |
| `Optional.dfy` | a value that may be missing |

## What the code does not promise

Properties one would expect and that are false of the code. Each has a concrete failing input and an exact condition.

- The forwarder counts parentheses without knowing where a name or a link target stands. A file named `)` makes it
  call an archive complete one token early, though the parser reads it (`NameBreaksForwarding`). `ExactIff` gives the
  exact condition for a tree as a walk of the count over it, and `OneSidedExactIff` as a test of names and targets.
- `cancel_unwanted` takes the lock after `nobody_wants` was asked, and does not ask again. A request that joins in
  between loses its build (`CancelRaceHappens`, a run); `CancelRaceIff` says which steps do that, and only those.
- When the closure query of the veto fails, the veto is the volatile roots alone, and a root can stay without a path it
  references (`FallbackLeavesDangling`). `FallbackSafeForPlanIff` gives the condition for one plan, `FallbackSafeIff` for
  all plans.
- A build that prefers the local store is placed there even where the ranking dropped the store for load, disk or as a
  last resort (`KeptLocalIsPlaced`). `PlacedPastFiltersIff` gives the exact condition, in terms of the pass and the call.
- The pressure settings are documented to keep the limit between 1 and the pool size (pynixd/pynixd/config.py:224-232),
  and are not validated. `RangeIff` gives the settings that do; `CutLeavesRange` and `StepLeavesRange` are inputs that
  leave the range.
- `observe` is documented to answer whether the limit rose. `AnswersIff` gives the settings for which every answer is
  right, `AnswerIsRiseIff` the samples that are answered wrong; `FallAnsweredAsRise`, `StandstillAnsweredAsRise` and
  `CutLeavesRange` are inputs for each kind.
- Each half of the handshake tests the other's version for the fields of 1.33 and 1.35. The two halves can finish if and
  only if the versions are new enough and the tests agree (`HandshakeIff`, `OldServerFails`).
- A chain of a derived path is not checked, so a wire path may change its meaning when it is printed for people
  (`WirePathChangesMeaning`); `PrintParseIff` gives the exact condition.

## Model

| member | source | states |
|---|---|---|
| `NarFormat.NodeTokensValid` | pynixd/pynixd/nar.py:96-131 | a tree is written as a list of well-formed tokens exactly when its names and targets can be encoded |
| `NarReader.ReadNodeBack` | pynixd/pynixd/nar.py:164-222 | wherever the tokens of a tree stand in the data, reading a node there gives that tree and the offset behind it |
| `NarReader.RoundTrip` | pynixd/pynixd/nar.py:134-139 | parsing the archive of any writable tree gives the tree back, also with names equal to format keywords |
| `NarReader.PrefixFree` | pynixd/pynixd/nar.py:79-139 | writing is injective and no archive is a proper prefix of another |
| `NarReader.ReparseStable` | pynixd/pynixd/nar.py:225-235 | whatever bytes are accepted, archiving the answer and parsing again changes nothing |
| `NarCodec.WriteNar` | pynixd/pynixd/nar.py:134-139 | the writer answers the archive of the tree, and fails exactly on a tree with a name or target that is not ASCII |
| `NarCodec.WriteNode` | pynixd/pynixd/nar.py:96-131 | the recursive writer appends exactly the tokens of the node, or fails exactly where it cannot encode |
| `NarCodec.Parse` | pynixd/pynixd/nar.py:225-235 | the parser loops compute the specified reading, errors and trailing bytes included |
| `NarCodec.ParseEntries` | pynixd/pynixd/nar.py:197-222 | the entry loop reads the entries the specification reads |
| `NarForwarding.NarForwarder.constructor` | pynixd/pynixd/nar.py:301-307 | a new forwarder has an empty buffer, depth zero and is not complete |
| `NarForwarding.NarForwarder.ConsumeToken` | pynixd/pynixd/nar.py:309-328 | takes one whole padded token off the buffer, or leaves it when the token is not all there |
| `NarForwarding.NarForwarder.UpdateDepth` | pynixd/pynixd/nar.py:330-348 | the counter after a token body |
| `NarForwarding.NarForwarder.Feed` | pynixd/pynixd/nar.py:350-373 | for every continuation of the stream, what was sent and the state left behind account for the stream so far |
| `NarForwarding.ForwardNar` | pynixd/pynixd/nar.py:376-393 | what is sent and whether it completes depends on the joined bytes alone, not on the chunking |
| `NarForwarding.NarSize` | pynixd/pynixd/nar.py:396-408 | the size is the length of what a forwarder sends, or an error when it does not complete |
| `NarForwarding.ForwardScan` | pynixd/pynixd/nar.py:350-373 | on a stream of tokens the forwarder sends exactly the tokens up to the one that completes the count |
| `NarForwardExact.ExactIff` | pynixd/pynixd/nar.py:330-348 | the forwarder copies a tree's archive and stops at its end, whatever follows, if and only if the count over the tree reaches zero at its last token and not before |
| `NarForwardExact.CleanIsExact` | pynixd/pynixd/nar.py:330-373 | trees without `(` or `)` as a name or target and without `contents` as a target are forwarded exactly, whatever their files hold |
| `NarForwardExact.ExactBalances` | pynixd/pynixd/nar.py:330-348 | an exact tree lowers the count as often as it raises it |
| `NarForwardExact.OneSidedExactIff` | pynixd/pynixd/nar.py:330-348 | where the count is moved in one direction only, exact means clean |
| `NarForwardExact.NameBreaksForwarding` | pynixd/pynixd/nar.py:330-373 | the archive of a directory with a file named `)` is one the parser reads; the forwarder calls it complete one token early and sends all but the last parenthesis, whatever follows |
| `NarTree.FindEntry` | pynixd/pynixd/nar.py:492-497 | finds the first entry of a name |
| `NarTree.ResolvePath` | pynixd/pynixd/nar.py:487-498 | the walk down the parts computes the resolution |
| `NarTree.ReplaceLaw` | pynixd/pynixd/nar.py:542-566 | the new node stands at the path and below, nothing beside the path changes, and directories on the way stay |
| `NarTree.ReplaceUnique` | pynixd/pynixd/nar.py:542-566 | replacing keeps names unique per directory |
| `NarTree.InsertLaw` | pynixd/pynixd/nar.py:568-577 | inserting succeeds only where nothing was, and changes the resolution of no other path |
| `NarTree.WriteBytesLaw` | pynixd/pynixd/nar.py:579-595 | a write makes its path resolve to the file and leaves every path that is not a prefix unchanged |
| `NarTree.WriteBytesSucceeds` | pynixd/pynixd/nar.py:579-595 | on trees with unique names a write succeeds exactly when the parent is a directory and the target is not, and keeps uniqueness |
| `NarTree.MkdirLaw` | pynixd/pynixd/nar.py:600-615 | every prefix becomes or stays a directory and no other path changes |
| `NarTree.MkdirSucceeds` | pynixd/pynixd/nar.py:600-615 | making a path with parents succeeds exactly when no file is on the way, and keeps uniqueness |
| `NarTree.MkdirAloneSucceeds` | pynixd/pynixd/nar.py:600-615 | without parents it succeeds exactly on a directory, or where nothing is in a directory, and keeps uniqueness |
| `NarTree.UnlinkLaw` | pynixd/pynixd/nar.py:617-629 | the path and all below it are gone and nothing else changes |
| `NarTree.UnlinkSucceeds` | pynixd/pynixd/nar.py:617-629 | unlinking succeeds exactly for an existing path that is not the root, and keeps uniqueness |
| `NarTree.UnlinkUndoesWrite` | pynixd/pynixd/nar.py:579-629 | unlinking a file just written gives the very tree back |
| `Closure.Edges` | nanopynix/tmp/fs_closure.py:76-89 | the edge functions chosen by the flags are together the step relation |
| `Closure.StepIff` | nanopynix/tmp/fs_closure.py:76-89 | the edges of a path under all flags, from the three tables |
| `Closure.Visit` | nanopynix/tmp/fs_closure.py:96-104 | what is new along any edge joins the closure and the next frontier |
| `Closure.Expand` | nanopynix/tmp/fs_closure.py:91-106 | one pass over the frontier stays inside the reachable paths and closes the paths seen |
| `Closure.ComputeFsClosure` | nanopynix/tmp/fs_closure.py:57-106 | the search ends and answers exactly the paths reachable from the start set |
| `Closure.ClosureIsLeast` | nanopynix/tmp/fs_closure.py:57-106 | the reachable paths are the least closed set that holds the start set |
| `Closure.ReachesDual` | nanopynix/tmp/fs_closure.py:76-89 | without derivers, x reaches y forwards if and only if y reaches x with the direction flipped |
| `GcPlan.DanglesIff` | pynixd/pynixd/gc.py:328-355 | dropping a set leaves nothing dangling if and only if the set is closed under referrers |
| `GcPlan.PlanDeferred` | pynixd/pynixd/gc.py:396-441 | plans only dead paths that some deferring store holds, and nothing when the closure answer is not one |
| `GcPlan.HeldIff` | pynixd/pynixd/gc.py:396-441 | a path is held if and only if some store that answered confirmed it |
| `GcPlan.DeferredIsGreatestSafe` | pynixd/pynixd/gc.py:396-441 | with exact closures, the plan is the greatest set that is held, dead and closed under referrers |
| `GcPlan.LruPlan` | pynixd/pynixd/gc.py:443-485 | plans only dead paths, and nothing when the database cannot tell the age or the referrers |
| `GcPlan.LruIsLeastSafe` | pynixd/pynixd/gc.py:443-485 | with exact closures, the plan is the least referrer-closed set that holds the stale dead paths |
| `GcPlan.VetoClosure` | pynixd/pynixd/gc.py:328-355 | the veto holds the volatile roots, whatever the daemon answers |
| `GcPlan.VetoIsClosed` | pynixd/pynixd/gc.py:328-355 | with an exact answer the veto holds all that its members reference |
| `GcPlan.PassIsSafe` | pynixd/pynixd/gc.py:328-355 | before and after the veto, what goes is dead, spares the roots and all they need, and leaves nothing dangling |
| `GcPlan.FallbackSafeForPlanIff` | pynixd/pynixd/gc.py:328-355 | with the fallback veto a pass leaves nothing dangling if and only if no planned root references a planned path that is not a root |
| `GcPlan.FallbackSafeIff` | pynixd/pynixd/gc.py:328-355 | the fallback veto keeps every plan safe if and only if the volatile roots are closed under references |
| `GcPlan.FallbackLeavesDangling` | pynixd/pynixd/gc.py:328-355 | a store of two paths, planned by the age rule, in which the fallback keeps the root and drops what it references |
| `GcDelete.RequestConserves` | pynixd/pynixd/gc.py:593-639 | whatever the daemon answers, one request moves each path of its group to exactly one place |
| `GcDelete.LapStep` | pynixd/pynixd/gc.py:590-639 | one turn keeps the ledger, the bounds and the retry list, and lowers the sum of 2·size − 1 over the queue |
| `GcDelete.Ask` | pynixd/pynixd/gc.py:594-628 | after one request and recheck, each path the request named stands in the ledger exactly where the replies put it: taken, skipped, found missing, interrupted or out of time; it remains exactly when it is still there; and whether the connection survives |
| `GcDelete.LedgerMeans` | pynixd/pynixd/gc.py:593-639 | over any requests, the ledger holds a path in each place if and only if some reply on it said so |
| `GcDelete.Split` | pynixd/pynixd/gc.py:607-613 | a refused group is halved in front of the queue; a path refused alone waits for the next lap |
| `GcDelete.RunLap` | pynixd/pynixd/gc.py:588-639 | one lap ends, with at most twice as many requests as paths, and keeps the lap invariant |
| `GcDelete.Reconcile` | pynixd/pynixd/gc.py:641-647 | all uncertain paths are rechecked in batches, and exactly those found gone count as deleted |
| `GcDelete.Delete` | pynixd/pynixd/gc.py:543-649 | every path ends deleted, spared, uncertain or pending, each told by the replies alone: deleted if and only if a request took it or a recheck missed it, spared if and only if a request passed over it, uncertain and timed out likewise, pending if and only if every reply on it said that it stays; the places are disjoint, but deleted and uncertain share exactly what the last rechecks found gone; no settled path is asked for again; at most 4n requests, none over 100 paths, none names a path alone more than twice |
| `QueueModel.OneUnfinishedPerKey` | pynixd/pynixd/build_queue.py:476-485 | at most one unfinished build of a derivation and mode |
| `QueueRuns.StepKeeps` | pynixd/pynixd/build_queue.py:583-983 | every operation keeps list, indices and holder relation consistent |
| `QueueRuns.RunKeeps` | pynixd/pynixd/build_queue.py:583-983 | every run from the empty queue keeps them |
| `QueueRuns.PruneKeeps` | pynixd/pynixd/build_queue.py:956-983 | pruning removes a finished build that nobody holds or streams, and no other |
| `QueueRuns.AnswersNeverChange` | pynixd/pynixd/build_queue.py:780-954 | over any run an answer is set once and stays, a build keeps its key, and ids are not reused |
| `QueueRuns.HowBuildsEnd` | pynixd/pynixd/build_queue.py:742-954 | an unfinished build leaves the queue never and ends only by completing, by a cancel for it, or when its last holder lets go |
| `QueueRuns.SharedWorkIsSafe` | pynixd/pynixd/build_queue.py:850-954 | in a run whose cancels are guarded, a build that ends without completing is wanted by no standalone asker and each holder has given up or lets go in that step |
| `QueueRuns.CancelRaceIff` | pynixd/pynixd/scheduler.py:613-616 | a step between the check and the cancel leaves the build unfinished and wanted if and only if it is an enqueue that joins it for somebody alive |
| `QueueRuns.NoJoinNoRace` | pynixd/pynixd/scheduler.py:613-616 | over any run without such a step the build stays unwanted until the cancel |
| `QueueRuns.CancelRaceHappens` | pynixd/pynixd/build_queue.py:895-923 | a run in which nobody wants a build, a request joins it, and the cancel takes it from that request |
| `QueueRuns.EnqueueLaw` | pynixd/pynixd/build_queue.py:583-683 | an accepted enqueue answers the one unfinished build of its key, an old one when there was one, and changes no other build |
| `QueueRuns.NewBuildLaw` | pynixd/pynixd/build_queue.py:647-710 | a build that is new waits, is wanted by its asker alone, and stands last in the list and in the index |
| `QueueRuns.JoinedBuildLaw` | pynixd/pynixd/build_queue.py:623-646 | a build that is joined stays as it is, but for who wants it |
| `QueueRuns.EnqueueNotesAsker` | pynixd/pynixd/build_queue.py:647-710 | the holders, requests and standalone askers of that build are those it had and the asker, and nobody else |
| `QueueRuns.EnqueueNotesOptions` | pynixd/pynixd/build_queue.py:620-710 | a goal's hold and its options are noted, and nobody else's change |
| `QueueRuns.RefusedIff` | pynixd/pynixd/build_queue.py:605-646 | an enqueue is refused if and only if it comes from a goal without a request, or is delegated and the newest build of its key runs on a remote store |
| `QueueRuns.DelegatedJoinsNoRemote` | pynixd/pynixd/build_queue.py:614-646 | a delegated enqueue that is accepted answers a build that does not run on a remote store |
| `QueueRuns.CompleteAnswers` | pynixd/pynixd/build_queue.py:780-848 | completing an unfinished build answers it with the response given, and changes no other build |
| `QueueRuns.AnswersComeFromEnds` | pynixd/pynixd/build_queue.py:780-954 | over any run, the answer of a build that was unfinished is the response of the step that ended it, or the one a cancel sets |
| `QueueRuns.TouchLaw` | pynixd/pynixd/scheduler.py:741 | what a worker or a subscriber changes of a build, and that it changes no other |
| `QueueRuns.ReleaseLaw` | pynixd/pynixd/build_queue.py:712-754 | what a release leaves of each build |
| `QueueRuns.GivesUpIff` | pynixd/pynixd/build_queue.py:850-874 | a request is newly given up exactly when a build it holds fails and it does not keep going |
| `QueueRuns.ReleaseEndsIff` | pynixd/pynixd/build_queue.py:738-753 | a release ends exactly the unfinished builds that nobody but the request wanted |
| `QueueRuns.EndedBuildStops` | pynixd/pynixd/build_queue.py:925-954 | a build that ends without completing fails, and a running worker is told to stop |
| `QueueRuns.ReleaseForgets` | pynixd/pynixd/build_queue.py:712-754 | after a release no field mentions the request as holder, as given up or with options |
| `QueueRuns.StaysForgotten` | pynixd/pynixd/build_queue.py:712-754 | a released request stays forgotten until it asks again, and a second release changes nothing |
| `QueueRuns.RunLeavesNoOrphans` | pynixd/pynixd/build_queue.py:647-754 | when goal requests enqueue as such, no run leaves an unfinished build that nobody asked for |
| `Answers.Answer.constructor` | pynixd/pynixd/answer.py:19-22 | a new answer is not set |
| `Answers.Answer.Set` | pynixd/pynixd/answer.py:27-31 | sets the value once; a second call fails and changes nothing a waiter reads |
| `Answers.Answer.SetException` | pynixd/pynixd/answer.py:33-37 | sets the error once, likewise |
| `Answers.Answer.Result` | pynixd/pynixd/answer.py:39-45 | gives the value or raises the error, and neither before one is set |
| `BuildQueues.QueuedBuild.IsBlacklisted` | pynixd/pynixd/build_queue.py:222-224 | a store is blacklisted for a build after three failures there |
| `BuildQueues.QueuedBuild.ResetForRetry` | pynixd/pynixd/build_queue.py:226-239 | counts the failure against its store and leaves the build waiting |
| `BuildQueues.QueuedBuild.Cancel` | pynixd/pynixd/build_queue.py:925-954 | cancels the worker and sets an answer that is not set |
| `BuildQueues.QueuedBuild.LetGoOf` | pynixd/pynixd/build_queue.py:738-753 | drops the request; an unfinished build nobody wants ends |
| `BuildQueues.BuildQueue.constructor` | pynixd/pynixd/build_queue.py:491-514 | the empty queue |
| `BuildQueues.BuildQueue.Enqueue` | pynixd/pynixd/build_queue.py:583-683 | joins the unfinished build of the key or queues a new one, refuses a goal without a request and a delegation that came back; the whole new state, and the invariant |
| `BuildQueues.BuildQueue.HoldLocked` | pynixd/pynixd/build_queue.py:708-710 | notes the hold on the request's side |
| `BuildQueues.BuildQueue.Complete` | pynixd/pynixd/build_queue.py:780-848 | an unfinished build reads the response given, one that is done reads what it read before, and an unknown build is an error; notes who gives up; the whole new state, and the invariant |
| `BuildQueues.BuildQueue.NoteGivingUp` | pynixd/pynixd/build_queue.py:850-874 | a failure ends each holder that does not keep going |
| `BuildQueues.BuildQueue.NobodyWants` | pynixd/pynixd/build_queue.py:876-893 | every holder gave up, there is one, and no standalone asker wants the build |
| `BuildQueues.BuildQueue.CancelUnwanted` | pynixd/pynixd/build_queue.py:895-923 | ends a build by its id unless it is done or gone, and keeps the invariant |
| `BuildQueues.BuildQueue.ReleaseRequest` | pynixd/pynixd/build_queue.py:712-754 | lets go of every build the request holds and forgets it |
| `BuildQueues.BuildQueue.TouchBuild` | pynixd/pynixd/scheduler.py:741 | a worker starts or ends, a client subscribes or leaves, and the invariant holds |
| `BuildQueues.BuildQueue.Prune` | pynixd/pynixd/build_queue.py:956-983 | drops the doomed builds from the list and both indices |
| `Delegation.StepKeeps` | pynixd/pynixd/build_queue.py:614-646 | each step of any instance, late deliveries of old attempts included, keeps the chains of waits finite |
| `Delegation.NoRunDeadlocks` | pynixd/pynixd/build_queue.py:614-646 | in every run of any number of instances every chain of waits comes to an end |
| `Delegation.InstancesNeverCircle` | pynixd/pynixd/exceptions.py:89-99 | the relation "waits on, for this derivation and mode" between instances has no circle in any run |
| `Delegation.JoinsStay` | pynixd/pynixd/build_queue.py:207-239 | the join accepted for an attempt is never replaced, so no live wait is lost from the relation |
| `Delegation.WithoutTheGuard` | pynixd/pynixd/build_queue.py:614-646 | without the refusal two instances that ask each other wait for ever |
| `DelegationQueue.RefusalsAgree` | pynixd/pynixd/build_queue.py:614-646 | where a queue matches what the machine knows of its instance, it refuses a delegated request if and only if the guard of the machine does |
| `DelegationQueue.EnqueueMatches` | pynixd/pynixd/build_queue.py:583-683 | queue and machine match again after a request of a client |
| `DelegationQueue.AcceptMatches` | pynixd/pynixd/build_queue.py:614-683 | they match again after a delegated request, and the machine notes the wait for the very build the queue answers |
| `DelegationQueue.CompleteMatches` | pynixd/pynixd/build_queue.py:780-848 | they match again after a build completes |
| `DelegationQueue.CancelMatches` | pynixd/pynixd/build_queue.py:895-954 | and after one is cancelled |
| `DelegationQueue.StartMatches` | pynixd/pynixd/scheduler.py:741 | and after a worker starts, on another instance or not |
| `DelegationQueue.EndMatches` | pynixd/pynixd/build_queue.py:226-239 | and after a worker ends |
| `Retries.RetriesAreCounted` | pynixd/pynixd/build_queue.py:226-239 | retries are the sum of the failures per store, whatever failed and why |
| `Retries.TriesBounded` | pynixd/pynixd/build_queue.py:222-224 | no store is tried more than three times, stores that go away or not |
| `Retries.RetriesAreBounded` | pynixd/pynixd/scheduler.py:339-349 | at most three attempts for each store, and after that many every store is blacklisted, with failures counted for removed stores in between |
| `Retries.ExhaustedIff` | pynixd/pynixd/build_queue.py:222-239 | without removals no store has more than three failures, and 3n are reached exactly when all n stores are blacklisted |
| `Allocator.MoreLoadNeverHelps` | pynixd/pynixd/allocator.py:59-140 | more builds never raise a store's score or let it pass, the cost of the build decides nothing about passing, and a store that is not monitored passes |
| `Allocator.PressureNeverHelps` | pynixd/pynixd/allocator.py:73-138 | a busier CPU and more pressure never raise a store's score |
| `Allocator.CostComesOff` | pynixd/pynixd/allocator.py:104-138 | the expected time where it counts and is known, or else the transfer, comes off the final score at its price, times the priority, and leaves the load and the passing alone |
| `Allocator.CostNeverHelps` | pynixd/pynixd/allocator.py:104-138 | a longer transfer or expected time never raises the score |
| `Allocator.PenaltyComesOff` | pynixd/pynixd/allocator.py:59-140 | a point of a store's penalty costs a point, times the priority |
| `Allocator.UnmonitoredComesOff` | pynixd/pynixd/allocator.py:73-100 | the penalty for no figures falls on a store that reports none, and on no other |
| `Allocator.OneMoreRunning` | pynixd/pynixd/allocator.py:59-140 | a running build costs a core's share of the CPU's weight, or the flat penalty |
| `Allocator.OneMorePlaced` | pynixd/pynixd/allocator.py:59-140 | a build placed in this pass costs its points in the load, and in the order the share of them the new build feels |
| `Allocator.CpuComesOff` | pynixd/pynixd/allocator.py:73-100 | what each per cent of a busy CPU costs |
| `Allocator.PressureComesOff` | pynixd/pynixd/allocator.py:73-100 | what each per cent of CPU and I/O pressure costs |
| `Allocator.IdleStore` | pynixd/pynixd/allocator.py:59-140 | a store at rest and without builds starts from the CPU's weight where its load is reported, from nothing where pressure alone is, and from the penalty for no figures where none is |
| `Allocator.ScaleEnds` | pynixd/pynixd/allocator.py:104-138 | a build as long as the reference, or of unknown length, feels the whole load; one of no length feels nothing of the CPU and the herd |
| `Allocator.SortedIsStable` | pynixd/pynixd/allocator.py:178-180 | the sort is a permutation, descending, and equal keys keep their order |
| `Placement.RankByScore` | pynixd/pynixd/allocator.py:272-301 | keeps exactly the stores whose load is high enough or that report no figures, the final scores never rising, and excludes the others for their score |
| `Placement.Qualify` | pynixd/pynixd/allocator.py:446-464 | keeps the capable stores, without the last resorts when another can, and names the reason for each other |
| `Placement.FiltersCompose` | pynixd/pynixd/allocator.py:450-473 | the filters one after the other keep the stores that fail none |
| `Placement.RankStores` | pynixd/pynixd/allocator.py:439-482 | ranked are exactly the stores that qualify by their own figures, the final scores never rising; every store is ranked or excluded exactly once, and an excluded one carries the first filter it fails |
| `Placement.RankedIff` | pynixd/pynixd/allocator.py:386-482 | a store is ranked if and only if it is healthy, not draining, open to builds, able to build, not blacklisted, not short of disk, not under the score, and a last resort only when there is no first choice |
| `Placement.ReasonIsTrue` | pynixd/pynixd/allocator.py:386-482 | the reason a store is excluded for is true of it |
| `Placement.CheaperFirst` | pynixd/pynixd/allocator.py:104-180 | of two ranked stores alike in all else, the one where the build takes less time, or needs the shorter transfer, stands first |
| `Placement.LessBusyFirst` | pynixd/pynixd/allocator.py:59-180 | of two ranked stores alike in all else, the one that runs fewer builds stands first |
| `Placement.RankingLaws` | pynixd/pynixd/allocator.py:439-482 | ranked are exactly the stores that fail no filter, scores never rise, and the local store is last among its equals or first |
| `Placement.LastResortIsLast` | pynixd/pynixd/allocator.py:456-464 | a last resort is ranked only when no other store is capable |
| `Placement.FitKeeps` | pynixd/pynixd/allocator.py:351-373 | the memory fit never empties a list and drops only stores without room |
| `Placement.FitsIff` | pynixd/pynixd/allocator.py:340-373 | a build fits exactly where no memory is reported or its peak is free beside what is reserved |
| `Placement.MoreReservedNeverFits` | pynixd/pynixd/allocator.py:340-373 | more reserved memory or a higher peak never makes a build fit |
| `Placement.KeptHasRoom` | pynixd/pynixd/allocator.py:351-373 | unless none fits, every store kept has the peak free beside what is reserved on it |
| `Placement.ShortOnlyWhenNoneFits` | pynixd/pynixd/allocator.py:363-379 | a store without room is kept only when none fits; then all are, the most room first |
| `Placement.PickIsBest` | pynixd/pynixd/allocator.py:202-204 | without a preference the choice is the best usable store, and none only when none is usable |
| `Placement.PickIsUsable` | pynixd/pynixd/allocator.py:202-214 | any choice is a ranked store, and the local one only when it has a slot |
| `Placement.PreferLocalPicksLocal` | pynixd/pynixd/allocator.py:205-207 | with a preference, a usable local store is the choice |
| `Placement.PreferLocalWaitsIff` | pynixd/pynixd/allocator.py:205-214 | with a preference and no local slot, the best remote store gets the build exactly when the wait is known to cost more than the transfer |
| `Placement.PickedPassedEveryFilter` | pynixd/pynixd/allocator.py:183-214 | a store picked from the memory fit of the ranking failed no filter and has a slot |
| `Scheduling.ExploredIsCandidate` | pynixd/pynixd/allocator.py:217-235 | an explored store is another candidate, and the local one only when it has a slot |
| `Scheduling.ExploresIff` | pynixd/pynixd/allocator.py:217-235 | the choice without a preference differs from the best store if and only if the draw says so and there is another candidate with a slot on which the build has not failed; then it is such a one |
| `Scheduling.AnyOtherIsExplored` | pynixd/pynixd/allocator.py:217-235 | every such candidate is explored by some draw |
| `Scheduling.PlacedIsCandidate` | pynixd/pynixd/scheduler.py:664-745 | a placed build goes to a candidate with room and a slot |
| `Scheduling.PlacedNowhereIff` | pynixd/pynixd/scheduler.py:619-745 | a build without a preference is placed nowhere if and only if the client's wish is an error, or no store that qualifies has room, a slot, the memory where any has it, and is not barred |
| `Scheduling.PlacedPastFiltersIff` | pynixd/pynixd/scheduler.py:619-745 | a build is placed on a store that failed a filter if and only if the preference keeps the local store, the build is not refused, and the store has a slot, room under its limit, and the memory, or no candidate with room has it; then it is the local store |
| `Scheduling.PlacedLaws` | pynixd/pynixd/scheduler.py:631-745 | a placed store is always healthy, not draining, able to build and not blacklisted; a barred local store is never chosen, and a build for here only goes nowhere else |
| `Scheduling.KeptLocalIsPlaced` | pynixd/pynixd/scheduler.py:655-661 | a preferred local store short of disk gets the build although the ranking dropped it |
| `Scheduling.FailedStoresComeLast` | pynixd/pynixd/scheduler.py:662-669 | a build without a preference goes to a store it failed on only when it failed on every usable candidate whose memory fits |
| `Scheduling.RetriesEnd` | pynixd/pynixd/allocator.py:386-398 | over n stores a build is tried at most 3n times, however the scheduler places it; then no store is capable, nothing is ranked, and it is placed nowhere |
| `BuildLimits.InitialLimit` | pynixd/pynixd/pressure.py:97-101 | the first limit is between 1 and the ceiling |
| `BuildLimits.Verdict` | pynixd/pynixd/pressure.py:103-130 | steady if and only if every figure present is under its marks, the load per core included where there are no pressure figures; a cut if and only if a figure is past a high mark; and the reason named is true of the sample |
| `BuildLimits.UnmonitoredLaw` | pynixd/pynixd/pressure.py:65-72 | without any figure, or switched off, the limit is the ceiling; and only then is the store unmonitored |
| `BuildLimits.InitialLaw` | pynixd/pynixd/pressure.py:97-101 | a store starts at the setting, or at its whole cores, or at 1, within the bounds |
| `BuildLimits.CutLaw` | pynixd/pynixd/pressure.py:78-84 | a cut leaves the share of the running builds, at most as many as the limit, rounded down, and at least 1; it ends slow start and sets both settle times |
| `BuildLimits.HoldLaw` | pynixd/pynixd/pressure.py:85-88 | pressure that is no cut holds the limit and names itself |
| `BuildLimits.BuildLimit.constructor` | pynixd/pynixd/pressure.py:44-59 | a new limit is the ceiling |
| `BuildLimits.BuildLimit.Observe` | pynixd/pynixd/pressure.py:65-95 | the whole new state and the answer for one sample; a monitored limit is answered as risen only when every figure is under its marks, and falls only past a high mark, after the settle time |
| `BuildLimits.RunBounded` | pynixd/pynixd/pressure.py:65-144 | with settings that fit the ceiling, over every run the limit is between 1 and the ceiling |
| `BuildLimits.AnswerIsRiseIff` | pynixd/pynixd/pressure.py:65-95 | whatever the settings, in a state in range the answer says whether the limit rose, except exactly for three kinds of samples, each told by the settings, the state and the running count |
| `BuildLimitExact.RangeIff` | pynixd/pynixd/pressure.py:58-95 | over all runs the limit is between 1 and the ceiling if and only if the ceiling is at least 1 and, where monitoring is on, a cut at the ceiling does not exceed it and the step is not negative or the ceiling is 1 |
| `BuildLimitExact.AnswersIff` | pynixd/pynixd/pressure.py:65-95 | over all runs every answer is right if and only if monitoring is off, or the ceiling is at least 1, a cut does not exceed it, the step is positive or the ceiling 1, and the settle time is positive or the first limit the ceiling |
| `BuildLimitExact.FallAnsweredAsRise` | pynixd/pynixd/pressure.py:72-95 | with a settle time of zero the first sample takes the limit from 4 to 2 and is answered as a rise |
| `BuildLimitExact.StandstillAnsweredAsRise` | pynixd/pynixd/pressure.py:89-95 | with a step of zero, after a cut from 4 to 2, a limit that stays at 2 is answered as a rise |
| `BuildLimitExact.CutLeavesRange` | pynixd/pynixd/pressure.py:79-84 | with a factor of 2 the first sample cuts the limit of a ceiling of 4 to 8, answered as no rise |
| `BuildLimitExact.StepLeavesRange` | pynixd/pynixd/pressure.py:92-93 | with a step of -1, after a cut to 1, a quiet sample takes the limit to 0 |
| `BuildLimits.CutsApart` | pynixd/pynixd/pressure.py:78-84 | in every run two cuts are at least their distance in settle times apart |
| `BuildLimits.RiseAfterChange` | pynixd/pynixd/pressure.py:79-95 | after a cut or a rise the next rise of a monitored store waits for the settle time |
| `BuildLimits.CutEndsSlowStart` | pynixd/pynixd/pressure.py:79-95 | after a cut a monitored store never doubles again |
| `BuildLimits.CutsHalve` | pynixd/pynixd/pressure.py:79-84 | with factor one half, k cuts and no rise leave at most a 2^k-th of the limit, or 1 |
| `BuildLimits.SaturatedRuns` | pynixd/pynixd/pressure.py:89-95 | saturated quiet samples double the limit in slow start and add the step after it, up to the ceiling |
| `BuildLimits.SlowStartReachesCeiling` | pynixd/pynixd/pressure.py:65-95 | a new store is at its ceiling after exactly as many saturated samples as doublings are needed, and not before |
| `BuildLimits.SpacedSamplesReachCeiling` | pynixd/pynixd/pressure.py:65-95 | the same, from samples alone: quiet, with all slots in use, and a settle time apart |
| `Features.HonourableFeatures` | pynixd/pynixd/proxy.py:296-334 | exactly the supported features that some store a build can go to offers |
| `Features.MatrixNames` | pynixd/pynixd/proxy.py:353-361 | exactly the system names and system and feature names of one store |
| `Features.ServerFeatures` | pynixd/pynixd/proxy.py:339-363 | exactly the extensions, the honoured features, pynixd's own, `addTempRoots` and the matrix names |
| `Features.AgreedFeatures` | pynixd/nix-daemon-protocol/src/nix_daemon_protocol/constants.py:153-159 | the client's agreed set is the server's, `addTempRoots`, and extensions that took a standard name |
| `Handshake.ClientReadsNext` | pynixd/pynixd/connection.py:423-488 | the client's next read meets the server's next field, or the version tests disagree |
| `Handshake.ServerReadsNext` | pynixd/pynixd/proxy.py:365-424 | the server's next read meets the client's next field |
| `Handshake.NeverMisreads` | pynixd/pynixd/connection.py:423-488 | under every schedule neither half reads a field the other did not write there |
| `Handshake.NeverDeadlocks` | pynixd/pynixd/proxy.py:365-424 | under every schedule some half can move until both have finished or the client refused |
| `Handshake.FinishedAgree` | pynixd/pynixd/connection.py:436-472 | both halves end with the lower version, empty channels, and the sets each computed |
| `Handshake.EveryScheduleFinishes` | pynixd/pynixd/proxy.py:365-424 | every schedule of an accepted session ends after at most 24 moves, and where it can go no further both halves have finished |
| `Handshake.CanFinish` | pynixd/pynixd/proxy.py:365-424 | from every reachable state of an accepted session some schedule finishes both halves |
| `Handshake.HandshakeIff` | pynixd/pynixd/connection.py:480-485 | two halves can finish if and only if the versions are new enough and the version tests agree |
| `Handshake.SessionFeatures` | pynixd/pynixd/proxy.py:387-413 | after a finished session the server's features are a subset of the client's that misses at most `addTempRoots`, and the session is marked as delegated |
| `Handshake.OldServerFails` | pynixd/pynixd/connection.py:480-485 | a client of 1.38 never finishes with such a server of 1.34 |
| `DerivedPaths.OutputsRoundTrip` | pynixd/pynixd/derived_path.py:50-86 | sorted, joined and split again, valid output names are the same set |
| `DerivedPaths.ParseChain` | pynixd/pynixd/derived_path.py:305-315 | the loop from the right finds the pieces a split from the left gives |
| `DerivedPaths.ParseComponents` | pynixd/pynixd/derived_path.py:279-315 | the parser computes the meaning of those pieces, errors included |
| `DerivedPaths.PrintParseIff` | pynixd/pynixd/derived_path.py:232-251 | printing then parsing gives a path back exactly for well-formed paths, in both formats |
| `DerivedPaths.StorePathLaw` | pynixd/nix-daemon-protocol/src/nix_daemon_protocol/store_path.py:58-75 | the store directory is taken off whatever follows it, an absolute path elsewhere is refused, and the rest is kept |
| `DerivedPaths.ParsePrintParse` | pynixd/pynixd/derived_path.py:279-328 | parsing, printing and parsing again is parsing, on every accepted text |
| `DerivedPaths.WirePathChangesMeaning` | pynixd/pynixd/derived_path.py:279-315 | a path that survives the wire format and not the one for people |
| `DerivedPaths.EnsureIsWalk` | pynixd/pynixd/derived_path.py:200-228 | for every builder, building `outer` and continuing with `wrap` ends like walking the whole chain, or fails as it does |
| `DerivedPaths.EnsureFailsAs` | pynixd/pynixd/goals/ensure.py:386-423 | how a nested build fails: for want of a dependency, for an output that is missing, or for one that is no derivation |
| `Activities.IdsDiffer` | pynixd/pynixd/activity.py:22-37 | ids of one process, and of two processes for 2^32 ids each, never meet |
| `Activities.Counter.NextActivityId` | pynixd/pynixd/activity.py:22-37 | the next id, and the counter moves on |
| `Activities.BuildActivity.constructor` | pynixd/pynixd/activity.py:56-70 | takes one id and sends nothing yet |
| `Activities.BuildActivity.Open` | pynixd/pynixd/activity.py:72-82 | the build's own start message, with its level, type, text and fields, whoever took an id since construction |
| `Activities.BuildActivity.EmitOne` | pynixd/pynixd/activity.py:88-120 | the messages, with their texts and fields, and the children after one event |
| `Activities.BuildActivity.EmitOutputs` | pynixd/pynixd/activity.py:84-86 | the messages and children after a list of events |
| `Activities.BuildActivity.Close` | pynixd/pynixd/activity.py:122-126 | the children stop from the highest key down, then the build's own activity |
| `Activities.EmitKeeps` | pynixd/pynixd/activity.py:88-120 | after every event the open activities are the build's own and the children it remembers |
| `Activities.ClientIsTold` | pynixd/pynixd/activity.py:84-120 | read back from a whole trace, the client gets exactly the builder's lines, phases and messages within its verbosity, each with its text, and the headings of the activities it started, each a child of the build's own, interleaved as they were printed |
| `Activities.StartOpens` | pynixd/pynixd/activity.py:97-112 | a start under a free key opens a new activity for it; under a taken one it leaves that key its activity |
| `Activities.StopCloses` | pynixd/pynixd/activity.py:97-120 | a stop closes the activity of its key at once, frees the key and touches no other |
| `Activities.ResultsReachChild` | pynixd/pynixd/activity.py:97-120 | until it is stopped, the child of a key keeps its id and gets exactly the results of that key, with their fields and in order |
| `Activities.TraceIsBalanced` | pynixd/pynixd/activity.py:72-126 | for every sequence of events all ids differ, each activity is stopped once after its start, each result names an open one, and the build's own opens first and closes last |

## Left out

- Transport and I/O: streams, SSH, HTTP, SQLite and subprocesses are oracles, finite byte sequences or FIFO channels.
- Time and randomness are parameters: the clock of `observe` and of the disk filter, and the draws of `explore_store`.
- `GcDelete.Delete`: does not model `freed` and the physical byte totals, the engine that collects in process, or an error outside the caught kinds; a delete answer names paths of its own group.
- `GcDelete.Reconcile`: the order of the uncertain paths is arbitrary, where the source sorts them.
- `GcPlan`: `SqlPlan`, `close_batch`, `referrer_first` and `take_until_below_target` are not part of this model.
- `NarReader`: bodies are whole in memory, and Python's recursion limit on deep trees is not modelled.
- `NarTree`: `chmod` and the read helpers would only add easy members; errors carry no message.
- `BuildQueues`: the log pub/sub inside a build and `cancel_on_unsubscribe` are left out; subscribers are the set `prune` reads. Timestamps, metrics and events that wake waiters are left out. The lock is the atomicity of each method.
- `Delegation`: the transport of answers back along a chain is not modelled, because only waiting matters for deadlock; a worker sends one request, as `execute_build` does (pynixd/pynixd/scheduler.py:1204-1214).
- `Allocator.MoreLoadNeverHelps`: scores are over the reals, without rounding, and penalties, weights and cores are not negative, as configured by default.
- `Allocator.CostNeverHelps`: the same; `CostComesOff` and the laws of single figures beside it need no sign.
- `Placement.CheaperFirst`: speaks of stores of positive priority and a positive price, where a cost can tell two stores apart; `LessBusyFirst` likewise.
- `Allocator.PressureNeverHelps`: the same, and it compares two samples of a store that reports both figures.
- `Scheduling`: whether the build limit leaves room, whether another store is compatible and how long the local wait is are given facts of the moment; a build that is not placed waits or fails, and the two are not told apart.
- `Placement`: whether a store supports a derivation is a given fact of the store; the texts of the reasons are an enumeration.
- `BuildLimits`: numbers are reals without rounding; log lines and metrics of `_set` are left out.
- `BuildLimits.CutsHalve`: speaks of runs without a rise in between, since a rise undoes a cut.
- `Handshake`: a field is a value with its kind, so a misread is a kind that does not fit; error and log messages before the last one are not sent by this server half.
- `DerivedPaths.EnsureIsWalk`: concurrency of goals, subscribers and the failing derivation's name are left out.
- `Activities`: the encoding of fields on the wire is not modelled.
- Health monitoring, configuration, proxying of operations, and the rest of the repository are not part of this model.
