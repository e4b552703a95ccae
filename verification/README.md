# A verified model of the sync engine

`juicefs-sync-advanced` copies one object store to another. This project models the part of it that
decides and moves: the planner that joins two listings, the workers that carry out its plan and the
counters that account for them, the parallel downloader, the multipart copy with its checksums, the
credit limiter, the listings (paged, one directory at a time, sharded), the include/exclude rules and
the statistics protocol of a cluster. A store is a finite map; a failed operation has no effect on it.

Verify the project with `dafny verify dfyconfig.toml` (Dafny 4.11).

## How it is built

Code that works by changing things is a class or a loop, proved against a function or a state machine;
what the source promises is proved about that.

| files | what they hold |
|---|---|
| `Keys`, `Objects`, `Hierarchy` | the byte order of keys, listed objects and listing channels, keys as paths |
| `Glob`, `Rules`, `RuleMeaning`, `Filter` | patterns as a language, the rules, the filter in front of the planner |
| `Planner`, `DecisionTable`, `PlannerRuns`, `PlanSafety`, `Convergence` | the merge join, what it amounts to per key, limits and failures, what no run plans, what a mirroring run achieves |
| `ParallelProducer` | the recursive form of the planner against the flat one |
| `Worker`, `Accounting` | one task, and the counters over all interleavings |
| `Downloader`, `SharedDownloads`, `Limiter` | concurrent objects as state machines, with the classes that take their steps; several downloads on one semaphore |
| `PartSize`, `Crc32c`, `Checksum`, `Multipart`, `CopyRange` | cutting, CRC-32C, verifying, and the multipart copy |
| `PagedListing`, `TreeWalk`, `Handshake`, `ShardMerge` | the listers and the listing threads |
| `Cluster` | reports of workers to their manager, and the handing out of tasks |

A concurrent component is a state, a step per atomic section, an invariant that every step keeps, and
theorems over all runs. The classes `Downloader.ParallelDownloader`, `Limiter.GlobalLimit` and
`Cluster.WorkerProcess` have the fields of the source's objects; each method is the code between two points
where another goroutine may run, and its contract says which step of the machine it takes.
`CopyRange.Destination` runs one part without interruption, as steps of the multipart copy, and `Worker.Workplace`
one task; a task's effects are stated outright, that of a copy in parts being what a run of the multipart copy
leaves. `TreeWalk.ThreadsHandChildren` ties the walk to the hand-shake of its threads.

## What does not hold, and what does instead

- A part size can give one part too many. `PartSize.CountBound` says exactly when, `PartSize.ThreeParts`
  is an upload limited to two parts for which the code makes three.
- Closing a downloader keeps the tokens of the blocks still buffered for good: `Downloader.CloseLeaks`,
  `Downloader.CloseWithBlock`. On a semaphore shared with other transfers they are gone.
- Under an update with CheckAll and DeleteSrc, a source object is deleted if the destination begins with its
  bytes, even if it goes on: `Worker.SourceLost`. What a comparison does prove is in
  `Worker.AlikeIsIdentical`.
- A directory that a worker finds equal, with CheckAll and DeleteSrc on, is counted as handled twice, so
  the exit check can miss a lost object: `Accounting.DirectoryCountedTwice`; the exact balance is in
  `Accounting.FinishedRunAddsUp`, and exactly which configurations are concerned in `Accounting.AddsUpIff`.
- The recursive producer passes over prefixes by leveled matching even when the run matches whole paths, and
  by comparing them with the start; and it does not hold the objects of its upper levels against the start
  and the end. `ParallelProducer.AgreeIffReached` says exactly when it still agrees with the flat one,
  `ParallelProducer.WholePathLoses` and `ParallelProducer.MissedWithStart` what it misses,
  `ParallelProducer.StrayBeforeStart`, `ParallelProducer.StrayBehindEnd` and `ParallelProducer.StrayKey` what it
  plans too much.
- A failed request for the start key drops that key without a word: `PagedListing.CompleteExactly` says
  exactly when a completed listing is complete.
- The directory walk with a start loses the keys behind the start that share its first-level directory, and
  only those: `TreeWalk.LostWithStart`.
- The merge of the shards takes a failed shard for an exhausted one and tells no failure:
  `ShardMerge.ShortIffCut`.
- A question for credit that is refused still lets the request through: `Limiter.RefusedIsOverdrawn`; the
  exact condition for a balance that is not negative is in `Limiter.AnswerCovers`.
- Extra objects behind the last source object are noticed only when they are to be deleted; the decision
  table (`DecisionTable.Verdict`) has that case.
- A deletion that works counts twice in the `deleted` counter, and one that fails once there and once as
  failed: `Worker.Workplace.Handle`. A cluster's manager derives what is handled from the outcomes, so its exit
  check overlooks as many lost objects as workers have asked for deletions: `Cluster.HandledElsewhere`.
- The multipart copy overwrites and deletes destination objects that happen to bear the temporary name of a
  part that nests, and only those: `Multipart.TakenNameIsLost`, `Multipart.SurvivesIff`. A mirroring run reaches
  its goal in every order of the tasks if and only if no key it is to keep or write is such a name:
  `Convergence.ConvergesIff`, `Convergence.MirrorLoses`.
- A link that cannot be created has cost the destination its object: `Worker.LinkGone`; exactly when is in
  `Worker.Workplace.Copy`.
- A first page of a listing that is empty but announces more makes the lister start over from the beginning, and
  list what was not asked for: `PagedListing.MayStartOver`, `PagedListing.StartingOverStrays`.
- The callback for retries is handed on even if there is none, and then called: without a recorder, the first
  error of a single copy, or of the opening of an upload, that would be retried ends the process. Exactly when is
  in `Worker.Workplace.Copy`; `Worker.RetryEndsRun` is the run.
- Tasks in an answer that does not reach its worker are gone, and nobody is told: `Cluster.TasksLostIff`,
  `Cluster.AnswerLost`.
- A worker of a cluster that leaves after a failed last report, with no directory in its list, takes its counts
  with it: `Cluster.CountsLeaveWithWorker`; exactly when the manager shows everything is in
  `Cluster.CountsOfThoseWhoLeft`.
- A worker may leave while its periodic report is under way, and the directories in that report are lost:
  `Cluster.DirectoryLeavesWithWorker`; exactly when the manager has them all is in
  `Cluster.DirectoriesOfThoseWhoLeft`.

## Model

| member | source | states |
|---|---|---|
| Glob.PathMatchIsMatches | pkg/sync/sync.go:1637-1660 | the name matcher accepts exactly the names in the language of `*`, `?` and literals |
| Glob.MatchTwoStarExact | pkg/sync/sync.go:1637-1660 | a pattern component with `**` accepts exactly the paths in its language: `*` and `?` stay inside a name, `**` crosses `/` |
| RuleMeaning.MatchPrefixExact | pkg/sync/sync.go:1662-1682 | an anchored pattern accepts exactly the paths in the language of its components up to the first `***` |
| RuleMeaning.MatchSuffixExact | pkg/sync/sync.go:1684-1713 | an unanchored pattern accepts exactly the paths with a suffix in its language, a leading `**` possibly matching nothing |
| RuleMeaning.RuleMatchesExact | pkg/sync/sync.go:1715-1771 | every rule decides by the language of its pattern, anchored or not |
| RuleMeaning.LeveledExact | pkg/sync/sync.go:1740-1771 | a list of rules admits a key by leveled matching if and only if, at every level with a name, the first rule that means the path down to it is an include, or there is none |
| RuleMeaning.FullPathExact | pkg/sync/sync.go:1715-1738 | by whole-path matching the first rule that means the path decides; without one the key is admitted |
| Rules.ExcludedDirectoryExcludesBelow | pkg/sync/sync.go:1740-1771 | under leveled matching a key is admitted only if every directory above it is |
| Rules.SplitInverse | pkg/sync/sync.go:1715-1718 | splitting a key at `/` loses nothing |
| Filter.Run | pkg/sync/sync.go:1613-1635 | of what was received before a failure the filter passes on, in order and as often as received, exactly the files whose size, age and time keep the limits that are set and whose path the rules admit; of directories and links those whose path the rules admit; and it hands the failure on |
| Objects.ReceivedIs | pkg/sync/sync.go:1618-1624 | a reader gets what a channel delivers in front of its first nil, and reports a failure exactly if there is one |
| Objects.UnixAgrees | pkg/sync/sync.go:1473-1507 | times agree, or precede, by whole seconds alone |
| Filter.AdmittedAscending | pkg/sync/sync.go:1586-1635 | filtering keeps the key order |
| Planner.Producer.SkipIt | pkg/sync/sync.go:1411-1421 | a skip is counted once, and flushed with all before it at the hundred-and-first or when the time is up |
| Planner.Producer.HandleExtraObject | pkg/sync/sync.go:1343-1370 | an object of the destination alone is kept as extra, queued or put aside for deletion, charged to the limit; it tells when the limit is used up |
| Planner.Producer.FindPartner | pkg/sync/sync.go:1438-1457 | the destination is read up to the partner of the source object, every extra on the way being decided |
| Planner.Producer.Decide | pkg/sync/sync.go:1459-1529 | a source object gets the action for its partner or for having none |
| Planner.Producer.Produce | pkg/sync/sync.go:1395-1547 | the loops over both channels, with held-back destination object, limit, flushes and failures, do exactly what the plan over the filtered listings says; every copy, comparison and change of permissions that is planned is queued once, as is every deletion of what is no directory, with its own marker, and nothing else is; every directory to be deleted is put aside once, on its side; skips, extras, handled and totals are counted once per event |
| Planner.TasksAre | pkg/sync/sync.go:1343-1547 | the queue holds a task as often as the log holds the event it stands for |
| Planner.DelayedAre | pkg/sync/sync.go:1343-1547 | the directories put aside are those of the log's deletions |
| DecisionTable.PlanTable | pkg/sync/sync.go:1395-1547 | without limit, over ascending listings, the plan is the table of verdicts of the two key maps: one event a key, in strictly ascending order |
| PlannerRuns.LimitConserved | pkg/sync/sync.go:1430-1457 | with limit L, what is planned and what is left add up to L, never below 0, and at most one counted object is left without an outcome; failed listings included |
| PlannerRuns.LimitedIsSubsequence | pkg/sync/sync.go:1343-1370 | a limited run plans a subsequence of the unlimited one |
| PlannerRuns.FailureIsPrefix | pkg/sync/sync.go:1422-1425 | a run cut short by a failed listing has done the beginning of what the complete listings would have given, whatever these are |
| PlanSafety.ActionsAreVerdicts | pkg/sync/sync.go:1395-1547 | whatever the limit and wherever a listing fails, an action that is planned is the verdict of the complete run on that key |
| PlanSafety.PlansAreSafe | pkg/sync/sync.go:1459-1547 | a source object is given up or compared only if the destination lists one likely the same; a destination object is deleted only if the source does not list its key; a copy is planned only for a missing, different or older destination object |
| PlanSafety.MissingIsCopied | pkg/sync/sync.go:1459-1471 | a source object without a partner is skipped if only existing ones are asked for, and copied otherwise |
| PlanSafety.ComparedSizesAgree | pkg/sync/sync.go:1481-1507 | without an update, only objects with equal listed sizes are compared or given up |
| PlanSafety.UpdateIgnoresSizes | pkg/sync/sync.go:1481-1507 | under an update, objects written in the same second are compared whatever their sizes |
| Convergence.MirrorConverges | pkg/sync/sync.go:2227-2253 | after a mirroring run, tasks carried out in any order, admitted destination keys are the admitted source keys with equal sizes and excluded keys are untouched, if and only if no needed key was last taken for a temporary name |
| Convergence.ConvergesIff | pkg/sync/sync.go:888-942 | every order of the tasks gives that result if and only if no key the destination is to keep or get is a temporary name of an object that is to be copied |
| Convergence.MirrorLoses | pkg/sync/sync.go:888-942 | a destination key that is excluded or the same on both sides, and is such a name, is gone after every such run |
| Convergence.CopyIsCarried | pkg/sync/sync.go:1181-1249 | what a worker's copy leaves of the contents is what these theorems take a copy to do |
| Convergence.MirrorIdempotent | pkg/sync/sync.go:1395-1547 | the next run then plans nothing, if and only if no admitted key of the source was last taken for a temporary name |
| ParallelProducer.ListCommonPrefix | pkg/sync/sync.go:1773-1813 | a level is split into its objects and its common prefixes |
| ParallelProducer.SingleExactly | pkg/sync/sync.go:1372-1393 | the flat producer plans, for each key under the prefix that was asked for, exactly the event of that key |
| ParallelProducer.AddChild | pkg/sync/sync.go:1931-1961 | a child producer adds exactly the keys it reaches, none twice |
| ParallelProducer.SkipChild | pkg/sync/sync.go:1940-1951 | a prefix that is passed over adds nothing |
| ParallelProducer.StartProducer | pkg/sync/sync.go:1909-2000 | for every hierarchy, depth, list of rules, matching mode, start and end, the recursive producer plans exactly the keys it reaches, each once |
| ParallelProducer.AgreeIffReached | pkg/sync/sync.go:1909-2000 | it plans the same multiset as the flat producer if and only if the keys that matter are reached exactly when they were asked for |
| ParallelProducer.LeveledAgree | pkg/sync/sync.go:1740-1771 | with leveled matching, no start and no end, the two always agree |
| ParallelProducer.MissedWithStart | pkg/sync/sync.go:1944-1951 | a key asked for and admitted is missed exactly when the start lies in the same first-level directory |
| ParallelProducer.WholePathLoses | pkg/sync/sync.go:1940-1943 | with whole-path matching, the rule that excludes `a/` makes the recursive producer lose `a/b`, which the flat one copies |
| ParallelProducer.StrayBeforeStart | pkg/sync/sync.go:1944-1951 | a key before the start is planned exactly if it lies on the first level |
| ParallelProducer.StrayBehindEnd | pkg/sync/sync.go:1944-1951 | with no start, an admitted key behind the end is planned exactly if it lies on a level above the last and every common prefix on the way to it is one of the end's |
| ParallelProducer.StrayKey | pkg/sync/sync.go:1773-1813 | with a start, the recursive producer plans an object in front of it that the flat one does not |
| Hierarchy.CommonPrefixUnique | pkg/sync/sync.go:1773-1813 | the common prefixes of a level partition the keys below it |
| Worker.Workplace.Handle | pkg/sync/sync.go:1082-1254 | one task: a planned copy is made; a comparison that finds a difference makes the copy, one that finds both sides alike settles the object as such, one that fails counts as failed and does nothing, and it fails only if something cannot be read; a planned deletion is done. Handled once, only its key and temporary names of parts that nest are touched, nothing in a dry run; a source object goes only if planned or if both sides begin with the same bytes, as many as its listed size says (links: lead to the same place); a destination object goes only if planned or with a link left half-way, and is overwritten only by a planned copy or after a difference was found; a copy ends as exactly one of copied, skipped and failed; outcomes run ahead of tasks by the deletions asked for and behind by the directories put aside; without a recorder a retry of the copy ends the process, with nothing counted |
| Worker.Workplace.Check | pkg/sync/sync.go:1130-1249 | alike, different or unreadable: what is found decides what is done with both stores and which counter moves |
| Worker.Workplace.Copy | pkg/sync/sync.go:1181-1249 | exactly one of copied, skipped and failed is counted; copied in parts means what the source begins with, copied under verification that the checksum of what was read is that of the copy up to the listed size, and a faithful copy passes; what is not copied is lost if and only if it is a link that was deleted and not created; nothing is counted if and only if a retry is to be told and there is no recorder |
| Worker.Try | pkg/sync/sync.go:429-442 | a call is made until its error cannot be mended, at most so many times; without a recorder the first that can ends the process |
| Worker.CopyDoes | pkg/sync/sync.go:1010-1043 | whatever the calls come to: a copy that ends well leaves the object, in parts the source's bytes with their checksum; one that does not leaves the key alone, but for a link half-way; how each kind of copy ends, and with which bytes; nothing else changes but temporary names |
| Worker.OthersAreLost | pkg/sync/sync.go:888-942 | another object can be lost to a copy in parts if and only if it bears the temporary name of a part that nests |
| Worker.LinkGone | pkg/sync/sync.go:1290-1301 | a link planned for copying that cannot be created costs the destination its object |
| Worker.RetryEndsRun | pkg/sync/sync.go:1198-1205 | without a recorder, one error that another attempt would mend ends the process |
| Worker.Workplace.WhenEqual | pkg/sync/sync.go:1130-1178 | what follows when a comparison finds both sides equal |
| Worker.Workplace.Compare | pkg/sync/sync.go:555-668 | the comparison behind the deletion answers whether the objects are alike up to the listed size, and answers whenever they can be read |
| Worker.AlikeIsIdentical | pkg/sync/sync.go:1130-1145 | for a planned comparison, objects found alike are identical exactly when the listed sizes agree; always without an update |
| Worker.SourceLost | pkg/sync/sync.go:1130-1145 | under an update, a source `[1]` is deleted because the destination `[1, 2]` begins with it |
| Accounting.SettledAsPlanned | pkg/sync/sync.go:1343-1529 | what a producer settles goes to the queue, aside or to the extras exactly as the planner's tasks, delayed deletions and extras do |
| Accounting.StepKeepsBooks | pkg/sync/sync.go:98-106 | every step of every thread keeps total + doubled = handled + extra + queued + in hand + put aside + unflushed + lost |
| Accounting.RunKeepsBooks | pkg/sync/sync.go:1082-1254 | the balance holds in every run of any number of producers, workers and deleters |
| Accounting.FinishedRunAddsUp | pkg/sync/sync.go:2119-2128 | a finished run ends with total + doubled = handled + extra + lost, and unless directories found equal are deleted from the source the exit check fires if and only if an object was lost |
| Accounting.NeverStuck | pkg/sync/sync.go:1082-1254 | as long as anything is left to do, some thread has a step other than a flush of nothing |
| Accounting.CanBeFinished | pkg/sync/sync.go:1395-1547 | such steps bring every run, from any plans and any point, to an end where nothing is left; with Accounting.StepShrinks there are only so many of them |
| Accounting.StepShrinks | pkg/sync/sync.go:1082-1254 | every step but a flush of nothing leaves less to do |
| Accounting.LimitedLosses | pkg/sync/sync.go:1430-1457 | a limited producer loses at most one object |
| Accounting.CompleteRunAddsUp | pkg/sync/sync.go:2227-2253 | with no limit and no failed listing, every finished run ends with handled + extra = total + doubled |
| Accounting.AddsUpIff | pkg/sync/sync.go:2119-2128 | every such run ends with total = handled + extra if and only if not all of CheckAll, DeleteSrc and Dirs are on, or IgnoreExisting or ForceUpdate is, or it is a dry run |
| Accounting.PlannedIsAsked | pkg/sync/sync.go:1481-1529 | no plan, limited or cut short, compares directories under other options |
| Accounting.DirectoryCountedTwice | pkg/sync/sync.go:1131-1137 | a directory that both sides list, a complete plan to compare it, and the run with those options that handles more objects than it found |
| Downloader.StepInv | pkg/sync/download.go:65-156 | every step of fetches, reads, errors and close keeps the invariant |
| Downloader.ReadsAreTheSource | pkg/sync/download.go:114-144 | what was read is the beginning of the source, the end means all of it; a read advances exactly when its block is buffered and fails only when it is missing |
| Downloader.TokensAccounted | pkg/sync/download.go:65-144 | tokens never exceed the capacity and are all returned after a full read |
| Downloader.CloseLeaks | pkg/sync/download.go:146-156 | in every run, once nothing is in flight after a close, the tokens still held are exactly those of the blocks buffered at the close |
| Downloader.CloseWithBlock | pkg/sync/download.go:146-156 | for every object there is a run that closes with a block buffered and ends with a token gone |
| Downloader.DownloadFinishes | pkg/sync/download.go:65-144 | without errors and with its own semaphore the download takes finitely many steps in any order and, when none is possible, the whole object was returned |
| Downloader.NeverStuck | pkg/sync/download.go:65-144 | before the end of the file some step is possible: no lost wake-up, no token deadlock |
| Downloader.ReadGoesOn | pkg/sync/download.go:114-156 | once something failed or the downloader was closed, a read can go on or the fetch that wakes it can |
| SharedDownloads.MoveKeeps | pkg/sync/download.go:65-156 | any number of downloads on one semaphore: every step of one keeps the invariants of all |
| SharedDownloads.NeverBlocked | pkg/sync/download.go:65-156 | while fewer tokens are lost or held elsewhere than there are, some download can go on as long as one has something to read and has not failed |
| SharedDownloads.AllFinish | pkg/sync/sync.go:700-725 | without errors and with a token to spare, all of them finish in every interleaving, with every object returned |
| SharedDownloads.AllStarve | pkg/sync/download.go:66-67 | with none to spare nothing is ever returned |
| Downloader.ParallelDownloader.SaveBlock | pkg/sync/download.go:95-102 | a block read in full is buffered, unless the downloader was closed |
| Downloader.ParallelDownloader.ReadTurn | pkg/sync/download.go:121-137 | a turn of the reader waits, fails, or copies from its block |
| Downloader.ParallelDownloader.DropBlock | pkg/sync/download.go:132-138 | a block read to its end leaves the buffer and returns its token |
| Downloader.ParallelDownloader.Shut | pkg/sync/download.go:146-156 | close empties the buffer and returns no token |
| Limiter.Ledger | pkg/sync/sync.go:176-230 | over all interleavings: need is the sum of the queue, balance = granted - charged - paid back, requests finish in arrival order, every question asks for a positive amount |
| Limiter.PaybackWhenIdle | pkg/sync/sync.go:216-230 | credit is paid back exactly when it is due, positive and nobody waits, at most a gibibyte at once |
| Limiter.NeverOverdrawn | pkg/sync/sync.go:176-214 | from a zero start, with every question granted in full, the balance never gets negative |
| Limiter.RefusedIsOverdrawn | pkg/sync/sync.go:149-170 | while no request gives credit back, every question that is refused leaves the balance negative, in every run |
| Limiter.AnswerCovers | pkg/sync/sync.go:199-213 | in every run, the balance after an answer is non-negative if and only if what there was and what was granted cover the request |
| Limiter.GivenBackMakesUp | pkg/sync/sync.go:179-181 | a request that gives back while the question is open can make up for the refusal |
| Limiter.GlobalLimit.Arrive | pkg/sync/sync.go:176-187 | the fast path, taken if and only if there is enough credit and nobody waits, charges at once; anyone else takes the last place in the queue and counts as need |
| Limiter.GlobalLimit.TakeTurn | pkg/sync/sync.go:187-198 | the first waiter is served from the balance if that covers it; else it asks for all that the queue lacks, but at most ten times its own bytes |
| Limiter.AskCoversAll | pkg/sync/sync.go:187-213 | in every run, a question below ten times the first waiter's bytes, granted in full, leaves a balance that serves all who still wait without another question; it is ten times them if and only if the queue lacks that much |
| Limiter.PaybackIs | pkg/sync/sync.go:216-230 | in every run, a payback that is due leaves what exceeds a gibibyte, and nothing else of the balance |
| Limiter.GlobalLimit.Receive | pkg/sync/sync.go:199-213 | whatever the answer, the first waiter is charged and leaves |
| Limiter.GlobalLimit.Check | pkg/sync/sync.go:216-230 | the payback leaves no negative balance |
| PartSize.CountBound | pkg/sync/sync.go:860-870 | at most MaxCount parts, but for exactly MaxCount + 1 if and only if the share is a whole number of MiB and leaves a rest |
| PartSize.ThreeParts | pkg/sync/sync.go:860-870 | two parts allowed, three made |
| PartSize.PartSizeBound | pkg/sync/sync.go:949-951 | no part of an accepted object is larger than MaxPartSize, if that is a whole number of MiB not below the base |
| PartSize.PartsTile | pkg/sync/sync.go:953-967 | parts are non-empty, at most the part size, and each starts where the one before ends |
| PartSize.PiecesAreWhole | pkg/sync/sync.go:953-967 | the parts in order are the object |
| Crc32c.CheckValue | pkg/sync/sync.go:232 | the checksum of the nine digits is the published check value of CRC-32C |
| Crc32c.TableStepIsBits | pkg/sync/sync.go:232 | a table step is eight bits of CRC-32C as defined in section 12.1 of RFC 3720 |
| Crc32c.Update | pkg/sync/sync.go:273-279 | the table-driven update computes the bitwise definition |
| Crc32c.UpdateInPieces | pkg/sync/sync.go:273-279 | updating piece by piece is updating at once |
| Crc32c.CombineIsConcat | pkg/sync/sync.go:546-552 | combining two checksums with the second length gives the checksum of the concatenation |
| Crc32c.OneByteDetected | pkg/sync/sync.go:658-666 | a change of one byte is always found by the checksum |
| Checksum.ChksumReader.Read | pkg/sync/sync.go:267-279 | the reader's checksum is that of everything that passed through it |
| Checksum.FoldIsWhole | pkg/sync/sync.go:989-995 | folding the parts' checksums gives the checksum of the whole |
| Checksum.FoldChecksums | pkg/sync/sync.go:548-552 | the loop over the array computes the fold |
| Checksum.CalPartChksum | pkg/sync/sync.go:483-517 | a range has a checksum exactly when it can be read in full, and it is the range's |
| Checksum.CalObjChksum | pkg/sync/sync.go:519-553 | whatever the order in which the parts finish, the result is the checksum of the first `size` bytes, or an error if a part could not be read |
| Checksum.CompObjPartBinary | pkg/sync/sync.go:555-601 | two ranges are the same, differ at a position, or could not be read |
| Checksum.CompObjBinary | pkg/sync/sync.go:603-633 | in any order of the parts: equal only if equal, different only if different, an error only if something could not be read |
| Checksum.DoCheckSum | pkg/sync/sync.go:635-668 | for a listed size and whatever the two contents: links are equal by their targets, objects by their first bytes or against a checksum, as many as the size says; the answer comes whenever everything can be read |
| Checksum.EqualIsIdentical | pkg/sync/sync.go:603-633 | objects found equal are identical exactly when the destination is not longer |
| Multipart.TmpKeyReads | pkg/sync/sync.go:888 | a temporary name is the key, `.part` and the number of the part in decimal digits |
| Multipart.TmpKeysApart | pkg/sync/sync.go:888 | temporary names of different parts differ, and from the key |
| Multipart.StepInv | pkg/sync/sync.go:872-998 | every step of the parts and of the collecting thread keeps the invariant |
| Multipart.AssembledObject | pkg/sync/sync.go:982-995 | with all parts in, the completed object is the source and the fold is its checksum |
| Multipart.CopyOutcome | pkg/sync/sync.go:947-998 | success: the source's bytes and checksum; otherwise the key is unchanged and the upload gone; nothing else changes but the temporary names of parts that nest; no temporary object is left once all are done and deletions worked |
| Multipart.SuccessTakesNames | pkg/sync/sync.go:888-942 | after every success, the temporary name of each part that nests is free, or holds the part if its deletion failed |
| Multipart.SurvivesIff | pkg/sync/sync.go:888-942 | so exactly the other objects without such a name are as they were |
| Multipart.AllGoesWell | pkg/sync/sync.go:947-998 | every copy has a run in which everything goes well, whatever is there before |
| Multipart.TakenNameIsLost | pkg/sync/sync.go:888-942 | an object other than the one copied can be lost to a copy that succeeds if and only if it bears the temporary name of a part that nests |
| Multipart.CopyEnds | pkg/sync/sync.go:947-998 | every copy takes only so many steps, and when none is left all goroutines are done and it has succeeded or is aborted |
| Multipart.NeverStuck | pkg/sync/sync.go:947-998 | until the copy is over and all goroutines are done, something can go on |
| CopyRange.UploadPart | pkg/sync/sync.go:825-858 | after any failed attempts, what is uploaded and what is summed is the range, exactly if an attempt works before one ends the retries |
| CopyRange.SucceedsIff | pkg/sync/sync.go:825-858 | an upload works exactly if one attempt reads the range in full and puts it, and the ones before may be retried |
| CopyRange.Destination.DoCopyRange | pkg/sync/sync.go:872-945 | the goroutine of a part takes steps of that part in the multipart copy, from its beginning to its end; the part's bytes come into the outer upload with their checksum, or nothing does, and they do exactly if every operation that its size and the store call for works before the abort is seen; no nested upload stays open, only the temporary object is written, and it stays only if its deletion fails |
| PagedListing.SendPage | pkg/sync/sync.go:354-368 | a page goes out until a key is out of order or past the end |
| PagedListing.Retry | pkg/sync/sync.go:376-393 | a listing is given up after four failures in a row, and only then |
| PagedListing.ListPages | pkg/sync/sync.go:349-403 | whatever the store answers the output is strictly ascending, and all that the pages taken hold up to an object past the end, which ends the listing, or one out of order, which breaks it off; over an honest store, which may answer with empty pages, it is what is wanted, or the beginning of it and a failure; after an empty first page that announces more, what is wanted from the beginning |
| PagedListing.StartingOverStrays | pkg/sync/sync.go:371-377 | starting over lists too much exactly if there is a key up to the start that is not past the end |
| PagedListing.MayStartOver | pkg/sync/sync.go:371-377 | for every listing and start an honest store may make the lister start over |
| PagedListing.WantedIsExactly | pkg/sync/sync.go:356-366 | wanted is everything behind the start and up to the end, the end included |
| PagedListing.ListAll | pkg/sync/sync.go:307-403 | the reader gets the start, if found, and everything wanted, or a beginning of that and a nil; from a store with a listing of its own as well |
| PagedListing.CompleteExactly | pkg/sync/sync.go:313-320 | a completed listing holds exactly the keys of the closed interval if and only if the start was found or is not there |
| TreeWalk.RegionsOrdered | pkg/object/object_storage.go:244-300 | everything below an entry precedes everything below a later one |
| TreeWalk.Walk | pkg/object/object_storage.go:210-302 | the walk over the entries of a level lists their regions, before the end, in order; when a listing fails, the beginning of that |
| TreeWalk.ThreadsHandChildren | pkg/object/object_storage.go:258-293 | in every interleaving, what the listing threads hand the walk for a directory is what the walk descends with |
| TreeWalk.ListAllWithDelimiter | pkg/object/object_storage.go:203-304 | in order exactly the keys whose first-level entry is behind the start, before the end, which without either is what a flat listing gives; or, if a listing fails, the beginning of that and a nil |
| TreeWalk.LostWithStart | pkg/object/object_storage.go:204 | a key behind the start is lost exactly when the start is in the same first-level directory |
| Handshake.StepInv | pkg/object/object_storage.go:213-242 | every step of the listing threads and of the walk keeps the invariant |
| Handshake.ReadyIsOwn | pkg/object/object_storage.go:258-262 | a record found ready is that of the entry the walk is at |
| Handshake.ChildrenAreOwn | pkg/object/object_storage.go:213-295 | in every interleaving each directory is given its own children |
| Handshake.NeverStuck | pkg/object/object_storage.go:213-295 | the walk or the thread it waits for can always go on |
| Handshake.LevelEnds | pkg/object/object_storage.go:213-295 | a level takes only so many steps, and when none is left every directory was given its children and all threads have stopped |
| ShardMerge.ActAsOne | pkg/object/sharding.go:54-75 | operations routed by the hash make the shards one store: put, found, deleted, nothing else touched, every key in its place |
| ShardMerge.ListedIsFound | pkg/object/sharding.go:170-197 | so the shards list only what the hash puts there, and together, if none fails, what the store finds |
| ShardMerge.RootIsLeast | pkg/object/sharding.go:160-168 | the first slot of a heap is least |
| ShardMerge.NextObjects.Down | pkg/object/sharding.go:160-168 | sifting down repairs the heap and permutes its slots |
| ShardMerge.NextObjects.Push | pkg/object/sharding.go:163 | one more head, and still a heap |
| ShardMerge.NextObjects.Pop | pkg/object/sharding.go:164-168 | the least head comes out, the rest is still a heap |
| ShardMerge.MergeStep | pkg/object/sharding.go:186-193 | a round keeps: what is out precedes what is pending, together they are everything |
| ShardMerge.ListAll | pkg/object/sharding.go:170-197 | the output is the strictly ascending union of what the shards list, nothing lost or repeated |
| ShardMerge.ShortIffCut | pkg/object/sharding.go:188-192 | the output is the whole store if and only if no shard was cut short |
| Cluster.StepInv | pkg/sync/cluster.go:97-147 | every step of counting, reporting, applying, replying and leaving, which may come at any point of a periodic report, keeps the balance |
| Cluster.NothingUncounted | pkg/sync/cluster.go:97-147 | manager and workers together show at least what was counted, and exactly that if and only if no applied report has lost its reply, waits for it or has been left behind |
| Cluster.NoDirectoryLost | pkg/sync/cluster.go:181-203 | every directory queued for deletion is with the manager, a worker or a report that is not applied |
| Cluster.DirectoriesOfThoseWhoLeft | pkg/sync/sync.go:2129-2136 | once all workers have left, the manager has a directory as often as it was queued and applied if and only if none left with it in a report that was not applied |
| Cluster.DirectoryLeavesWithWorker | pkg/sync/sync.go:2217-2222 | the run in which the periodic report takes the directory that the last report has put back, and the worker leaves with it |
| Cluster.CountsOfThoseWhoLeft | pkg/sync/sync.go:2129-2136 | once all workers have left, the manager's counter and what they took along beyond what it has applied add up to what was counted or applied twice; so, with no reply lost, the manager shows everything if and only if each worker left with no more than it had applied |
| Cluster.LeavesBeforeReply | pkg/sync/sync.go:2217-2222 | the run in which a worker leaves before the reply, still holding what the manager shows |
| Cluster.CountsLeaveWithWorker | pkg/sync/sync.go:2129-2136 | the run in which a worker leaves with a copy after its last report failed |
| Cluster.Manager.UpdateStats | pkg/sync/cluster.go:58-75 | a report that arrives keeps what is handled in pace with the outcomes shown |
| Cluster.WorkerProcess.ReadCounter | pkg/sync/cluster.go:102-119 | a counter is read as a step of the machine, while others go on counting |
| Cluster.WorkerProcess.SwapDirs | pkg/sync/cluster.go:106-109 | the list of directories is taken and left empty |
| Cluster.WorkerProcess.Settle | pkg/sync/cluster.go:122-146 | an answered report is subtracted; an unanswered one, applied or not, gives its directories back |
| Cluster.Fetch | pkg/sync/cluster.go:150-180 | a request gets the next tasks: the first, and those at hand behind it, up to a hundred and as long as those before are below 400 MiB |
| Cluster.TasksLostIff | pkg/sync/cluster.go:399-425 | once all workers have been told that there are no more tasks, each task has reached one or was in an answer that was lost; all have if and only if no answer with tasks was lost |
| Cluster.AnswerLost | pkg/sync/cluster.go:150-180 | the run in which the only task is lost with its answer |
| Cluster.Manager.Receive | pkg/sync/cluster.go:58-75 | the counts of a worker that has done its tasks add to handled their number, one more for each deletion asked for, one less for each directory put aside |
| Cluster.HandledElsewhere | pkg/sync/sync.go:2119-2128 | with the tasks done by a worker and the directories deleted, the manager has handled the tasks and once more each deletion the worker asked for |

## Left out

- Store back ends, the command line, the launching of workers, HTTP, metrics, progress bars, logging, the web interface: plumbing around the engine.
- Real time, sleeps and timeouts: a timeout or a flush may come at any moment.
- Widths of integers: counters, offsets and sizes are unbounded; sums of sizes that overflow 64 bits are not modelled.
- Bracket classes, escapes and multi-byte characters in patterns, and Windows paths.
- The list of files to sync, and the shortcut for a single object: they skip the merge join.
- The shared limit under several concurrent producers: not synchronised in the code; each theorem about the limit is about one producer.
- The `excluded` counters on an early return, the dry-run records and callbacks of the planner.
- ParallelProducer.StartProducer: there is no limit and the listings succeed and are complete; the sends of concurrent children are taken as a multiset, the pages of a level as one listing, and both stores support delimited listings. A destination that does not, below a source that does, makes the code plan again from the top, which is not modelled.
- Accounting.RunKeepsBooks: what workers of a cluster handle is not counted by the manager as here but by their reports (Cluster.HandledElsewhere); the outcome counters of the workers (copied, checked, deleted, skipped, failed) are in the Worker module; how many tasks a worker may hold back for a large object is not modelled.
- Worker.Workplace.Handle: one task at a time, no other change to the stores meanwhile; two copies under way at once, of which one's key is a temporary name of the other, and the parts of an abandoned copy that are still under way when the worker goes on, are not modelled. The reads of a verification are those of its last attempt; copying of permissions and times is not an effect on the content; the panic for want of a recorder ends the process, which the theorems about whole runs leave out; a copy of the empty key, which some stores refuse and the code then passes over, is taken to write it.
- Convergence.MirrorConverges: the tasks take effect one after the other, copies end well, and the temporary objects they write are deleted; one whose deletion fails stays at the destination (Multipart.SuccessTakesNames).
- SharedDownloads.NeverBlocked: who else holds tokens of the semaphore is a number that stays, as if they never gave any back.
- Downloader.ReadsAreTheSource: blocks are numbered instead of keyed by their offset, tokens of other users of the semaphore are a number, and a read that succeeds without a body does not occur.
- Limiter.Ledger: the expiry of credit is a flag of the periodic check.
- Checksum.CalObjChksum: the shared semaphore that delays the parts is not modelled; an abort is a flag of each read.
- Crc32c.CombineIsConcat: the combining library is not part of this model; it is taken to shift the first checksum by the length of the second part, which is what its interface promises.
- Multipart.CopyOutcome: uploads of other clients and pieces that a failed operation leaves behind are not modelled; aborting an upload is taken to work, deleting a temporary object may fail.
- PagedListing.ListPages: that listings continue behind the marker given, and that a page which announces no more is the last, is the contract asked of the store.
- TreeWalk.ListAllWithDelimiter: the pages of a directory are one listing; that every directory above an object is itself listed is asked of the store.
- Handshake.ChildrenAreOwn: the early exit of the threads after an error is not modelled.
- ShardMerge.ListAll: an error at the start of a listing, which ends it at once, is not modelled; the heap operations are those of Go's container/heap.
- Cluster.NothingUncounted: all counters are configured on both sides; a worker that ends because its manager has gone is not modelled.
- Cluster.HandledElsewhere: one worker, whose counts have all been reported; how reports arrive is the statistics protocol of Cluster.NothingUncounted.
- How stores resolve links, encryption, the database of records and the scanner: little logic or foreign calls.
