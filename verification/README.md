# A verified model of a local agent runtime

The runtime lets an assistant work in a checked-out repository: run commands, search and read files,
apply edits, run the affected tests, and follow events over HTTP.  This project models its
self-contained algorithms and state machines in Dafny and proves what they are meant to guarantee.
`dafny verify dfyconfig.toml` checks all of it.

| module | what it models |
|---|---|
| `CommandPlan`, `CommandAcceptance`, `CommandRun` | the safe command compiler, which flattens `&&` and nested package scripts into steps, and the step loop with its shared deadline |
| `NodeSearch`, `FileListing` | the eight search workers over shared counters and stop flags, each await-free stretch one atomic step; and the directory walk that feeds them |
| `TestImpact`, `Validation` | the layered test plan, and the scheduler that runs it and resumes it over many calls |
| `TextEdit`, `SecretDelta`, `FileStore` | exact replacement, the multiset difference of secret findings, and the files under write, edit and patch bundle |
| `Diff`, `RangeReader` | the single-hunk diff and the two readers of a line range |
| `ContextBudget`, `SearchBudget` | the limits on files, lines and characters of one call |
| `SessionPool`, `RateLimiter`, `EventStream` | the HTTP session pool, the fixed-window limiter and the event stream's cursor |
| `PathGuard` | resolving a path inside a workspace over a tree with symbolic links |
| `Literals` | finding, decoding and joining quoted string literals |
| `Wrappers`, `Numbers` | `Option`, `Result`, minimum and maximum |

Code that changes state is a class or a method with loops, proved against a function or predicate of
its inputs; the lemmas are about that function.  What decides a branch is also stated on its own, in
the terms of the caller and without the definitions that the program and its theorems share.  Processes, clocks, the network and other outside
calls are parameters: a machine `(call, world) -> (exit, world)`, clock values, answers and faults.
Regular-expression policies, command parsing, glob matching, byte lengths in `FileStore`, secret
patterns and hashes are uninterpreted functions of their inputs.

Some properties hold only under a condition.  Where it is called exact, both directions are proved:

- Extra arguments of a script call go to the last compiled step.  Writing them after the words of
  that one segment asks for the same thing exactly if the segment is not a package-manager call that
  takes them as its own words (`AppendAgreesIff`).  For a whole command the condition, at every
  segment the arguments are passed on to, is sufficient (`PlanMeansAppendedText`), and
  `npm run a -- -- x` shows that it is needed (`AppendedMarkerIsKept`); a command that violates it
  might still start the same processes by a detour.
- A single-match edit inserts the new text literally, whatever the file, exactly if the text contains
  no `$` escape (`SingleMatchIsLiteralIff`).
- `isSubpath` refuses a path inside the workspace exactly if its first name below the root starts
  with two dots, such as `..notes` (`IsSubpathIff`, `PlainPathIsReadIff`).
- A poll of the event stream may ask for up to five pages, but with the store's own pages it always
  stops after the first, because a page's `next_after_sequence` is never above the cursor its last
  event has already set (`Poll`).
- With a project's value as a cap, a limit respects it exactly if the value is not below the least
  one the limit can have, and the request is not a fraction between zero and one or the default
  respects it anyway (`CapHoldsIff`; `CapsFail` has an input for each failure).
- A client that reconnects to the event stream with the id of the last event it received has no gap
  and no duplicate exactly if no matching event between that id and the number in its query, which
  takes precedence over the id, is skipped or has been sent again (`ResumingIsSeamlessIff`).  Without
  a number in the query this always holds; a client that repeats its first address, as an event source
  does by itself, receives the events again (`SameQueryRepeats`).
- Clipping a text that is already clipped leaves it unchanged, so such a text counts as not clipped
  even when it is longer than the limit (`ClipTwice`).

## Model

| member | source | states |
|---|---|---|
| CommandPlan.ParseEnvMeaning | src/bashOps.ts:267-280 | exactly the maximal leading run of assignments is consumed, the last value of a name wins, and it is refused exactly if one of the values is unsafe |
| CommandPlan.ParseEnvAssignments | src/bashOps.ts:267-280 | the index loop computes the parse that ParseEnvMeaning describes |
| CommandPlan.AssignmentForm | src/bashOps.ts:267-280 | a token is an assignment exactly if an identifier stands before its first `=`; name and value are what stands on either side of it |
| CommandPlan.TestCallsTest | src/bashOps.ts:355-367 | `test` and `t` after a package manager call the script named test, with the words after an optional `--` as arguments |
| CommandPlan.RunCallsScript | src/bashOps.ts:355-367 | `run` calls the script it names, in the same way |
| CommandPlan.OtherWordsCallNothing | src/bashOps.ts:355-367 | nothing else calls a script |
| CommandPlan.SegmentMeans | src/bashOps.ts:426-476 | an accepted segment: its leading assignments override the environment, the last of a name winning, and the words after them are one step, or stand for the steps of the called script with the extra arguments on the last |
| CommandPlan.ResolveSafeCommandPlan | src/bashOps.ts:426-476 | the compiler with mutable step objects succeeds, fails and builds new, unshared objects exactly as the plan function says, with up-to-date display texts |
| CommandPlan.ExtendLast | src/bashOps.ts:454-462 | pushing arguments onto the last step object changes that step only and refreshes its display text |
| CommandAcceptance.AcceptedIff | src/bashOps.ts:426-476 | a command is accepted if and only if no chain of script calls from it nests more than eight scripts or reaches an unsafe command line |
| CommandAcceptance.SelfReachingIsRefused | src/bashOps.ts:433-453 | a script that can reach itself is refused from every command that can reach it |
| CommandAcceptance.RefusingPath | src/bashOps.ts:426-476 | each refused command has a chain of calls that shows why |
| CommandAcceptance.PlanIsNotEmpty | src/bashOps.ts:416-424 | an accepted plan has a step |
| CommandAcceptance.PlanIsBounded | src/bashOps.ts:426-476 | if neither the command nor any script of the table has more than k segments, an accepted plan has at most k^9 steps |
| CommandRun.PlanMeansCommand | src/bashOps.ts:426-476 | for every machine and world, running the flat steps starts the same processes, in order, with the same arguments, environment and time limits, and gives the same report and world, as evaluating the nested command directly |
| CommandRun.CommandMeaning | src/bashOps.ts:426-476 | the same at every depth, with arguments passed on from outside |
| CommandRun.AppendAgreesIff | src/bashOps.ts:355-367 | appending to a compiled step and appending to the words it came from agree if and only if no word is captured by a package-manager call |
| CommandRun.PlanMeansAppendedText | src/bashOps.ts:447-463 | where nothing is captured, the plan also means the command with the arguments written into the script text |
| CommandRun.AppendedMarkerIsKept | src/bashOps.ts:454-461 | `npm run a -- -- x` compiles to a step that keeps a `--` which the script text with arguments would drop |
| CommandRun.RunPlan | src/bashOps.ts:601-654 | the loop starts the steps in order, each with what is left until the deadline, until an exit is not a success: every exit but the last has code 0 and no flag, and if steps are left over the last has another code or a flag; the report has the code of the last exit and the flags of all |
| CommandRun.LoopStopsAtFailure | src/bashOps.ts:622-654 | the same stated of the loop as a function, for every machine, world and plan |
| CommandRun.RunSafely | src/bashOps.ts:601-654 | compiling and running has the report and the final world of direct evaluation, or the compiler's error and no effect; it stops at the first exit that is not a success; on a timely machine it ends within the bound |
| CommandRun.TimeBound | src/bashOps.ts:601-623 | if time passes only in processes and each keeps the limit it is handed, n steps end within timeoutMs + 1000(n - 1) |
| CommandRun.SlowMachineIsTimely | src/bashOps.ts:620-627 | there is a machine that meets this hypothesis: each process takes all the time it may |
| CommandRun.BoundIsReached | src/bashOps.ts:620-654 | on it every plan whose processes succeed takes exactly that long |
| NodeSearch.EveryRun | src/searchOps.ts:430-472 | under every interleaving and clock, finished or not: each match names a listed file, the number, counted from one, of a line in it that the query hits, and that line as shown; no line is reported twice; at most eight workers run and no two hold one file; the number of matches is the hits seen, up to the limit |
| NodeSearch.OkMeansComplete | src/searchOps.ts:463-495 | a finished search with status ok has a match for exactly the hit lines of all listed, readable, size-allowed, non-binary files: its matches are a permutation of a sequential scan |
| NodeSearch.SequentialHitsAre | src/searchOps.ts:430-461 | the sequential scan lists every line that the query hits once, in the order of files and lines |
| NodeSearch.UndisturbedSearchIsOk | src/searchOps.ts:474-495 | a search that is not aborted, late, full or over the file limit ends with status ok |
| NodeSearch.FlagsHaveCauses | src/searchOps.ts:387-404 | the aborted state is that of the caller's signal, and a deadline flag is raised only by a step at or after that deadline |
| NodeSearch.FailureMeans | src/searchOps.ts:474-495 | an abort is reported before the deadline, and that before a truncation |
| NodeSearch.StoppedByLimitsIsFull | src/searchOps.ts:445-457 | the stop by limits happens only if every query has its full number of matches and more to find |
| NodeSearch.RunsAreFinite | src/searchOps.ts:463-470 | the number of worker steps is bounded by the listed files and their lines |
| NodeSearch.RunInvariant | src/searchOps.ts:425-472 | the counters account for every line examined and the index, the files held and the files done never overlap |
| NodeSearch.FlagsStay | src/searchOps.ts:387-404 | a raised stop flag stays raised |
| FileListing.FileWalk.ListFiles | src/fsOps.ts:181-235 | the walk lists, in order, visible files up to the limit; it leaves out none of the first ones unless the stop test answered yes, and lists no more files than the test answered no |
| FileListing.ListedIff | src/fsOps.ts:181-235 | a path is there to list exactly if visible, readable folders, each in the one before, lead to a visible file of that path which the glob wants |
| FileListing.FlagsRaisedIff | src/searchOps.ts:387-398 | the timeout flag is raised exactly if the stop test was asked, not aborted, after the deadline, and the soft flag exactly if it was asked after the walk's time and before the deadline |
| FileListing.SearchSeesEverything | src/searchOps.ts:407-495 | workers that start from such a listing and the flags of its stop test: status ok means every file was listed and there is a match for exactly the lines hit in them |
| FileListing.StopRaisesFlag | src/searchOps.ts:387-398 | a yes of the walk's stop test leaves a raised flag or an aborted signal behind |
| FileListing.Search | src/searchOps.ts:377-495 | walk and workers in one run, under their deadlines, any clock and any interleaving: status ok means every file there was to list was listed and each query's matches are those of exactly the lines it hits; once the search is aborted the walk adds no file |
| TestImpact.TopologicalLayers | src/testing/testImpactGraph.ts:518-534 | layering succeeds if and only if the selected nodes have no dependency cycle; otherwise it names nodes that wait for one another |
| TestImpact.DependenciesFirst | src/testing/testImpactGraph.ts:522-532 | selected dependencies are in strictly earlier layers |
| TestImpact.LayersDisjoint | src/testing/testImpactGraph.ts:528-531 | a node is in one layer only |
| TestImpact.LayeredIsAcyclic | src/testing/testImpactGraph.ts:518-534 | a layering shows that there is no cycle |
| Validation.ValidationRuns.RunImpactPlan | src/compactExecution.ts:1155-1189 | each node has one turn: it is reused if it is stored as passed under the same plan, refused if it is CPU-heavy and stored as failed, and started in every other case, in order; what is stored changes by exactly the records of the call; a verdict is the gravest result, is a pass exactly if every node of the plan was reused or passed, and comes with every result stored; no verdict comes only of a run that broke off or a result not recorded; over all calls nothing recorded passed, or CPU-heavy and failed, starts again, and after a pass later calls pass by reuse alone |
| Validation.ValidationRuns.RunChunk | src/compactExecution.ts:1175-1188 | two light parallel nodes run in any interleaving; unless the call is broken off every result is recorded, and the plan goes on if and only if both passed |
| Validation.ValidationRuns.Persist | src/compactExecution.ts:1055-1059 | the record is logged and stored for its node, and nothing else changes; if storing fails nothing changes |
| Validation.ValidationRuns.Step | src/compactExecution.ts:1061-1153 | exactly one event is logged: a waiting node is reused if its known result is a pass, refused if it is CPU-heavy and has failed, and started otherwise; a run ends or breaks off, and only an ended run leaves a record |
| Validation.EndsStored | src/compactExecution.ts:1118-1127 | when nothing is left to record, each result a node ended with was recorded and is the stored one |
| Validation.PassesStored | src/testing/testImpactGraph.ts:598-619 | then every node that passed or was reused is stored as passed |
| Validation.OnlyReused | src/testing/testImpactGraph.ts:598-603 | a call that finds every node stored as passed starts none |
| Validation.StatusIsSeen | src/compactExecution.ts:1165-1187 | each status that counts in a verdict is that of a node that ended, was reused or was refused |
| Validation.StartsInOrder | src/compactExecution.ts:1159-1188 | a node starts only after each node of earlier layers, and each node of its layer that is serial or not light and comes before it or, if it is itself light and parallel, anywhere in the layer, has passed or been reused |
| Validation.AtMostTwoRun | src/compactExecution.ts:1174-1177 | at no place of a log are there three nodes that have started and not ended, and if there are two both are light and parallel |
| Validation.FailureHalts | src/compactExecution.ts:1165-1187 | after a node has failed or been refused none starts but the one light parallel node in its chunk, and all others begun have passed |
| Validation.TurnsOf | src/compactExecution.ts:1061-1093 | every log the scheduler's rules allow deals with each node as its stored result and resource level say, once |
| Validation.VerdictMeans | src/compactExecution.ts:1229-1232 | cancelled goes before blocked, and that before failed; it is a pass exactly if every node was reused or passed |
| Validation.DependenciesPassFirst | src/compactExecution.ts:1159-1188 | planner and scheduler together: a node starts only after each selected dependency has passed or been reused |
| Validation.LayeredIsWellFormed | src/testing/testImpactGraph.ts:571-574 | the planner's layers are a plan the scheduler accepts |
| TextEdit.SplitJoinSubstitutes | src/fsOps.ts:446-455 | splitting and joining replaces exactly the leftmost non-overlapping occurrences, and the pieces count them |
| TextEdit.LeftmostExists | src/fsOps.ts:446-446 | every text has a leftmost non-overlapping sequence of occurrences |
| TextEdit.LeftmostUnique | src/fsOps.ts:446-446 | it has only one |
| TextEdit.LeftmostMeans | src/fsOps.ts:446-446 | the old text stands at each place, character by character, the places do not overlap, and every occurrence starts within one of them |
| TextEdit.SplitJoinIdentity | src/fsOps.ts:453-455 | joining with the old text gives the file back |
| TextEdit.EditAllSubstitutes | src/fsOps.ts:446-466 | a replace-all edit is accepted if and only if there are occurrences, as many as announced, and then substitutes all of them |
| TextEdit.EditOneSubstitutes | src/fsOps.ts:446-466 | a single-match edit is accepted if and only if there is one occurrence and no other count is announced; text without `$` escapes is substituted for it |
| TextEdit.SingleMatchIsLiteralIff | src/fsOps.ts:460-460 | the new text is inserted literally in every file if and only if it has no `$` escape |
| TextEdit.EscapeShows | src/fsOps.ts:460-460 | for each text with an escape, a file in which it is not inserted literally |
| SecretDelta.CountPrints | src/redact.ts:260-263 | the table built over the earlier findings is the multiset of their fingerprints |
| SecretDelta.FindIntroduced | src/redact.ts:255-274 | the loop over the count table returns, in order, the findings the counts do not account for |
| SecretDelta.IntroducedIsDifference | src/redact.ts:255-274 | for each fingerprint the number introduced is max(0, after - before) |
| SecretDelta.NothingIntroducedIff | src/redact.ts:255-274 | nothing is introduced if and only if no fingerprint's count rises |
| SecretDelta.NothingIntroducedTimes | src/redact.ts:255-274 | the same with each fingerprint counted in the findings themselves |
| FileStore.Workspace.WriteTextFile | src/fsOps.ts:392-430 | a write stores the content or changes nothing, and leaves the lease as it was; it fails if the file exists and may not be overwritten, is special, is not text or is above both limits, if the content is too large, or if a fingerprint is found in it more often than before; without an outside failure, and with the lease free or lent, it fails only for one of these reasons or a bad path, and the error names it |
| FileStore.Workspace.EditTextFile | src/fsOps.ts:432-478 | an edit stores the planned text or changes nothing, and leaves the lease as it was; it goes through only on a text file of readable size, with a planned text of allowed size in which no fingerprint is found more often; without an outside failure, and with the lease free or lent, it then always does |
| FileStore.Workspace.Preflight | src/compactExecution.ts:772-795 | every operation names a usable target of allowed size, and the contents found are kept unchanged for a rollback |
| FileStore.Workspace.ApplyOperation | src/compactExecution.ts:819-882 | one operation is carried out fully when reported ok and changes nothing otherwise, in which case, without an outside failure, it could not be carried out |
| FileStore.Workspace.ApplyPatchBundle | src/compactExecution.ts:765-932 | the files go through a sequence of states in which exactly the operations reported ok are carried out, in order; without an outside failure no other could have been; an error before that changes nothing; the status is that of the reports; the lease is released on every path |
| FileStore.ExistingIsKept | src/compactExecution.ts:819-845 | in a bundle, a write that may not overwrite is not reported ok where a file stands when its turn comes |
| FileStore.Workspace.PayloadAdds | src/compactExecution.ts:768-771 | the payload is the sum of the byte lengths of all contents, old texts and new texts |
| FileStore.RestoringUndoesBundle | src/compactExecution.ts:785-794 | restoring the touched paths to contents saved before, in any order, undoes the bundle |
| FileStore.SnapshotUndoesBundle | src/compactExecution.ts:772-795 | the snapshot of the preflight does so, where paths are resolved for writing as for reading |
| FileStore.GuardedMeaning | src/fsOps.ts:65-73 | no fingerprint count of a file rises, and a created file has no findings |
| FileStore.GuardedTransitive | src/fsOps.ts:65-73 | this holds over runs of writes and edits |
| FileStore.GuardedWrite | src/fsOps.ts:420-421 | every accepted write keeps it |
| FileStore.GuardedEdit | src/fsOps.ts:472-472 | every accepted edit keeps it |
| FileStore.CountsAddUp | src/compactExecution.ts:888-915 | succeeded and failed add up to the number of operations |
| Diff.CommonEnds | src/fsOps.ts:87-99 | the two scans find a common prefix and suffix that do not overlap and cannot be extended |
| Diff.EndsAreLongest | src/fsOps.ts:87-112 | no other single-block replacement with the same effect keeps more lines |
| Diff.MakeHunk | src/fsOps.ts:80-126 | the hunk turns the old lines into the new ones and back, its counts are right, and it deletes and adds as few lines as any single-block replacement |
| Diff.BuildHunk | src/fsOps.ts:101-119 | the hunk around any single-block replacement, with three lines of context or as many as there are, turns the old lines into the new ones and back |
| Diff.HunkMeans | src/fsOps.ts:114-119 | a header and marked lines that fit each other apply forwards and backwards |
| RangeReader.ReadLargeTextRange | src/fsOps.ts:237-301 | for LF and CRLF texts the stream returns what the whole-file reader returns, and raises the size error if and only if the selected lines joined by newlines exceed the limit |
| RangeReader.SplitOfWritten | src/fsOps.ts:53-55 | splitting a text gives back the lines it was written from, whichever of LF and CRLF ends each of them |
| RangeReader.ReadMeans | src/fsOps.ts:332-350 | a reading has exactly the lines asked for that the text has, fails exactly if there are none, and is called truncated exactly if the text has others |
| RangeReader.StreamedAgainstSplit | src/fsOps.ts:269-286 | the line reader misses exactly the empty line after a final newline and the only line of an empty text |
| RangeReader.Selection.Take | src/fsOps.ts:258-264 | the running byte count is the byte length of the selected lines joined by newlines |
| ContextBudget.Normalized | src/contextBudget.ts:41-66 | whatever numbers come in, the limits are within their bounds |
| ContextBudget.MergedMeans | src/contextBudget.ts:49-63 | a positive request counts before the project's positive value, and that before the default, when the project does not cap |
| ContextBudget.CapHoldsIff | src/contextBudget.ts:27-63 | in cap mode a limit respects the project's positive value if and only if the value is at least the least limit, and the request is no fraction between 0 and 1 or the default respects the value |
| ContextBudget.CapsFail | src/contextBudget.ts:49-63 | a cap of 10 lines is raised to 20, and one of 100 is lost to a request of half a line |
| ContextBudget.ClipLength | src/compactExecution.ts:165-168 | a clipped text is longer than its limit by at most 25 characters and the digits of the limit |
| ContextBudget.ClipTwice | src/compactExecution.ts:165-168 | clipping keeps the first characters and does nothing the second time |
| ContextBudget.ClampLineRange | src/compactExecution.ts:334-344 | the range starts where asked, has at most the allowed lines, and is capped if and only if more were asked for |
| ContextBudget.ReadManyFiles | src/compactExecution.ts:537-602 | it fails if and only if no input names a path; otherwise the first of the at most fifty named inputs have a result each, in order, until the characters are used up, and all others are skipped with the right reason; the total passes the limit by at most 527 characters, and with the last text only; the budget counts as exceeded if and only if an input was skipped or a result is clipped or cut to its lines |
| ContextBudget.InputsAre | src/compactExecution.ts:546-546 | the inputs are the first fifty requests that name a path |
| ContextBudget.ResultFits | src/compactExecution.ts:571-572 | one file takes at most 527 characters more than are left |
| ContextBudget.OverrunIsReached | src/compactExecution.ts:561-573 | two files reach the bound: the total passes the limit by exactly 527 characters |
| SearchBudget.BoundMatches | src/compactExecution.ts:689-700 | the kept matches are exactly those whose path is among the first distinct paths of the query, as many as allowed |
| SearchBudget.OneMoreMatch | src/compactExecution.ts:691-698 | one more match is kept, dropped or opens the next allowed file, and earlier decisions stand |
| SearchBudget.PathsInOrder | src/compactExecution.ts:689-700 | the distinct paths stand in the order of their first matches |
| SearchBudget.AnswerMeans | src/compactExecution.ts:680-717 | the answer to one query: skipped without characters, else exactly its matches in the allowed files, their text cut to what is left, and flagged exactly if something is missing |
| SearchBudget.AnswerQueries | src/compactExecution.ts:680-717 | every query has its answer in turn, the total passes the limit by at most 32 characters, and the budget counts as exceeded if and only if an answer was cut or skipped |
| SearchBudget.SpentIsBounded | src/compactExecution.ts:702-703 | the bound of 32 characters holds after every query |
| SearchBudget.OverrunIsReached | src/compactExecution.ts:702-703 | one long line reaches the bound of 32 characters |
| SessionPool.Pool.Prune | src/http.ts:1838-1852 | what stays was seen within the time to live; what goes was not, or the pool is full of sessions seen more recently, or as recently and inserted later; each transport that goes is closed |
| SessionPool.BestIsUnique | src/http.ts:1846-1851 | only one set of sessions meets this description |
| SessionPool.Pool.PruneExpired | src/http.ts:1840-1845 | deleting during the iteration leaves exactly the sessions seen within the time to live |
| SessionPool.Pool.GetTransport | src/http.ts:1854-1861 | a lookup answers if and only if the id is well formed and kept by the pruning, never with an expired session, and marks that session only as seen |
| SessionPool.Pool.Initialise | src/http.ts:2526-2534 | the new session survives its own pruning if no other was seen later and it has not expired meanwhile; the pool stays within its limit |
| SessionPool.Pool.TransportClosed | src/http.ts:2537-2540 | a transport that closes takes out its own session only |
| SessionPool.Pool.ClosedOnce | src/http.ts:1834-1836 | a pruned transport was closed exactly once and is no longer held |
| SessionPool.LatestIsBest | src/http.ts:2526-2534 | an unexpired entry stored last and seen no earlier than the others is always kept |
| RateLimiter.Limiter.Attempt | src/http.ts:1497-1513 | a request at or after the reset time is admitted and opens a window of 60,000 ms; one before it is counted, and admitted if fewer than 30 were; at most 60 of a key are admitted in any closed interval of 60,000 ms |
| RateLimiter.IntervalIsLimited | src/http.ts:1497-1513 | the bound of 60 for every ordered run and interval |
| RateLimiter.TwoBurstsAreAdmitted | src/http.ts:1501-1512 | 30 requests at the start of a window and 30 at its end are all admitted, so 60 in a closed interval is reached |
| RateLimiter.WindowIsLimited | src/http.ts:1501-1511 | at most 30 admissions since the window was opened |
| RateLimiter.RefusedIff | src/http.ts:1506-1511 | a request is refused if and only if its window is open and has admitted 30 |
| RateLimiter.KeysAreIndependent | src/http.ts:1499-1500 | requests of other keys change nothing for a key |
| EventStream.ListEvents | src/runtime/publicToolOutcomeStore.ts:197-232 | the pass over the log returns the first matching events after the cursor, whether there are more, and the last number returned |
| EventStream.StorePageIsPage | src/runtime/publicToolOutcomeStore.ts:223-232 | no matching event is skipped before the page's next number |
| EventStream.PageMeans | src/runtime/publicToolOutcomeStore.ts:197-232 | a page holds, in increasing order, exactly the events with the task id asked for, or with any when none is, after the cursor and up to its next number, at most as many as asked for; it says that there are more exactly if an event is left |
| EventStream.AfterHas | src/runtime/publicToolOutcomeStore.ts:213-219 | listed after a number are exactly the logged events with that task id, or with any when none is asked for, and a higher one |
| EventStream.Stream.Poll | src/http.ts:2114-2139 | every poll keeps the stream exact on a growing log; an open stream within its age limit asks, and with the store's pages it asks once, writes exactly that page unless the client has gone or the request failed, and leaves the cursor at its last event |
| EventStream.Stream.PollRepeatedly | src/http.ts:2114-2146 | n polls of a log that stays as it is, with the store's pages and no failure, write its next min(100n, all) matching events, so the stream catches up |
| EventStream.AfterRest | src/runtime/publicToolOutcomeStore.ts:202-223 | asking again from the last number of a page gives exactly what the page left |
| EventStream.Stream.WritePage | src/http.ts:2126-2129 | writing a page extends what was written by exactly its events |
| EventStream.WrittenAreTheMatching | src/http.ts:2124-2133 | written are exactly the matching events between start and cursor, once each, in increasing order |
| EventStream.WithoutNumberNothingIsMissed | src/http.ts:2093-2095 | a client that sends no valid number receives every event with its task id up to the cursor, from number one on |
| EventStream.ResumingIsSeamlessIff | src/http.ts:2093-2095 | reconnecting with the last id received is seamless if and only if nothing matching is written again from the query's number up to that id, and nothing matching lies between that id and the number |
| EventStream.ResumingIsSeamless | src/http.ts:2093-2095 | without a valid number in the query the concatenation has no gap and no duplicate |
| EventStream.SameQueryRepeats | src/http.ts:2093-2095 | with the first number still in the query, every event received is written again |
| EventStream.AppendKeepsOrder | src/runtime/publicToolOutcomeStore.ts:139-144 | numbering an event above all used ones keeps the log in order, and leaves what lies below the cursor unchanged |
| EventStream.BetweenIsStable | src/runtime/publicToolOutcomeStore.ts:202-222 | events with higher numbers do not change what is listed below the cursor |
| PathGuard.Resolve | src/guard.ts:285-340 | a path is answered, with exactly one result, if and only if it or what it leads to lies inside the root and the rules block neither that, nor its real path, nor for a write what exists of it; every answer is safe, every error has its cause, a blocked target or real path is reported as blocked, and nothing is when the rules block nothing |
| PathGuard.Workspace.TargetIsSafe | src/guard.ts:285-340 | an answered path is the root joined with the relative path, which the rules do not block; its real path is under the root and not blocked there; for a write, so is the real path of its nearest existing ancestor, and no link stands where the file would be |
| PathGuard.Workspace.TargetIsTheSame | src/guard.ts:292-310 | an existing path is answered with one that leads to the same place |
| PathGuard.Workspace.ReadsAndWritesAgree | src/guard.ts:292-310 | a name that can be read resolves to the same path for writing |
| PathGuard.Workspace.PlainPathIsReadIff | src/guard.ts:40-43 | a real, unblocked path below the root can be read if and only if its first name does not start with two dots |
| PathGuard.IsSubpathIff | src/guard.ts:40-43 | the test accepts exactly the descendants whose first relative name does not start with two dots |
| PathGuard.ResolvedCancels | src/guard.ts:286-288 | joining drops empty components and dots, and two dots take back the name before them |
| PathGuard.LinkIsFollowed | src/guard.ts:60-66 | a link leads where its target leads, read from the root or from the folder it is in |
| PathGuard.RealOfReal | src/guard.ts:289-295 | resolving links is idempotent |
| PathGuard.ClosestExistingParent | src/guard.ts:151-159 | the loop finds the longest existing prefix |
| PathGuard.Nearest | src/guard.ts:151-159 | that prefix exists and no longer one does |
| Literals.ScanLiterals | src/redact.ts:160-188 | the two nested index loops compute the spans the lemmas are about, on every text |
| Literals.SpansAreWellPlaced | src/redact.ts:160-188 | the spans are in the text, in order and disjoint, and begin and end with the same quote |
| Literals.PlacedApart | src/redact.ts:160-188 | the same for any two spans |
| Literals.QuotedStringsAreFound | src/redact.ts:160-188 | JSON-quoted strings between quote-free gaps are found at exactly their places |
| Literals.QuotedIsFound | src/redact.ts:160-188 | a literal in single or double quotes is found whole |
| Literals.OpenIsSkipped | src/redact.ts:160-188 | one that a line end leaves open is skipped with its text |
| Literals.DecodeOfStringify | src/redact.ts:126-151 | decoding a JSON-quoted string gives it back, unpaired surrogates included |
| Literals.FixedEscape | src/redact.ts:126-136 | two hexadecimal digits of either case after `\x`, and four after `\u`, decode to the code unit they write |
| Literals.BracedEscape | src/redact.ts:126-136 | one to six digits in braces decode to the UTF-16 code units of their code point, and to nothing beyond the last one |
| Literals.LetterEscape | src/redact.ts:137-150 | the ten escapes of one character decode to their control characters or themselves |
| Literals.OtherBackslash | src/redact.ts:128-130 | a backslash before any other character stands for itself |
| Literals.FoundAndDecoded | src/redact.ts:126-188 | in such a text each string is found once, in order, and decodes to itself |
| Literals.ConcatenationRuns | src/redact.ts:220-235 | the grouping loops compute the runs the lemmas are about |
| Literals.RunsAreLongest | src/redact.ts:220-235 | a run is a longest stretch of at least two literals joined by plus signs |
| Literals.PlusJoins | src/redact.ts:220-235 | a plus sign between any white space joins two literals |
| Literals.OnlyPlusJoins | src/redact.ts:220-235 | nothing else does |
| Literals.EveryRunIsFound | src/redact.ts:220-235 | every such stretch is found |
| Literals.JoinedPiecesAreDecoded | src/redact.ts:220-235 | a string cut into quoted pieces joined by plus signs is found as one run and decodes to the pieces put together |

## Left out

- Command safety: the parser, the blocked patterns and the check of executables are uninterpreted functions; the script table does not change during a command, and names a JavaScript object inherits (such as `constructor`) are not script names. The checks made on the command before compilation, and standard output and error, are not part of this model.
- Search: the ripgrep backend is not modelled, because its per-file limit is shared by all queries. A path that stops resolving while it is scanned, the walk's interleaving with outside changes, and the diagnostics counters are left out.
- Validation: the choice of nodes by glob, the plan hash (one hash per run id), explicit commands, logs and the reading of a damaged state file are left out; a process that goes on after its partner in a chunk threw is not followed.
- Files: partial writes, and other writers while an operation runs, are left out; a bundle operation carries only the fields of its kind. Releasing the write lease always succeeds; in the program it can throw after the files have changed.
- FileStore.SnapshotUndoesBundle: that a path resolves for writing as it does for reading is a hypothesis here; PathGuard.Workspace.ReadsAndWritesAgree has it for one tree.
- Diff: truncation and redaction of the finished text are left out.
- RangeReader.ReadLargeTextRange: texts with a lone CR or with U+2028 or U+2029 are excluded, because the library's line rules differ from the split there; texts are sequences of characters, decoding and digests are left out.
- ContextBudget.ReadManyFiles: the text of sections and advice is left out.
- ContextBudget.ClipLength: a text is a sequence of characters here, while the program counts UTF-16 code units and may cut between the two of a pair; the bounds hold for either unit, but which texts are clipped can differ. The same goes for the lengths in SearchBudget.
- SearchBudget.AnswerQueries: the branch for a search that failed as a whole, and the advice, are left out.
- SessionPool.Pool.Initialise: session ids and transports are new, as random identifiers are.
- EventStream.Stream.Poll: heartbeats and the text of error messages are left out; an event file that cannot be read is not modelled, and a log is read as of one moment.
- PathGuard.Resolve: one tree is looked at throughout, so changes between the checks are not seen; the home directory is expanded before, paths have POSIX form, and the tree's links are followed at most forty at a time.
- Literals: what is done with the decoded text (the secret patterns) is left out.
- Routing, authentication, the user interface, configuration files, git and profile storage, the durable task engine and the browser extension are left out: they are input and output or flat decisions.
