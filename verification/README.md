# Verified models of the agent's core protocols

This project models, in Dafny, the parts of the repository whose correctness spans
whole runs, and proves what they are for. Each component is one module (a large one
is split into a model and its proofs):

| component | modules |
|---|---|
| planner of tool batches | `ParallelSafety` |
| batch-aware tool node | `SafeToolNode` (calls, interleavings, serializability), `BatchNode` (planner and node together), `BatchCalls` (the same from the calls as written) |
| graph cache and leases | `GraphLease` (one event loop), `GraphLeaseThreads` (micro-steps of several threads), `GraphLeaseGuard` (when the threads are safe, and how one loop is a case of them) |
| transcript repair | `Transcript` (operations), `TranscriptRuns` (their laws over runs), `TranscriptHeal` (what a healed transcript says) |
| search | `SearchQuery` (LIKE patterns, trigram query, strategies), `QuerySanitizer` (the sanitizer), `SanitizerPieces`, `SanitizerRestore`, `SanitizerSteps`, `SanitizerProofs`, `SanitizerTidy`, `SanitizerWords` |
| `.models` migration | `ModelsFile` (document model and passes), `ModelsMigration` (the settings), `ModelsPlaces` (where lines go) |
| resumable download | `Downloader` |
| message bus and its consumers | `MessageBus` |
| lazy construction | `LazyInstance` |
| log size sweep | `LogSweep` |

`Wrappers` and `PyString` hold the option and result types and the string operations
of the library. Code that updates state in place is a class or a method with loops,
proved equal to a specification function; the laws are lemmas about that function.
Concurrency is a state machine over steps: the theorems quantify over every list of
steps that can run. `dafny verify dfyconfig.toml` checks everything.

How the main models read:

- **Batches.** A call is a list of accesses to a store keyed by path; which path an
  access goes to and what it writes may depend on everything the call read before. A
  footprint says which paths a call may touch and which it may write. The two forms
  of the node become lanes - lists of calls that run in order, lanes running freely
  against each other - and a run is any interleaving of single accesses.
- **Leases.** Graphs are numbered in the order they are built. On one loop a step is
  what runs between two suspensions. Between threads every gap between a lock and the
  next read or close is a step of its own, and a graph counts as closed when its close
  is called.
- **Transcripts.** The checkpoint is a list of messages; its reducer replaces by id,
  appends, or removes by id. Runs are any mix of appends, heals, restores and
  truncations.
- **Sanitizer.** Strings of characters, step by step as in the code. `ext` says which
  characters beyond ASCII are word characters.
- **Migration.** A document is a list of lines: brace, assignment with or without
  comma, whole-line comment, blank; `Parse` gives its map, or nothing. `asInt` is the
  integer a string value reads as.
- **Download.** The server is an adversary that picks a status and the byte the
  transfer breaks at, within sections 14.2, 15.3.7 and 15.5.17 of RFC 9110, for a
  fixed content.

## What the proofs found

- **A search beside a write is not serializable.** The planner lets every read-only
  tool run beside anything, and `search_files` reads files. The batch is serializable
  for every behaviour of its calls exactly when the planner raised the barrier or no
  safe call conflicts with another call (`BatchNode.BatchIsSerializable`, and from
  names, paths and metadata `BatchCalls.CallsAreSerializable`);
  `BatchNode.SearchRacesWrite` is the smallest batch that is not. Without that
  condition the files and the outputs of the file calls are still the serial ones, as
  long as safe calls only read (`BatchNode.FilesStaySerial`).
- **Sanitizer placeholders can collide with the query.** A piece of bare text between
  two phrases that reads `Q` and the number of an earlier phrase is taken for that
  phrase's placeholder, and a NUL stays in the result.
  `SanitizerProofs.PhrasesSurviveIffNoCollision` gives the exact condition on the
  capped query, `SanitizerProofs.CollidingQuery` the query `"a""b"Q0"c"`. Such a
  query can also gain a wildcard (`SanitizerTidy.CollisionAddsStar`).
- **Between threads a held graph can be closed, and a graph closed twice**
  (`GraphLeaseThreads.HeldGraphClosed`, `GraphClosedTwice`, `ReleaseClosesHeldGraph`).
  Neither happens on any run in which, whenever a thread decides that a graph is to be
  closed, no other thread is concerned with it (`GraphLeaseGuard.GuardedRunsAreSafe`),
  and any decision that breaks this can be continued to one or the other
  (`GraphLeaseGuard.UnguardedCanBreak`). Running each window between two suspensions
  without interruption, as one event loop does, always meets it
  (`GraphLeaseGuard.OneLoopIsSafe`). Under every interleaving nothing leaks.
- **An inbound callback that raises ends the inbound consumer for good**
  (channels/manager.py:111): over every run a consumer has stopped exactly when it was
  cancelled or, inbound, a callback raised (`MessageBus.StoppedExactly`), and the
  message is lost (`MessageBus.InboundErrorLosesMessage`, `InboundErrorHappens`).
- **Truncating at a later turn first** makes no difference exactly when the second turn
  number is at least 1 or there is no later turn (`TranscriptRuns.TruncateComposes`);
  a number below 1 never matches (agent/state_port.py:350-355).
- **Reminders stay.** The docstring counts internal reminders to the turn they precede
  (agent/state_port.py:323-325); a truncation takes a turn's reminders along exactly
  when it has none (`TranscriptRuns.RemindersStay`, `ReminderOutlivesTurn`).
- **`destructive` does not override the read-only list**, although
  wiki/tool-parallel-safety/README.md:18 says it overrides every allow declaration: a
  destructive tool is safe exactly when it is on the list
  (`ParallelSafety.DestructiveUnlessListed`, `DestructiveYetSafe`). The model follows
  the code in all of these.

## Model

| member | source | states |
|---|---|---|
| ParallelSafety.PlanBatch | agent/tools/parallel_safety.py:153-209 | the plan keeps its documented contract for every batch: barrier exactly when a file call has no path that resolves or another call is neither read-only nor declared free of side effects, then the whole batch as one ordered group; otherwise two calls share a group exactly when they name one file, and a group runs in order exactly when one of its calls is `write_file` or `patch_file`, groups sorted by first call |
| ParallelSafety.ListGroups | agent/tools/parallel_safety.py:203-207 | the dictionaries give exactly the groups in order of first appearance, then the safe calls |
| ParallelSafety.SortedRawIsPlan | agent/tools/parallel_safety.py:203-209 | sorting those groups by first call meets the contract |
| ParallelSafety.GroupAtSound | agent/tools/parallel_safety.py:160-163 | a call is in the group of its path, every member of a group has that same group, and members are in call order |
| ParallelSafety.PlanIsDetermined | agent/tools/parallel_safety.py:158-165 | the contract leaves nothing open: two plans that meet it are equal |
| ParallelSafety.KindOfCall | agent/tools/parallel_safety.py:118-150 | what the planner learns about a call is what its name, its path and its tool's metadata say: written exactly by `write_file` and `patch_file` |
| ParallelSafety.PlanIsOfCalls | agent/tools/parallel_safety.py:158-165 | every plan that meets the contract has its barrier and groups as the names, paths and metadata of the calls say, without the planner's classification |
| ParallelSafety.DistinctPathsInOrder | agent/tools/parallel_safety.py:184-190 | the reported paths stand in order of first appearance |
| ParallelSafety.DestructiveUnlessListed | agent/tools/parallel_safety.py:139-150 | a destructive tool is safe exactly when it is on the read-only list, and a batch of destructive non-file calls has no barrier exactly when all are listed |
| ParallelSafety.DestructiveYetSafe | agent/tools/parallel_safety.py:141-147 | a tool that calls itself destructive and raises no barrier |
| SafeToolNode.StepsCommute | agent/safe_tool_node.py:5-8 | single accesses of calls whose footprints do not conflict commute, in the store and in what both calls read |
| SafeToolNode.MoveKeepsSerial | agent/safe_tool_node.py:75-82 | an access that no earlier unfinished call conflicts with does not change how the one-after-another run ends |
| SafeToolNode.RunKeepsSerial | agent/safe_tool_node.py:75-82 | the same over every run |
| SafeToolNode.OrderedIsSerializable | agent/safe_tool_node.py:75-88 | when conflicting calls are ordered, every complete interleaving leaves the store and outputs of the calls run one after another |
| SafeToolNode.UnorderedIsNotSerializable | agent/safe_tool_node.py:75-82 | two conflicting calls left unordered can behave so that some interleaving ends differently |
| SafeToolNode.SerializableIffOrdered | agent/safe_tool_node.py:75-88 | a schedule is serializable for every behaviour of its calls exactly when it orders every conflicting pair |
| BatchNode.FormsOrderAlike | agent/safe_tool_node.py:75-82 | the event-loop form and the thread-pool form order exactly the pairs the plan orders |
| BatchNode.EveryCallOnce | agent/safe_tool_node.py:118-138 | under both forms every call of the batch runs exactly once and nothing else runs |
| BatchNode.PlanPartitions | agent/tools/parallel_safety.py:203-209 | the groups of a plan partition the batch |
| BatchNode.PlanOrdersConflicts | agent/tools/parallel_safety.py:160-164 | the plan orders every conflicting pair exactly when it raised the barrier or the safe calls are isolated |
| BatchNode.BatchIsSerializable | agent/safe_tool_node.py:75-88 | end to end: for every batch both forms leave the files and outputs of the calls run in order, exactly when the planner raised the barrier or the safe calls are isolated |
| BatchNode.SearchRacesWrite | agent/tools/parallel_safety.py:33-61 | `search_files` beside `write_file` is planned without order and is not serializable |
| BatchNode.FilesStaySerial | agent/safe_tool_node.py:75-88 | when safe calls only read, files and file calls come out as in the run in order whatever the safe calls overlap with |
| BatchNode.BatchCompletes | agent/safe_tool_node.py:80-82 | no interleaving gets stuck: every state completes after exactly the accesses left |
| BatchNode.RunGroup | agent/safe_tool_node.py:75-78 | a group returns every output with its own call's index |
| BatchNode.Merge | agent/safe_tool_node.py:83-86 | adding a group's pairs to the dictionary adds exactly its indices, each with its own output |
| BatchNode.ReadBack | agent/safe_tool_node.py:87-87 | the list read back is the dictionary at 0 to n-1, or the lookup fails at a missing index |
| BatchNode.AsyncOutputs | agent/safe_tool_node.py:80-88 | the event-loop form returns the outputs in call order, or fails at a call no group lists |
| BatchNode.Submit | agent/safe_tool_node.py:119-136 | single futures are exactly the calls of concurrent groups, group futures exactly the ordered groups |
| BatchNode.PoolOutputs | agent/safe_tool_node.py:118-144 | the thread-pool form meets the same specification as the event-loop form |
| BatchNode.PlanNeverMissesAnOutput | agent/safe_tool_node.py:139-143 | for every plan the final lookup finds every index, in both forms |
| BatchNode.NodeReturnsSerialOutputs | agent/safe_tool_node.py:80-88 | planner, interleaving and collection together: over every complete run of either form the list returned is the outputs of the calls run one after another, and the files are theirs |
| BatchCalls.OrdersExactlyAroundWrites | agent/tools/parallel_safety.py:160-163 | a plan without a barrier orders two calls exactly when they name one file and some call of the batch writes it |
| BatchCalls.CallsAreSerializable | agent/safe_tool_node.py:75-88 | from the calls as written, `read_file` only reading and the two write tools writing their one file: both forms end like the calls run in order, for every behaviour and interleaving, exactly when some call stops the batch or the other calls share no written path |
| BatchCalls.FileCallsStaySerial | agent/safe_tool_node.py:75-88 | when the calls that are no file calls only read, the files and the outputs of the file calls are those of the run in order |
| BatchCalls.CallsReturnSerialOutputs | agent/safe_tool_node.py:80-88 | planner, interleaving and collection together, from the calls as written |
| BatchCalls.AsyncNode | agent/safe_tool_node.py:55-88 | the event-loop form as a whole returns the outputs of the calls run one after another |
| BatchCalls.PoolNode | agent/safe_tool_node.py:90-144 | so does the thread-pool form |
| GraphLease.AgentCache.HoldAgent | agent/core.py:183-188 | one more holder of that graph, nothing else changes |
| GraphLease.AgentCache.ReleaseAgent | agent/core.py:191-208 | one holder less; the last one closes the graph unless it is cached |
| GraphLease.AgentCache.CheckCache | agent/core.py:545-558 | up to the suspension: the cached graph exactly for an unforced call on the loop it was built on, else the graph the build is to replace |
| GraphLease.AgentCache.FinishBuild | agent/core.py:558-572 | after the suspension, whatever was held or released meanwhile: a new graph cached and the old one closed when nobody holds it; a failing build changes nothing |
| GraphLease.AgentCache.BuiltAgent | agent/core.py:518-572 | both parts, for a build that succeeds or fails: an unforced call on the loop of the cached graph returns it and changes nothing, any other builds a new one; a graph handed out is on the caller's loop |
| GraphLease.AgentCache.EnterLease | agent/core.py:238-252 | build and hold are one step: the leased graph is the cached one, is held and is on the caller's loop |
| GraphLease.StepKeepsInv | agent/core.py:183-208 | every step, builds without a lease included, keeps: holder counts are the leases out, and each built graph is cached, replaced but held, or closed once |
| GraphLease.LeasesAreSafe | agent/core.py:238-252 | over every run no leased graph and no cached graph is closed, and each built graph is exactly one of cached, replaced but held, or closed - once |
| GraphLease.OpenGraphsAreBounded | agent/core.py:567-570 | over every run at most one graph beyond the outstanding leases is open |
| GraphLease.GraphsStayOnTheirLoop | agent/core.py:530-548 | over every run whoever gets a graph, new or cached, leased or not, gets one built on its own loop; an unforced caller reuses instead of building exactly when the last graph was built on its loop, and a forced one can always build |
| GraphLeaseThreads.StepKeepsInv | agent/core.py:199-208 | every micro-step keeps: an unclosed graph is cached, held, or some thread is still going to look at it |
| GraphLeaseThreads.NothingLeaks | agent/core.py:567-570 | under every interleaving, once no thread is mid-step, a replaced graph nobody uses has been closed |
| GraphLeaseThreads.HeldGraphClosed | agent/core.py:247-248 | a run in which a rebuild closes a graph before its hold is registered |
| GraphLeaseThreads.GraphClosedTwice | agent/core.py:206-208 | a run that closes one graph twice |
| GraphLeaseThreads.ReleaseClosesHeldGraph | agent/core.py:199-208 | a run in which a release closes a graph another thread holds, every hold having been registered in time |
| GraphLeaseGuard.GuardedRunsAreSafe | agent/core.py:199-208 | over every run whose decisions to close meet the guard, no graph in somebody's hands is closed and none is closed twice |
| GraphLeaseGuard.UnguardedCanBreak | agent/core.py:206-208 | from every reachable state a decision that breaks the guard can be continued to a held graph that is closed, or to a graph closed twice |
| GraphLeaseGuard.OneLoopIsSafe | agent/core.py:247-248 | runs whose windows are never interrupted, as on one event loop, meet the guard and so never break |
| GraphLeaseGuard.LeaseIsOneWindow | agent/core.py:546-547 | leasing the cached graph is one such window, with the effect the one-loop model gives it |
| GraphLeaseGuard.BuildEndIsOneWindow | agent/core.py:558-572 | so is the end of a build with its hold |
| GraphLeaseGuard.ReleaseIsOneWindow | agent/core.py:191-208 | so is a release |
| Transcript.FindSound | agent/state_port.py:147-151 | the reducer's index finds an id exactly when some message has it |
| Transcript.Checkpoint.Update | agent/state_port.py:206-206 | one commit upserts its messages by id, in order |
| Transcript.Checkpoint.HealInterruptedTurn | agent/state_port.py:170-217 | the heal's new state and report: nothing when the marker is there, else placeholders and marker in one commit |
| Transcript.HealTrailingToolCalls | agent/state_port.py:235-266 | the scans give one placeholder for each identified, unanswered call of the last AI message, in call order |
| Transcript.Checkpoint.RestoreInterruptMarker | agent/state_port.py:292-301 | false and no change without the id, else the message is replaced |
| Transcript.Checkpoint.TruncateAfterTurn | agent/state_port.py:342-367 | the scan's cut, the removed ids and the count returned |
| Transcript.TurnStartSound | agent/state_port.py:342-355 | turn k starts at a non-internal human message with k-1 of them before it; there is none exactly when k is below 1 or there are fewer |
| TranscriptRuns.CallNamesSound | agent/state_port.py:246-248 | the call dictionary's keys are exactly the identified calls, each once |
| TranscriptRuns.HealAppends | agent/state_port.py:197-206 | a heal that writes leaves the old transcript as an untouched prefix, then the placeholders, then the marker - last, and nowhere else |
| TranscriptHeal.HealKeepsTheAnswer | agent/state_port.py:192-206 | a heal that writes leaves as last message of any transcript an AI message without calls, marked with the reason, that reads `[interrupted] ` and the partial answer without trailing white space, or `[interrupted]` alone when there is no answer |
| TranscriptHeal.PlaceholdersExactly | agent/state_port.py:246-266 | the placeholders are for exactly the identified calls of the last AI message that no later tool message answers, in order of first appearance, each with the name given last or `unknown` and the text for a missing result |
| TranscriptHeal.NoPlaceholders | agent/state_port.py:240-241 | without an AI message there are none |
| TranscriptRuns.HealAnswersEveryCall | agent/state_port.py:252-266 | after it every identified call of the last AI message has a tool answer behind it |
| TranscriptRuns.NothingLeftToHeal | agent/state_port.py:257-266 | with its placeholders appended a transcript needs none, marker or not |
| TranscriptRuns.HealIsIdempotent | agent/state_port.py:180-190 | a second heal finds the marker and changes nothing |
| TranscriptRuns.RepeatIffMarkerSinceLastHuman | agent/state_port.py:174-180 | a heal is taken for a repeat exactly when a marker has no human message behind it |
| TranscriptRuns.RestoreReplacesOne | agent/state_port.py:294-300 | a restore replaces exactly the message with that id, in place |
| TranscriptRuns.HealThenRestore | agent/state_port.py:276-284 | heal, then restore: the original transcript, the placeholders and one clean AI message under the marker's id |
| TranscriptRuns.TruncateCuts | agent/state_port.py:354-367 | a cut leaves what stands before turn k and what has no id; -1 and no change exactly when there is no such turn |
| TranscriptRuns.TruncateLeavesPrefix | agent/state_port.py:357-367 | in a reachable transcript exactly the prefix stays, with k-1 turns, and the count is what was cut |
| TranscriptRuns.TruncateComposes | agent/state_port.py:342-367 | for every k <= j, truncating at turn j and then at k is truncating at k if and only if k is at least 1 or there is no turn j |
| TranscriptRuns.TurnZeroDoesNotCompose | agent/state_port.py:350-355 | a one-turn transcript that turn 1 then turn 0 empties and turn 0 alone leaves |
| TranscriptRuns.RemindersStay | agent/state_port.py:323-325 | truncating at a turn leaves the prefix before its reminders exactly when it has none; otherwise every one of them stays |
| TranscriptRuns.ReminderOutlivesTurn | agent/state_port.py:342-362 | a transcript of a reminder and the only turn: the reminder is left |
| TranscriptRuns.RestoreAfterTruncate | agent/state_port.py:286-295 | once a truncation removed a marker, restoring it is refused and changes nothing |
| TranscriptRuns.StepKeepsInv | agent/state_port.py:174-178 | append, heal, restore and truncate keep ids distinct and marker n after exactly n human messages |
| TranscriptRuns.NewSessionIsSound | agent/state_port.py:174-190 | so over every run of a new session |
| SearchQuery.EscapeIsEach | context_engine/core.py:275-275 | the three successive replaces escape each special character once: no pass touches what an earlier one inserted |
| SearchQuery.OperatorsInAnyCase | context_engine/core.py:193-193 | the operator test holds exactly of AND, OR and NOT in any case |
| SearchQuery.RawQueryIsBetween | context_engine/core.py:188-188 | the text searched is what stands between the outer quotes and the white space inside them |
| SearchQuery.LikeTermsSound | context_engine/core.py:264-266 | the terms are the words that are no operators, or else the whole query |
| SearchQuery.PatternMatchesSubstring | context_engine/core.py:274-279 | for every token and text the pattern matches under LIKE with escape `\` (section 8.5 of SQL-92) exactly when the token is a substring, up to the comparison's case folding |
| SearchQuery.LikePatterns | context_engine/core.py:264-279 | the fallback prints one pattern for each non-operator token, or for the whole query |
| SearchQuery.FallbackFindsSubstrings | context_engine/core.py:264-280 | the fallback finds exactly the texts that contain a word of the query other than AND, OR and NOT in any case, or the whole query when it has no other word |
| SearchQuery.TrigramQuery | context_engine/core.py:201-209 | the printed query is the tokens, operators bare and everything else quoted, joined by spaces |
| SearchQuery.PrintedReadsBack | context_engine/core.py:203-209 | a lexer of FTS5 strings (SQLite FTS5 documentation, section 3.1) reads the printed query back as exactly the original tokens, operators bare |
| SearchQuery.ExactlyOneStrategy | context_engine/core.py:186-195 | exactly one of the three strategies matches any query |
| SearchQuery.OrderNeverMatters | context_engine/core.py:355-359 | so any list that holds the matching strategy selects it, whatever its order and fallback |
| SearchQuery.StrategyOfQuery | context_engine/core.py:186-195 | which strategy the program selects: full text without CJK; trigrams when the query has three CJK characters and so has each of its words with any that is no operator; the fallback otherwise |
| SearchQuery.CountIsNumber | pub/func/cjk.py:29-31 | the count is the number of CJK characters |
| QuerySanitizer.CapQuery | context_engine/core.py:110-119 | the loop computes the capped query |
| QuerySanitizer.Sanitize | context_engine/core.py:93-155 | the whole function: caps, protection, steps 2 to 5, one replacement pass for each phrase, final strip; what the steps mean is in `SanitizerTidy` and `SanitizerWords` |
| SanitizerProofs.CapsHold | context_engine/core.py:110-119 | split again, the capped query has at most the allowed tokens, characters per token and tokens with a star |
| SanitizerProofs.CapsEachToken | context_engine/core.py:112-118 | each token is itself, without its stars when enough tokens before it have one, cut to the length |
| SanitizerProofs.CappedSplits | context_engine/core.py:110-119 | split again, the capped query is the first tokens so treated, less the empty ones |
| SanitizerProofs.CappedFits | context_engine/core.py:110-119 | its length is at most N*T + N - 1 |
| SanitizerProofs.CappedKeepsTokens | context_engine/core.py:110-119 | the caps cut nothing from a query that meets them |
| SanitizerPieces.TextOfPieces | context_engine/core.py:122-128 | bare pieces and phrases in turn are the capped query itself |
| SanitizerPieces.BaresHoldNoPhrase | context_engine/core.py:128-128 | no phrase is left outside: only the last piece can have a quote, and one at most |
| SanitizerPieces.PieceWall | context_engine/core.py:130-136 | steps 2 and 3 never look across a placeholder |
| SanitizerPieces.QuoteTermsWall | context_engine/core.py:149-149 | nor does step 5 |
| SanitizerPieces.OpsByPiece | context_engine/core.py:140-141 | step 4 edits only the text before the first and behind the last placeholder |
| SanitizerPieces.CleanedByPiece | context_engine/core.py:130-149 | steps 2 to 5 on the protected text are the same steps on each piece alone, and every placeholder comes out as it went in |
| SanitizerPieces.InnerLabels | context_engine/core.py:130-149 | a piece between two placeholders comes out as the text of a label exactly when it was that text before |
| SanitizerRestore.NoMatch | context_engine/core.py:152-153 | a replacement pass without a placeholder or piece to match changes nothing |
| SanitizerRestore.MatchGoesAstray | context_engine/core.py:152-153 | a pass that also matches a piece puts a phrase behind an odd number of NULs |
| SanitizerRestore.StrayStays | context_engine/core.py:152-153 | no later pass mends that |
| SanitizerRestore.Passes | context_engine/core.py:152-153 | after i passes the first i phrases are in their places, unless one of their labels is also the text of a later piece |
| SanitizerSteps.InnerKeepsText | context_engine/core.py:130-149 | between two phrases no word is lost: all characters but white space, stars and specials come out in order |
| SanitizerSteps.FirstKeepsText | context_engine/core.py:140-140 | before the first phrase at most one leading operator is lost |
| SanitizerSteps.LastKeepsText | context_engine/core.py:141-141 | behind the last phrase at most one trailing operator is lost |
| SanitizerSteps.CleanedKeepsText | context_engine/core.py:130-149 | without phrases at most one operator is lost at either end |
| SanitizerSteps.PieceTiesStars | context_engine/core.py:133-136 | behind step 3 no star stands at the start or behind white space |
| SanitizerSteps.ExactlyTheTerms | context_engine/core.py:143-149 | step 5 quotes whole joined terms only, and leaves none unquoted |
| SanitizerTidy.PieceIsTidy | context_engine/core.py:130-136 | the three substitutions of steps 2 and 3 are one pass: a special becomes a blank, a star stays only behind a character that is neither star nor white space nor special |
| SanitizerTidy.MarksActLikeBlanks | context_engine/core.py:131-131 | outside the phrases a special character acts exactly like a blank through all steps |
| SanitizerTidy.NoStarIsAdded | context_engine/core.py:130-155 | the result has no more stars than the capped query, when no piece collides with a placeholder |
| SanitizerTidy.CleanedAddsNoStar | context_engine/core.py:130-149 | steps 2 to 5 add no star to any text |
| SanitizerTidy.CollisionAddsStar | context_engine/core.py:122-153 | a query with one star whose result has two, a colliding phrase coming back twice |
| SanitizerTidy.QuotesLongestTerm | context_engine/core.py:143-149 | at a word start step 5 matches the longest term: word characters and single dots or hyphens between them, with a dot, hyphen or underscore inside; and nothing exactly when none starts there |
| SanitizerTidy.QuotesExactlyTerms | context_engine/core.py:143-149 | what step 5 quotes are such terms, and none starts at a word start outside the quotes |
| SanitizerTidy.JoinedWordsAreQuoted | context_engine/core.py:143-149 | two words of letters, digits and underscores joined by a dot, a hyphen or an underscore are quoted as one |
| SanitizerWords.UnquoteTerms | context_engine/core.py:149-149 | taking out the quotes of step 5 gives its input back |
| SanitizerWords.WordsOfQuery | context_engine/core.py:93-155 | for every query without quotes: without the quotes of step 5 the result splits into the words of the capped query - the runs of characters neither white space nor special - with loose stars gone, less one leading and one trailing operator |
| SanitizerWords.WordsOfPlainQuery | context_engine/core.py:93-155 | without stars too: exactly those runs, less the two operators |
| SanitizerWords.WordsBetweenPhrases | context_engine/core.py:93-155 | for a query with phrases that does not collide: the phrases verbatim, and between them the words of the pieces, an operator lost only in front of the first phrase and behind the last |
| SanitizerProofs.CleanBaresSound | context_engine/core.py:130-149 | every cleaned piece has no specials but paired quotes and no `**`, the ends have no white space, and the text grows by two quotes for at most every third character |
| SanitizerProofs.PhrasesSurviveIffNoCollision | context_engine/core.py:93-155 | for every query without NUL: the result is clean text with exactly the phrases of the capped query, verbatim and in order, no longer than L + 2*(L/3), if and only if no piece collides with a placeholder; and then it is the cleaned pieces and the phrases in turn |
| SanitizerProofs.CollidingQuery | context_engine/core.py:122-153 | a query of eleven characters that breaks the promise |
| ModelsFile.File.EnsureContextWindowFloor | config/models_settings.py:379-413 | the line rewrite of exactly the legacy floor values |
| ModelsFile.File.EnsurePricingTableKey | config/models_settings.py:436-461 | the insertion behind the opening brace, when the key is absent |
| ModelsFile.File.EnsureOptionalFamilyKeys | config/models_settings.py:468-509 | the family blocks behind the opening brace, for families without any key |
| ModelsFile.File.EnsureOutputCapKeys | config/models_settings.py:522-562 | the in-place insertions behind each family's anchor line |
| ModelsFile.File.EnsurePenaltyKeys | config/models_settings.py:575-629 | the same for the missing penalties |
| ModelsFile.File.EnsureModelsConfig | config/models_settings.py:337-343 | the five passes in order |
| ModelsMigration.InsertGains | config/models_settings.py:551-557 | inserting lines behind an assignment, with the comma it may need, parses to exactly the keys added |
| ModelsMigration.MigrationIsSound | config/models_settings.py:327-343 | a document that parses still parses, keeps every key and value but a legacy floor (which becomes 200000), and gains exactly the missing keys that belong; any other document is left alone |
| ModelsMigration.SettingsAfterMigration | config/models_settings.py:371-631 | key by key: a context window of exactly 131072, as a number or a string, becomes 200000 and every other value stays, 100000 included; added are the pricing table, the nine keys of an optional family that has none, and cap and penalties of every family there, with the values 200000, false or the empty string |
| ModelsMigration.MigrationIsIdempotent | config/models_settings.py:514-521 | a second run leaves every line as it is |
| ModelsMigration.CompleteIsLeftAlone | config/models_settings.py:567-574 | a document that holds everything that belongs is not touched |
| ModelsMigration.EveryLineSurvives | config/models_settings.py:374-378 | every original line survives in order, up to one added comma or the floor rewrite |
| ModelsPlaces.PricingPlace | config/models_settings.py:436-461 | the pricing table goes directly behind the opening brace |
| ModelsPlaces.FamilyPlace | config/models_settings.py:468-509 | so do the nine lines of each missing optional family, Taskflow first |
| ModelsPlaces.CapPlace | config/models_settings.py:525-557 | a missing output cap goes behind the first line with the family's context window, else behind its last line, which gets a comma |
| ModelsPlaces.PenaltyPlace | config/models_settings.py:577-622 | missing penalties go behind the output cap, else the context window, else the family's last line |
| Downloader.Target.StreamDownload | models/downloader.py:44-81 | the files and outcome of one attempt; the progress reports grow from the bytes kept to the byte count, with one total |
| Downloader.AttemptIsSound | models/downloader.py:45-76 | an attempt keeps the part file a prefix of the content; a completed one leaves the whole content and no part file |
| Downloader.NeverTruncated | models/downloader.py:37-40 | over every run of attempts the part file is a prefix of the content and the target is its old content or complete |
| Downloader.ResumeKeepsBytes | models/downloader.py:68-72 | a resumed transfer that breaks keeps every byte that was there |
| Downloader.InterruptionsAddUp | models/downloader.py:77-80 | over any run of attempts without a response, with an error status or with part of a range, whatever the server sent, the part file is what it was and then everything delivered, and the target is untouched |
| Downloader.InterruptionsComplete | models/downloader.py:67-76 | and the whole range that ends such a run completes the target from them |
| Downloader.TwoAttemptsFinish | models/downloader.py:56-62 | from any sound leftover at most two fault-free attempts finish, and two are needed only when the part file already holds everything |
| MessageBus.MakeBus | bus/core.py:27-32 | a bus exists exactly for a positive size |
| MessageBus.Queue.Put | bus/core.py:34-41 | a message is appended exactly when there is room, otherwise nothing changes |
| MessageBus.Queue.Get | bus/core.py:43-51 | the oldest message is taken, or nothing when empty |
| MessageBus.NothingDroppedOrReordered | bus/core.py:18-25 | over every run the queue is bounded and published messages are, in order, those handled, at most one in flight, and those queued |
| MessageBus.SendsFollowPublishOrder | channels/manager.py:245-267 | the sends attempted on a channel are the published messages naming it, in publish order, failing sends and side effects included |
| MessageBus.SideEffectFirst | channels/manager.py:257-267 | outbound, the side effect runs once for each message of a known channel, in order and before its send, whether or not it raises; without a consumer none runs |
| MessageBus.StoppedExactly | channels/manager.py:245-267 | over every run a consumer has stopped exactly when it was cancelled or, inbound, a callback raised; so no error stops the outbound one |
| MessageBus.InboundErrorIsFinal | channels/manager.py:99-111 | a stopped consumer never handles or starts another message |
| MessageBus.InboundErrorLosesMessage | channels/manager.py:99-111 | from every reachable state in a callback, after the error the message is neither handled nor queued on any continuation |
| MessageBus.InboundErrorHappens | channels/manager.py:111-111 | a run from the start that loses one message and never handles the next |
| MessageBus.ChannelManager.StartService | channels/manager.py:169-197 | a start creates one consumer for each direction and one starter for each channel, unless started, without channels or without a loop |
| MessageBus.OneConsumerPerDirection | channels/manager.py:163-197 | over every order of starts and stops: one consumer per direction and one starter per channel when there are channels and a loop and the first call is a start, and nothing otherwise |
| LazyInstance.StepKeepsInv | models/utils.py:26-31 | every step of every thread keeps the lock's and the instance's invariant |
| LazyInstance.OneInstance | models/utils.py:26-31 | however the threads interleave at most one instance is built and all callers that get one get that one |
| LazyInstance.FactoryCalledOnce | models/utils.py:14-17 | a factory that never fails is called at most once and every caller gets the instance |
| LogSweep.LogDir.EnforceTotalSize | logs/logger.py:58-88 | the files deleted are the shortest oldest-first run of deletable files that brings the tree under the cap |
| LogSweep.SortedSound | logs/logger.py:75-75 | the sort keeps the entries and puts the oldest first, of equally old ones the lesser path, part by part |
| LogSweep.ShortestRunUnique | logs/logger.py:75-85 | there is only one such run |
| LogSweep.RunIsMinimal | logs/logger.py:75-85 | an oldest-first run of deletable files reaches the cap exactly from that length on |
| LogSweep.SweepOutcome | logs/logger.py:54-57 | what a walk finds afterwards: the listed files less those removed, in number and in size, with every fresh file there, and under the cap unless everything left is fresh or undeletable |

## Left out

- Batches: `enforce` off, which promises only the output order; a tool call that raises out of its task; the bound on pool workers, which only removes interleavings. A call's number of accesses is fixed when it starts; where they go and what they write is not.
- Path resolution in the planner is a function given to the model; the text of a barrier's reason is its call and kind.
- Leases: what closing does to a connection; a close without a running loop, which schedules nothing and here still counts as a close.
- GraphLeaseThreads.NothingLeaks: assumes that the build lock excludes between threads.
- Transcripts: compaction, which changes the count markers are built from; reading and resolving the checkpoint; message metadata beyond the internal and interrupted flags.
- SearchQuery.PatternMatchesSubstring: case folding is a parameter; SQL execution, snippets and ranking are not modelled.
- SanitizerProofs.PhrasesSurviveIffNoCollision: for queries without NUL; it does not claim the token cap of the result, nor that no operator or leading star is left at an end, because step 4 takes one operator from each end and step 2 can split a token.
- SanitizerTidy.NoStarIsAdded: for queries without NUL that do not collide; a colliding query can gain a star but need not, and which ones do is not stated.
- ModelsMigration.MigrationIsSound: for documents of the line shape; block comments, comments behind a value on the same line, duplicate keys and several items on a line are outside it, and white space within a line and line ends are not modelled. Seeding a missing file is not modelled.
- Downloader.NeverTruncated: assumes a fixed content and a 206 for the range that was asked for; HTTP, TLS and file system failures between the steps are not modelled.
- Message bus: channel discovery and the channels' own start and stop; a publisher that finds the queue full waits, so only its successful step is an event.
- Log sweep: files that change between the stat and the delete.
- Model construction, interrupt reading, settings coercion, plugin discovery, and the registries that only forward their arguments.
