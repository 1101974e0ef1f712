# Verified model of the JARVIS core

This project models the seven parts of the JARVIS assistant that carry state, and proves what they
keep over every input or every run. `dafny verify dfyconfig.toml` checks all of it.

| part of the program | modules |
|---|---|
| the single-writer database: callers put requests with futures on one queue, one writer serves it, a supervisor drains it and restarts the writer | `DatabaseProtocol`, `DatabaseSafety`, `DatabaseProgress`, `DatabaseEffects`, `DatabaseLinearizability`, `DatabaseWriter` |
| long-term memory on top of it: `save_memory` and `run_auto_dream` | `MemoryStore`, `MemoryReplay`, `MemoryClients`, `MemoryTheorems`, `MemoryProgress`, `MemoryRereads` |
| the shared task queue on top of it: `_claim_task` | `TaskClaim`, `TaskClaimOwners`, `TaskClaimProgress`, `TaskClaimShared` |
| reversible anonymization | `Anonymizer`, `AnonymizerTokens`, `AnonymizerRoundTrip`, `AnonymizerSources`, `AnonymizerOverlaps`, `AnonymizerRemoval` |
| the Telegram message splitter | `MessageSplitter` |
| context trimming | `ContextTrim` |
| the agent loop, its circuit breaker and the daily budget | `AgentLoop`, `AgentAnswers`, `Breaker`, `Budget` |
| hybrid search: rank fusion | `Fusion`, `FusionTheorems`, `Sorting` |
| stream limiters: the request rate limiter and the barge-in detector | `RateLimit`, `BargeIn` |

**How concurrency is modelled.** A coroutine runs without interruption between two `await`s, so one
such section is one step. `DatabaseProtocol.Next` is total: a step that the current state does not
allow changes nothing, so every list of steps is a run and the theorems hold for all lists. The
class `DatabaseWriter.Database` holds the queue, the futures and the connection as mutable fields;
each of its methods is proved to be the protocol step of the same name. For the one-assignment
sections (`Cancel`, `Shutdown`, `Connect`, `Reconnect`) that contract is little more than their body;
what the class adds is the drain loop (`Drain`), and `Take` and `Serve`, which show that any schedule
of the methods is a run of the protocol and keeps its invariant. The database engine is a parameter of the protocol.
`MemoryStore` and `TaskClaim` instantiate it with the statements of their tables, and add the local
state of the client coroutines. Whether a statement raises, what the model answers, what the
patterns or the analyzer find, what time it is and in which order a Python set is visited are
arbitrary inputs.

**Loops.** Loops of the source are `method`s with loops here, proved to compute a function; the
theorems are about that function. State that the source keeps in an object or a module variable is a
class.

**Where the code does not do what one would expect,** the model follows the code, one lemma gives the
input, and another says exactly when it works:

- A poison pill can be swallowed by the drain (`ShutdownCanBeLost`); a single request to stop works
  if and only if no drain happens before it is served (`PillStopsUnlessDrained`, `ShutdownStopsExactly`).
- The two fetch calls never commit. A write sent through them can be rolled back after its answer was
  delivered (`FetchedWriteIsRolledBack`). A run is linearizable when some serial execution in
  submission order gives every delivered answer and the current database. Every run is if and only
  if the permitted fetches only read (`LinearizableExactly`): a fetch that writes is answered, and
  stopping the writer takes its write back (`WritingFetchBreaks`). `AcknowledgedWritesAreDurable`
  needs no such condition.
- A request put behind a poison pill, or after the writer has stopped, is never served. Unless its
  caller gives up it waits for ever if and only if no drain happens (`BehindPillNeverServed`).
- `_claim_task` is documented as atomic but returns the row also when its UPDATE matched nothing, so
  one task can be handed to two workers (`TaskHandedOutTwice`). The row still has one owner
  (`SingleOwner`, `OwnerIsFinal`). A caller owns what it received if and only if nobody claimed or
  finished the task between its SELECT and its UPDATE (`ReturnedClaim`); `SameTaskReturned` says
  exactly when two workers receive the same task.
- Two dreams that do not overlap can read the same rows, when the first one's model call fails
  (`BatchReadTwice`); `ReadAgainExactly` says exactly when a row is read again.
- A text that spells out an issued placeholder is not restored (`SpelledOutPlaceholderIsLost`), and
  for matches as the patterns find them that is the only obstacle (`RoundTripExactly`). Analyzer
  spans that overlap are not restored either (`OverlappingSpansAreLost`), and among the texts that
  spell out no placeholder exactly those are lost (`SpansRestoreExactly`).
- A match is replaced where the text first contains its characters, which need not be where it was
  found, so what was found can stay in the text (`FoundNumberStays`); `FoundPlaceExactly` says when it
  goes. A match listed as often as it occurs is gone in any case (`ListedMatchesLeave`).
- The splitter can drop blank lines (`JoinsBackExactly` says when, `NonBlankLinesKept` that nothing
  else is lost), and a line that does not fit into a message is sent as one oversized chunk
  (`ChunksFitExactly`).
- A pair above the 500-token estimate can make the batch drop too much, even the latest message
  (`LatestMessageLost`); `TrimAgreesExactly` says when the batch is harmless and `NothingLeftExactly`
  when it leaves nothing. Without alternation everything can be lost without a batch, when the loop
  comes down to three messages that end with an assistant message (`LostWithoutBatch`); `NothingLeft`
  says for all lists when nothing is left. A list that fits is returned as it is, also when it starts with an assistant
  message (`TrimShape`).
- An assistant turn that stops at `max_tokens` with tool calls in it is followed by the continuation
  request, not by tool results (`ToolCallsAnsweredExactly`).
- From `top_k` 31 on, a document found by both searches can lose against one found by only one
  (`ThresholdIs30`).
- A clock that goes back defeats the rate limit (`ClockBackBreaksBound`), for every limit that allows
  at least two requests in a window that is not empty, and for no other (`BoundForAnyClock`).

## Model

| member | source | states |
|---|---|---|
| DatabaseSafety.NextBase | src/jarvis/memory/database.py:140-241 | every step of callers, writer and supervisor keeps the queue in submission order with each waiting request once, executions in submission order, and every future accounted for |
| DatabaseSafety.NextDurable | src/jarvis/memory/database.py:177-193 | every step keeps the serial execution that explains the open connection, its committed part and the acknowledged writes |
| DatabaseSafety.NextInv | src/jarvis/memory/database.py:140-246 | the whole protocol invariant is inductive |
| DatabaseSafety.Conservation | src/jarvis/memory/database.py:177-217 | over every run a pending request is either queued once or in flight, an answered or failed one neither; an answer means the statement was executed, "DB writer restarted" that it never was |
| DatabaseSafety.AtMostOnce | src/jarvis/memory/database.py:158-217 | no statement is executed twice, over any number of crashes and restarts |
| DatabaseSafety.Linearizable | src/jarvis/memory/database.py:158-193 | in a run whose fetches only read, or in which no answered request was rolled back, some of the executed requests have one serial execution in submission order that contains every answered one, gives every delivered value and error, and gives the current database |
| DatabaseLinearizability.LinearizableExactly | src/jarvis/memory/database.py:158-193 | for an engine and a set of permitted requests, every run from every database has such a serial execution if and only if no permitted fetch changes any database |
| DatabaseLinearizability.WritingFetchBreaks | src/jarvis/memory/database.py:178-193 | every fetch that writes has a run, in which it is answered and the writer is then stopped, that no serial execution containing the answered request explains |
| DatabaseSafety.AcknowledgedWritesAreDurable | src/jarvis/memory/database.py:187-189 | every write whose caller received a row id belongs to the committed serial execution that yields the durable database |
| DatabaseProgress.ShutdownAnswersEverythingBefore | src/jarvis/memory/database.py:172-175 | when the writer stops on a pill, no request submitted before that pill is still waiting |
| DatabaseProgress.BoundedResponse | src/jarvis/memory/database.py:161-217 | a request at position p with no pill ahead is answered within 3p + 5 steps of writer and supervisor, whatever callers do and however often the writer crashes |
| DatabaseProgress.NeverStuck | src/jarvis/memory/database.py:161-217 | the writer or the supervisor can take such a step as long as there is work and the writer has not stopped |
| DatabaseProgress.BehindPillNeverServed | src/jarvis/memory/database.py:172-215 | over every run in which its caller does not give up, a request that waits behind a pill or after the writer has stopped waits for ever if and only if no drain happens; after the stop none does |
| DatabaseProgress.RemovalsSuffice | src/jarvis/memory/database.py:209-215 | after p + 1 removals by writer or drain the request that stood at position p is done or in flight |
| DatabaseProgress.PillStopsUnlessDrained | src/jarvis/memory/database.py:196-217 | once a single pill has left the queue, the writer has stopped if and only if no drain happened |
| DatabaseProgress.ShutdownCanBeLost | src/jarvis/memory/database.py:209-215 | a concrete run in which the drain swallows the pill and the writer reconnects |
| DatabaseProgress.FetchedWriteIsRolledBack | src/jarvis/memory/database.py:178-185 | a concrete run in which a fetch that writes is rolled back after its answer, so no serial execution explains the answers |
| DatabaseEffects.RequestsAreSubmitted | src/jarvis/memory/database.py:220-241 | the requests of a run are what callers submitted, in order, whatever state the writer is in |
| DatabaseEffects.AnswersAreFinal | src/jarvis/memory/database.py:177-215 | an answer, an error or a cancellation never changes afterwards |
| DatabaseEffects.CancelledExactly | src/jarvis/memory/database.py:220-241 | a request is cancelled if and only if its caller gave up while it had no answer |
| DatabaseEffects.NothingServedBeforeConnect | src/jarvis/memory/database.py:149-156 | without a connection nothing is executed, removed or answered |
| DatabaseEffects.HeadServed | src/jarvis/memory/database.py:158-193 | in every reachable state the request at the head is executed once and gets all rows, the first row or none, the last row id, or the exception; only a write that does not raise is durable; a caller that has given up crashes the writer, which undoes what is not durable |
| DatabaseEffects.CrashFailsEveryWaiter | src/jarvis/memory/database.py:204-217 | when the connection cannot be opened, or a caller has given up in flight, every pending request and no other gets "DB writer restarted", the queue is empty, and the writer comes back |
| DatabaseEffects.ShutdownStopsExactly | src/jarvis/memory/database.py:172-246 | in every reachable state without a pill, once everything queued at a shutdown request and its pill are gone, the writer has stopped after exactly the requests submitted before if and only if no drain happened |
| DatabaseWriter.Database.constructor | src/jarvis/memory/database.py:39-41 | the empty queue with no connection satisfies the invariant |
| DatabaseWriter.Database.Submit | src/jarvis/memory/database.py:220-241 | putting a request with its future is the protocol's Submit |
| DatabaseWriter.Database.Dequeue | src/jarvis/memory/database.py:161-175 | the first item leaves the queue; a pill closes the connection and stops the writer |
| DatabaseWriter.Database.Execute | src/jarvis/memory/database.py:177-189 | the statement runs on the open connection and only write mode commits |
| DatabaseWriter.Database.Resolve | src/jarvis/memory/database.py:182-193 | the future receives the outcome; a cancelled future crashes the writer and rolls back |
| DatabaseWriter.Database.Drain | src/jarvis/memory/database.py:209-215 | the loop empties the queue and fails exactly the queued futures that are still pending |
| DatabaseWriter.Database.Take | src/jarvis/memory/database.py:140-246 | each of these sections, and each of the one-assignment ones, is the protocol step of the same name and keeps the invariant; a section that the state does not allow does nothing |
| DatabaseWriter.Database.Serve | src/jarvis/memory/database.py:140-246 | any schedule of the sections is a run of the protocol and keeps its invariant |
| MemoryClients.AfterClients | src/jarvis/memory/store.py:149-179 | every event keeps what each save and dream knows about the requests it sent and the answers it received |
| MemoryReplay.RowOrigin | src/jarvis/memory/store.py:165-169 | every memory row comes from an insert that received its row id |
| MemoryReplay.InsertedStays | src/jarvis/memory/store.py:165-169 | an inserted row stays with its content, kind and creation time |
| MemoryReplay.InsertedOnce | src/jarvis/memory/store.py:165-169 | no two inserts receive the same row id |
| MemoryReplay.EntryOrigin | src/jarvis/memory/store.py:172-175 | every index entry comes from its own index insert |
| MemoryReplay.MarkOrigin | src/jarvis/memory/store.py:434-439 | every mark comes from a marking write that names the row |
| MemoryReplay.MarkStays | src/jarvis/memory/store.py:434-439 | a marking write marks the rows it names for good |
| MemoryReplay.NewestExact | src/jarvis/memory/store.py:399-405 | the fetched batch holds at most 50 distinct unmarked episodes newer than the cutoff, newest first, and omits one only when it is full of rows at least as new |
| MemoryReplay.FetchedExactly | src/jarvis/memory/store.py:399-405 | a row is in the batch if and only if it is an unmarked episode newer than the cutoff and fewer than 50 such rows come before it, newer ones first |
| MemoryTheorems.KeywordIndexAgrees | src/jarvis/memory/store.py:161-175 | over every interleaving, each index entry names a row with its content, no row is indexed twice, every row belongs to one save, and it is indexed exactly when that save's second write was sent, executed and did not raise |
| MemoryTheorems.ReturnedSaveIsIndexed | src/jarvis/memory/store.py:149-179 | a save that returned has left its row and its index entry |
| MemoryTheorems.MarksComeFromDreams | src/jarvis/memory/store.py:424-439 | every marked row was in the batch of a dream whose summary had been saved and indexed before the marking write was sent |
| MemoryTheorems.BatchesAreSoundAndDisjoint | src/jarvis/memory/store.py:391-442 | batches are distinct rows, at most 50, all saved before the fetch; rows of a batch whose marking write was executed are in no later batch |
| MemoryProgress.SaveSendsIndexWrite | src/jarvis/memory/store.py:165-175 | over every history a save whose insert is answered sends one request, the index write of that row id and its content, and waits for it |
| MemoryProgress.SaveEndsExactly | src/jarvis/memory/store.py:165-179 | over every history a save returns if and only if it resumes with an answered index write, and is aborted if and only if it is given up or resumes with a write that failed or was cancelled |
| MemoryProgress.DreamKeepsBatch | src/jarvis/memory/store.py:400-407 | a dream whose fetch gave rows keeps them as its batch |
| MemoryProgress.DreamSavesSummary | src/jarvis/memory/store.py:424-432 | the summary of a batch is saved as a semantic memory with the model's text |
| MemoryProgress.DreamSendsMark | src/jarvis/memory/store.py:433-439 | once the summary is saved the dream sends one write that marks its whole batch |
| MemoryProgress.DreamEndsExactly | src/jarvis/memory/store.py:400-442 | over every history a dream ends if and only if it is given up, the model gives no summary, or it resumes with an empty or failed fetch, an aborted save or a finished marking write |
| MemoryProgress.SaveSucceeds | src/jarvis/memory/store.py:149-179 | from every reachable state in which the writer waits for work, an undisturbed save returns, and its row, with content, kind and time, and its index entry are all that is new |
| MemoryProgress.DreamSucceeds | src/jarvis/memory/store.py:391-440 | from every such state an undisturbed dream saves and indexes its summary, marks exactly the episodes it fetched and changes no other row |
| MemoryRereads.BatchHoldsExactly | src/jarvis/memory/store.py:399-442 | an episode that existed at a dream's fetch and is newer than the cutoff is in its batch if and only if no earlier dream's executed marking write named it and fewer than 50 eligible rows come before it |
| MemoryRereads.ReadAgainExactly | src/jarvis/memory/store.py:399-442 | a row of one batch is in a later one if and only if no marking write named it by then, it is newer than the later cutoff and the limit leaves room |
| MemoryRereads.BatchReadTwice | src/jarvis/memory/store.py:422-442 | a concrete run in which a failing model call makes the next dream read the same row |
| TaskClaim.FirstPending | src/jarvis/agents/orchestrator.py:272-276 | the selected row is pending and first by priority and creation time, and none is selected only if none is pending |
| TaskClaim.StartedByWinner | src/jarvis/agents/orchestrator.py:280-283 | a started row carries the agent and time of a claim that found it pending |
| TaskClaim.WinnerStays | src/jarvis/agents/orchestrator.py:280-283 | a claim that found its row pending fixes owner and start time for good |
| TaskClaim.OneWinner | src/jarvis/agents/orchestrator.py:280-283 | at most one claim wins a row |
| TaskClaim.SingleOwner | src/jarvis/agents/orchestrator.py:265-284 | over every interleaving of workers and crashes a started row was started by exactly one claim and still carries its agent and time |
| TaskClaim.OwnerIsFinal | src/jarvis/agents/orchestrator.py:265-284 | a row that left the pending state never returns to it and keeps agent and start time, whatever happens later |
| TaskClaimOwners.PendingUntilTouched | src/jarvis/agents/orchestrator.py:280-283 | a pending row stays pending, and unchanged, exactly until the first claim or finish of it |
| TaskClaimOwners.ReturnedClaim | src/jarvis/agents/orchestrator.py:265-284 | a returned task was pending when selected and is not pending any more; the caller owns its row if and only if no claim or finish of it was executed between its SELECT and its UPDATE |
| TaskClaimOwners.SameTaskReturned | src/jarvis/agents/orchestrator.py:265-284 | of two workers with returned tasks the one that selected later has the same task if and only if nobody claimed or finished it between the two SELECTs and no pending task beats it by then; each SELECT then ran before either UPDATE |
| TaskClaimProgress.WorkerSendsUpdate | src/jarvis/agents/orchestrator.py:272-283 | a worker whose SELECT found a task sends the guarded UPDATE of that task with its own id and the time at which it resumes |
| TaskClaimProgress.ClaimEndsExactly | src/jarvis/agents/orchestrator.py:272-284 | over every history a claim returns the selected task if and only if its UPDATE was answered, nothing if and only if its SELECT found nothing, and raises if and only if one of them failed or was cancelled |
| TaskClaimProgress.LastFinishDecides | src/jarvis/agents/orchestrator.py:259-263 | a row has the status of the last executed finish of its task |
| TaskClaimProgress.RunningUntilFinished | src/jarvis/agents/orchestrator.py:280-283 | a claimed row is running, with the claim's agent and time and otherwise unchanged, until the first finish |
| TaskClaimProgress.InsertedRow | src/jarvis/agents/orchestrator.py:286-294 | an executed insert of a new id leaves its row, unchanged until the task is claimed or finished |
| TaskClaimShared.TaskHandedOutTwice | src/jarvis/agents/orchestrator.py:265-284 | a concrete run in which two workers return with the same task and only the first owns the row |
| Anonymizer.SanitizeFallback | src/jarvis/security/zones.py:255-271 | the two loops replace the first occurrence of each match in turn and remember each original under its placeholder |
| Anonymizer.FlattenStep | src/jarvis/security/zones.py:257-265 | the loops visit every match of every pattern, in order, with the pattern's entity |
| AnonymizerRemoval.ReplacesFirst | src/jarvis/security/zones.py:268 | replacing a match changes its first occurrence and nothing else, and the text is unchanged if there is none |
| AnonymizerRemoval.TurnRemoves | src/jarvis/security/zones.py:268 | a turn takes one occurrence of its match out of the text, if there is one, and adds none of another |
| AnonymizerRemoval.ListedMatchesLeave | src/jarvis/security/zones.py:263-269 | every listing of a match takes one of its occurrences out of the text, so a match listed as often as it occurs is gone |
| AnonymizerRemoval.PlaceholderIssuedExactly | src/jarvis/security/zones.py:263-269 | the anonymized text has one more k-th placeholder than the text if and only if the k-th match still occurred at its turn |
| AnonymizerRemoval.FoundPlaceExactly | src/jarvis/security/zones.py:265-268 | the place where a match was found is the one replaced if and only if its characters do not occur further left |
| AnonymizerRemoval.FoundNumberStays | src/jarvis/security/zones.py:265-268 | a number found behind a longer word with the same characters stays |
| AnonymizerRemoval.SpansAreCutOut | src/jarvis/security/zones.py:245-252 | for spans that do not overlap the anonymized text is the text between them with each span's placeholder in its place |
| Anonymizer.Deanonymize | src/jarvis/security/zones.py:274-278 | the loop replaces all occurrences of each placeholder in insertion order |
| AnonymizerRoundTrip.PlaceholdersProper | src/jarvis/security/zones.py:246-249 | issued placeholders are pairwise different and bracketed, so no mapping entry overwrites another |
| AnonymizerTokens.DigHole | src/jarvis/security/zones.py:268 | replacing a first occurrence only ever touches characters of the original text, wherever the occurrence is |
| AnonymizerTokens.FillSpells | src/jarvis/security/zones.py:274-278 | replacing a placeholder everywhere fills its hole and whatever original text spells it out, nothing else |
| AnonymizerRoundTrip.DecodesExactly | src/jarvis/security/zones.py:274-278 | for matches that are not empty, have no angle brackets and are part of no issued placeholder, any anonymized form of a text decodes to it if and only if the text contains no issued placeholder |
| AnonymizerRoundTrip.RoundTripExactly | src/jarvis/security/zones.py:263-278 | for every text and every list of such matches, also when a match no longer occurs or occurs earlier, anonymizing and restoring gives the text back if and only if it contains none of the issued placeholders |
| AnonymizerRoundTrip.PlainTextRoundTrip | src/jarvis/security/zones.py:263-278 | for such matches every text without angle brackets comes back |
| AnonymizerSources.NoPatternInPlaceholder | src/jarvis/security/zones.py:257-262 | no match of the four patterns occurs inside any of the first hundred million placeholders |
| AnonymizerSources.NineDigitCounters | src/jarvis/security/zones.py:257-262 | from then on the counter itself looks like a match |
| AnonymizerSources.FallbackRoundTrip | src/jarvis/security/zones.py:255-278 | the exact round trip for matches of the four patterns, up to a hundred million of them in one text |
| AnonymizerSources.SanitizeSpans | src/jarvis/security/zones.py:245-253 | the loop cuts the spans out of the changing text one after the other |
| AnonymizerSources.SpanCoversText | src/jarvis/security/zones.py:247-252 | for spans that do not overlap, what a span replaces is what it covers in the original text |
| AnonymizerSources.SpanRoundTrip | src/jarvis/security/zones.py:245-278 | for spans that do not overlap the text comes back if it contains no issued placeholder, and only then when the covered texts are as the patterns' matches are |
| AnonymizerOverlaps.SpansRestoreExactly | src/jarvis/security/zones.py:245-278 | for a text that contains no issued placeholder and spans sorted by decreasing start, decoding restores the text if and only if no two spans overlap |
| AnonymizerOverlaps.PlainSpansRestoreExactly | src/jarvis/security/zones.py:245-278 | so it does for every text without angle brackets |
| AnonymizerOverlaps.OverlapLeavesPlaceholder | src/jarvis/security/zones.py:247-252 | the placeholder that the last overlapping span cuts into is still in the text when decoding ends |
| AnonymizerSources.SpelledOutPlaceholderIsLost | src/jarvis/security/zones.py:263-278 | a concrete text that does not come back |
| AnonymizerSources.OverlappingSpansAreLost | src/jarvis/security/zones.py:247-252 | a concrete pair of overlapping spans whose text does not come back |
| MessageSplitter.SplitMessage | src/jarvis/api/telegram_bot.py:52-74 | the loop computes the chunks that are sent |
| MessageSplitter.JoinOfLines | src/jarvis/api/telegram_bot.py:66 | joining the lines of a text with newlines gives the text |
| MessageSplitter.ChunksFitExactly | src/jarvis/api/telegram_bot.py:63-74 | every chunk fits into a message if and only if every line does |
| MessageSplitter.NonBlankLinesKept | src/jarvis/api/telegram_bot.py:63-74 | for every text the non-blank lines arrive unchanged and in order |
| MessageSplitter.JoinsBackExactly | src/jarvis/api/telegram_bot.py:63-74 | a text of at most 4000 characters is sent as it is; the chunks of a longer one join to it if and only if every blank line finds a current chunk that is neither empty nor full |
| MessageSplitter.NoBlankLinesJoinsBack | src/jarvis/api/telegram_bot.py:63-74 | a text without blank lines arrives unchanged |
| MessageSplitter.StaysAhead | src/jarvis/api/telegram_bot.py:63-74 | the greedy loop never has more chunks open than any grouping of the same lines, and with as many its last chunk is no longer |
| MessageSplitter.FewestChunks | src/jarvis/api/telegram_bot.py:63-74 | no way of cutting the text at line ends into messages that fit uses fewer messages |
| ContextTrim.TrimContext | src/jarvis/memory/store.py:83-110 | filter, batch, role fix and loop compute the trimmed list |
| ContextTrim.TrimRest | src/jarvis/memory/store.py:86-110 | the part of it after the system messages are gone |
| ContextTrim.RestFilters | src/jarvis/memory/store.py:84 | exactly the system messages go before trimming, and the others keep their order |
| ContextTrim.RemoveSinglePairs | src/jarvis/memory/store.py:100-110 | the loop is the fine tuning of what the batch left |
| ContextTrim.FineTuneIsPlain | src/jarvis/memory/store.py:100-108 | on alternating messages the loop removes one oldest pair at a time |
| ContextTrim.PlainTrimFinds | src/jarvis/memory/store.py:100-110 | plain trimming stops at the first even offset where the rest fits or is down to one or two messages |
| ContextTrim.TrimAgreesExactly | src/jarvis/memory/store.py:83-110 | on alternating messages over the budget, batch and plain trimming agree if and only if the batch leaves a message and the rest is over the budget before its last pair goes |
| ContextTrim.BatchRefinesPlain | src/jarvis/memory/store.py:83-110 | with pairs within the estimate and a system prompt that fits, the result is the longest even-offset suffix that fits or the last one or two messages |
| ContextTrim.TrimShape | src/jarvis/memory/store.py:83-110 | for all messages the result is a suffix that fits or has at most two messages; when no two assistant messages are adjacent and it starts with one, nothing was trimmed |
| ContextTrim.NothingLeftExactly | src/jarvis/memory/store.py:93-98 | on alternating messages over the budget nothing is left if and only if the estimate removes as many messages as there are |
| ContextTrim.NothingLeft | src/jarvis/memory/store.py:93-110 | for all messages over the budget nothing is left if and only if the batch leaves nothing, or the loop comes down to three messages over the budget that end with an assistant message |
| ContextTrim.LostToTheBatch | src/jarvis/memory/store.py:93-110 | a list that does not end with an assistant message is lost if and only if the estimate removes as many messages as there are |
| ContextTrim.LostWithoutBatch | src/jarvis/memory/store.py:100-108 | a concrete list of which nothing is left although no batch was removed |
| ContextTrim.LatestMessageLost | src/jarvis/memory/store.py:93-98 | a concrete history of which nothing is left |
| Breaker.CircuitBreaker.Check | src/jarvis/llm/client.py:68-77 | a call is refused exactly when the last maxSame entries all equal it, and is recorded otherwise |
| Breaker.HistoryIsTail | src/jarvis/llm/client.py:64-77 | the deque is the end of the stream of allowed calls |
| Breaker.AllowedIsCapped | src/jarvis/llm/client.py:61-77 | for 1 <= maxSame <= window the allowed calls are the stream with every run cut to maxSame |
| Breaker.CapsExactly | src/jarvis/llm/client.py:61-77 | it does so for all streams only in that range |
| Breaker.NoLongRuns | src/jarvis/llm/client.py:61-77 | no capped stream has a run longer than maxSame |
| Breaker.ReplayBlocksNothing | src/jarvis/llm/client.py:61-77 | replaying the allowed calls blocks nothing |
| AgentLoop.RunAgent | src/jarvis/llm/client.py:213-358 | the loop's answer, history and billed tokens for every model, executor and iteration limit |
| AgentLoop.UseTools | src/jarvis/llm/client.py:314-340 | the inner loop answers each tool block through the breaker and the executor |
| AgentLoop.ModelSeesAlternation | src/jarvis/llm/client.py:228-343 | if the initial messages alternate and end with the user, so does every history the model is called with |
| AgentLoop.ToolCallsAnsweredExactly | src/jarvis/llm/client.py:304-343 | in every later history a turn's tool calls are answered id for id, in order, right after it, if and only if the model stopped for tool use |
| AgentLoop.ExecutorSeesCappedRuns | src/jarvis/llm/client.py:314-334 | what reaches the executor over a run is the stream of tool calls with every run cut to three, never four identical calls in a row |
| AgentAnswers.OutcomeExactly | src/jarvis/llm/client.py:228-351 | a run answers with a text if and only if that is all text blocks, in order, of the first response within the limit that neither asks for tools nor was cut off; it raises if and only if the model does before; it runs out of iterations if and only if every response asks for another |
| AgentAnswers.JoinedIsAllTexts | src/jarvis/llm/client.py:298-301 | the answer joins every text block of the response and nothing else |
| AgentAnswers.BillExactly | src/jarvis/llm/client.py:295-296 | the billed tokens are the sums over the responses up to the one that ends the run |
| AgentAnswers.AskedIsEveryCall | src/jarvis/llm/client.py:314-319 | the breaker is asked about every tool call of every tool-use response, in order |
| AgentAnswers.ToolResultsExactly | src/jarvis/llm/client.py:314-343 | in every run a tool result says "blocked" if and only if its call is at least the fourth identical one in a row, and otherwise carries what the executor returned to that call |
| AgentAnswers.KeysTellCallsApart | src/jarvis/llm/client.py:69 | calls of tools without a colon in their names share a key if and only if name and input are the same |
| Budget.DailySpend.DailyTotal | src/jarvis/llm/client.py:101-107 | the total starts again when more than a day has passed since the last reset |
| Budget.DailySpend.Preflight | src/jarvis/llm/client.py:217-223 | a run is admitted exactly when spend and estimate stay within 90 percent of the limit |
| Budget.DailySpend.Record | src/jarvis/llm/client.py:354-358 | a finished run adds its cost |
| Budget.TotalIsSpendOfTheDay | src/jarvis/llm/client.py:101-107 | the recorded spend is what the runs completed since the last reset have cost, and the first check more than a day after a reset is the next one |
| Budget.AdmittedExactly | src/jarvis/llm/client.py:217-223 | a run is admitted if and only if its estimate and what the day has cost stay within 90 percent of the limit |
| Budget.ActiveExactly | src/jarvis/llm/client.py:217-358 | a run is active from its admission until it completes or is aborted |
| Budget.OvershootBound | src/jarvis/llm/client.py:217-223 | for every interleaving with at most n runs active at once, each costing at most C, the spend never exceeds 90 percent of the limit plus n times C |
| Budget.OvershootIsReached | src/jarvis/llm/client.py:217-223 | for every limit, n of at least one and positive C, a run that meets all of these conditions reaches the bound |
| Fusion.SearchVectors | src/jarvis/memory/store.py:213-223 | the loop and sort give the 2 * top_k most similar rows above the threshold |
| Fusion.FuseHits | src/jarvis/memory/store.py:242-272 | the loop over the ids and the stable sort give the fused order |
| Fusion.SearchMemories | src/jarvis/memory/store.py:213-272 | a failing keyword search counts as one without hits |
| FusionTheorems.VectorTopExact | src/jarvis/memory/store.py:213-223 | the vector candidates are distinct similar rows, at most 2 * top_k, most similar first, and no similar row left out is more similar |
| FusionTheorems.TopKMerge | src/jarvis/memory/store.py:242-272 | for any two lists and iteration order: min(top_k, union) distinct hits in nonincreasing score, and no omitted hit scores higher |
| FusionTheorems.OrderByPlaces | src/jarvis/memory/store.py:242-267 | for distinct lists and any iteration order, the hit with the larger sum of 1 / (60 + rank) over its places comes first |
| FusionTheorems.BothFoundOrder | src/jarvis/memory/store.py:250-267 | so for two documents that both searches found, told by their places alone |
| FusionTheorems.OneListKeepsOrder | src/jarvis/memory/store.py:247-267 | hits of one search only keep that search's order, without gaps |
| FusionTheorems.VectorOrderAlone | src/jarvis/memory/store.py:239-272 | without keyword hits the results are the best vector hits in their order |
| FusionTheorems.BothFirstUpTo30 | src/jarvis/memory/store.py:242-267 | up to top_k 30 every document found by both searches comes before every other |
| FusionTheorems.ThresholdIs30 | src/jarvis/memory/store.py:242-267 | this holds for all candidate lists and iteration orders if and only if top_k is at most 30 |
| Sorting.SortSorts | src/jarvis/memory/store.py:267 | the sort is a descending permutation |
| Sorting.OmittedIsNotBetter | src/jarvis/memory/store.py:272 | what a cut after sorting leaves out is no better than what it keeps |
| Sorting.TakenExactly | src/jarvis/memory/store.py:267-272 | of ascending ids the stable sort puts one among the first n exactly when fewer than n others have a larger key, or the same key and a smaller id |
| RateLimit.RateLimiter.Check | src/jarvis/api/main.py:88-96 | pruning loop, decision and new window of the key; no other key changes |
| RateLimit.AdmitsExactly | src/jarvis/api/main.py:88-96 | with a clock that does not go back, a call is admitted if and only if fewer than max_requests of all admitted calls of its key lie in (now - W, now] |
| RateLimit.WindowAfterCall | src/jarvis/api/main.py:91-96 | after every call the key's list holds exactly the earlier times less than the window back, and the call's own if it was admitted |
| RateLimit.WindowBound | src/jarvis/api/main.py:88-96 | with a clock that does not go back, every half-open window (x - W, x] holds at most max_requests admitted calls of a key |
| RateLimit.OtherKeysUntouched | src/jarvis/api/main.py:90-96 | a call changes nothing for other keys |
| RateLimit.KeysAreIndependent | src/jarvis/api/main.py:90-96 | what a key sees is what it would see without the calls of other keys |
| RateLimit.BoundForAnyClock | src/jarvis/api/main.py:88-96 | with an arbitrary clock the window bound holds for every call sequence if and only if max_requests is at most one or the window is empty |
| RateLimit.ClockBackBreaksBound | src/jarvis/api/main.py:89-95 | for every other limit a run in which the clock goes back and one call too many falls into a window |
| RateLimit.ThreeOfTwoPerMinute | src/jarvis/api/main.py:89-95 | for example three calls pass a limit of two per minute |
| BargeIn.VadWorker | src/jarvis/voice/vad.py:53-77 | the loop raises the interrupts of the frame stream |
| BargeIn.TrailingExactly | src/jarvis/voice/vad.py:75 | the buffer ends with at least n speech frames exactly when its last n frames are all speech |
| BargeIn.BufferRefinesCounter | src/jarvis/voice/vad.py:68-77 | on every stream a frame signals exactly when a counter of consecutive speech frames since the last signal reaches ten, and the buffer never keeps more than twenty frames |
| BargeIn.RunOfSpeech | src/jarvis/voice/vad.py:68-77 | a maximal run of L speech frames raises exactly L / 10 interrupts |

## Left out

- Linearizable: asks for read-only fetches or that no answered request was rolled back; `LinearizableExactly` shows that every set of permitted requests needs the former.
- BatchesAreSoundAndDisjoint: disjointness starts with the executed marking write; `ReadAgainExactly` says what is read again before it.
- FallbackRoundTrip: covers up to 10^8 matches in one text; `NineDigitCounters` shows why the count matters, and `RoundTripExactly` has no such limit.
- SpanRoundTrip: when a covered text has angle brackets, is empty or occurs in a placeholder, only one direction is given for texts that spell out an issued placeholder, because that placeholder may then be restored by accident; `SpansRestoreExactly` settles all other texts.
- KeysTellCallsApart: inputs are arbitrary strings here rather than JSON objects, so tool names with a colon are not covered.
- BoundedResponse: counts every step of writer and supervisor, so its bound is 3p + 5; `RemovalsSuffice` has the bound p + 1 in removals.
- The `_db_ready` event: requests may be submitted in every state here, which includes all runs the event allows.
- Failures inside SQLite: a statement or commit that raises leaves the database as it was; the hourly checkpoint, queue timeouts and cancellation of the writer task itself are not modelled.
- Row order of equal keys: rows created at the same instant, and tasks of equal priority and time, are taken in row order; SQLite does not promise one.
- Client coroutines of `MemoryStore` and `TaskClaim` are lists of events on values rather than objects; a dream given up by its caller lets its save run on, which includes the cases in which both end.
- Embeddings, similarity values, the bm25 ranking, regular expressions and the analyzer: arbitrary functions and lists; rounding of floating-point numbers is not modelled, scores and times are reals.
- Columns that do not matter for these properties (importance, tags, session, payload, results), JSON texts, metrics, logs, audit records and human-readable times.
- The agent loop's retries, the Ollama adapter, the 50 KB cap on tool results and the rounding of the reported cost; with `max_iterations` 0 the source fails on an unset variable, which is the outcome `Unbound`.
- The sending loop of `send_safe`, its lock and delays; the energy-based fallback of `vad_worker`; the process and queue around it.
- `compress_session`, the worker loops around `run_task`, the router, path and command tables, configuration, the voice pipeline, sandbox and rollback: tables, plumbing or foreign calls.
