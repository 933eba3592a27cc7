# Cloudy, modelled in Dafny

Cloudy is an SRE agent written in Go. This project models the parts of it that hold real algorithms or protocols and
proves what they promise. Each module follows one or two source files.

- `LineDiff`, `DiffHunks`: the line diff, from the table of common-subsequence lengths to hunks that are a correct patch.
- `Admission`, `AdmissionProtocol`, `MarkLifetime`, `RatePolicy`, `RateDisorder`, `TelegramPoller`, `UpdateDelivery`: the
  ChatOps pipeline. The objects are classes; every interleaving of calls, workers and shutdown is a state machine with one step
  per critical section or channel operation, and so are rate checks that read the clock before they take the lock.
- `Conversation`: compaction, agent turns, `/new` and `/resume` over one versioned state.
- `Transcript`, `ToolStream`, `Agent`: the pairing of tool calls with their results, the assembly of a turn from stream
  events, and the agent loop with its duplicate-call hook.
- `StreamBuffer`, `Playback` (with `Clauses`): the live output buffer and the typewriter.
- `Fallback`, `FallbackProtocol`: the circuit breaker with its provider chain, for one call and for any interleaving.
- `TriggerSearch`, `TableLayout`, `SecretsFile`, `ToolRegistry`: skill suggestions, the fitted table, the dotenv file,
  and the tool names with their aliases.
- `Wrappers`, `Tables`, `Sorting`: shared value types, bounded tables, and the string sort.

Code that works in place is a class or a method with loops; its contract ties the new state to a function of the old one,
and the lemmas are about those functions. Clocks, the network, the provider, the tools, other hooks and the markdown
renderer are inputs, so each theorem holds whatever they do. Times are integers that need not agree between calls except
where a clock that never goes back is required.

Verify everything with `dafny verify dfyconfig.toml`.

## Where the code differs from what is said about it

- The comments in `renderDiff` call two header starts approximate. They are exact: each is one more than the lines consumed
  before the hunk, even where the count is zero, which differs from the convention of unified diffs for empty ranges.
- Idempotency holds up to lost marks. A mark that expires or is evicted lets one more job with its key in
  (`AtMostOneJobPerKey`, `ExpiredMarkAdmitsDuplicate`); a mark lives a day (`OneJobWithinADay`).
- The limit per source and minute counts fixed windows. A minute that straddles two can admit up to twice the limit less
  one, and one limit more for every eviction of the source's window (`MinuteBound`, `BoundIsReached`). Without an eviction
  a minute can exceed the limit exactly when it begins in a running window with room left (`MinuteCanExceedIff`).
- That holds for checks that take the lock in the order of their times. The code reads the clock before it takes the lock,
  so a check may come to the table late, after another has pruned its window. The later checks may be, the more windows
  fit a minute: the same theorems give the exact maximum, three times the limit less one up to a quarter of a minute, and
  when a given minute can exceed the limit. Evictions come on top. From a whole minute on there is no maximum
  (`BoundsIff`). A limit of one is exceeded too (`LateCheckIsAdmitted`): there pruning changes a decision
  (`PruningChangesDecisionIff`), as it never does in clock order (`PruningInvisible`).
- The poller relies on the server to serve pending updates again and in order. Any batch that settles a larger id before a
  pending update comes up in it loses that update, and nothing else does (`LostIffPassedOver`).
- The poller stops at every error but a duplicate, also at those that will not go away: a message the policy refuses blocks
  it for good (`FailingUpdateBlocks`).
- A refusal as a duplicate is taken for an update that is taken care of. While no mark of its
  key is lost, that is so exactly when no other call with the key is under way at that moment (`RefusalIsSafeIff`), as
  with one poller alone (`OneAtATimeIsQuiet`). Where a webhook and a poller share a service, the call that was duplicated
  may yet meet a full or closed queue, and the update is lost (`DuplicateOfRolledBackIsLost`). The commands
  `chatops serve` and `chatops telegram-poll` build a service each, so they do not share one.
- A breaker opens after a number of failures in a window of time, yet calls let through while it was closed can still fail:
  it can be told of as many failures more as there are calls at once (`FailuresPerWindow`, `FailuresReached`).
- A compaction keeps the last six messages wherever tool results belong. It orphans a result exactly when the first of the
  six is one (`FoldKeepsPairingIff`, `FoldOrphansResult`).
- A compaction checks the version before it commits, a turn's write-back does not. A turn begun while a summary is under
  way undoes the compaction (`TurnUndoesCompaction`); the version the turn could have checked tells exactly when that
  happens (`WriteBackOverwritesNothingIff`). The interface refuses `/compact` while it counts a turn as running, but lets
  a turn begin while a summary is under way. An interrupted turn no longer counts as running, though it still writes back.
- `Table.Render` promises that no line exceeds the width in bytes. It counts characters, and the ellipsis takes three
  bytes. A line at full width is too long exactly when it shows any character of more than one byte (`BytesWithinIff`,
  `WideHeaderTooLong`); so even a table of one-byte characters keeps the promise only if it fits uncut or cutting columns
  to one character each meets the width exactly (`OneByteWithinIff`, `CutHeaderTooLong`). Below the floor that
  `FitEndsIff` states the fit loop never ends.
- `secrets.Add` exports the value as given, but a later `Load` exports it without trailing white space
  (`ExportedAgreesIff`, `TrailingSpaceIsLost`).
- Tool names that agree after dots become underscores share one alias; then not all of them can be reached under their
  safe names (`AllResolveIff`, `CollidingNames`).

## Model

| member | source | states |
|---|---|---|
| LineDiff.CommonAtMost | internal/render/diff.go:54-73 | no common subsequence, however embedded in both sides, is longer than the recurrence the table is filled by |
| LineDiff.LcsLenIsLongest | internal/render/diff.go:54-73 | that recurrence is the length of a longest common subsequence: one of that length exists and none is longer |
| LineDiff.LcsTable | internal/render/diff.go:55-73 | every cell of the filled table is the longest-common-subsequence length of the two prefixes it stands for |
| LineDiff.Backtrack | internal/render/diff.go:83-109 | the recursion appends, to whatever the list already holds, the script of the two prefixes |
| LineDiff.ScriptTransforms | internal/render/diff.go:83-109 | the recovered script turns a into b, records its exact place on both sides at each edit, and keeps as many lines as the longest common subsequence has |
| LineDiff.ScriptConsumesBoth | internal/render/diff.go:48-52 | any script from a to b consumes all of a and all of b |
| LineDiff.KeptLines | internal/render/diff.go:48-52 | the lines any script keeps are a common subsequence of both sides |
| LineDiff.ScriptIsMinimal | internal/render/diff.go:76-109 | no edit script from a to b uses fewer inserts plus deletes than the recovered one |
| LineDiff.NoChangeIffEqual | internal/render/diff.go:76-109 | the script only keeps exactly when the two sides are equal |
| LineDiff.LcsDiff | internal/render/diff.go:76-81 | the result is a script from a to b, and every other such script makes at least as many changes |
| DiffHunks.BuildHunks | internal/render/diff.go:135-159 | the windows cover exactly the positions within three edits of a change |
| DiffHunks.MergeHunks | internal/render/diff.go:222-238 | merging keeps the covered positions and leaves at least one edit between any two hunks |
| DiffHunks.Windows | internal/render/diff.go:135-161 | the hunks to print are in order and apart, and an edit is in one exactly when a change lies at most three edits away |
| DiffHunks.TrailOf | internal/render/diff.go:48-52 | the indices stored with each edit are exactly the lines of a and of b consumed before it |
| DiffHunks.PrintHunk | internal/render/diff.go:164-218 | the header starts one past the lines consumed before the hunk, also when it opens with an insert or a delete, the counts are exact, and the body is the hunk's lines in order |
| DiffHunks.BodyApplies | internal/render/diff.go:196-217 | a hunk's body, applied where the hunk starts, matches a at every context and removed line and arrives where the hunk ends |
| DiffHunks.GapCopies | internal/render/diff.go:135-161 | between hunks the two sides run in step |
| DiffHunks.HunkApplies | internal/render/diff.go:164-218 | a printed hunk applies, header checked, from any point that only kept lines separate it from |
| DiffHunks.HunksRebuild | internal/render/diff.go:161-218 | the remaining hunks rebuild the rest of b and print each remaining change once |
| DiffHunks.WindowsPatch | internal/render/diff.go:118-220 | the hunks of any exact windows are a correct patch that prints as many changes as the script makes, and there are none exactly when it makes none |
| DiffHunks.RenderDiff | internal/render/diff.go:118-220 | the printed hunks turn a into b, with exact headers, over exact windows; nothing is printed exactly when the script only keeps |
| DiffHunks.DiffLines | internal/render/diff.go:76-220 | the diff of two line lists applies to a and yields b, is empty exactly when they agree, and prints no more changes than any script must make |
| DiffHunks.JoinSplit | internal/render/diff.go:27-36 | cutting a text at its newlines and joining it again gives the text back |
| DiffHunks.LinesHaveNoNewline | internal/render/diff.go:25-36 | no line of a text holds a newline |
| DiffHunks.SameLinesIff | internal/render/diff.go:25-36 | two texts have the same lines exactly when they are equal up to one final newline |
| DiffHunks.DiffStrings | internal/render/diff.go:17-23 | the diff of two texts rebuilds the second's lines from the first's, and is empty exactly when they differ by at most one final newline |
| Tables.EvictForRoom | internal/chatops/service.go:84-91 | making room drops just enough entries, whichever they are, to get below the maximum |
| Admission.Queue.constructor | internal/chatops/service.go:153-168 | an unset depth means 64 places |
| Admission.Queue.Enqueue | internal/chatops/service.go:187-201 | a job is appended exactly when it is reported queued; a closed queue refuses it, an open one with room takes it unless the context is done, a full one never does; no send ever meets a closed channel |
| Admission.Queue.Close | internal/chatops/service.go:204-210 | after any number of closes the channel has been closed once |
| Admission.Service.PruneSeen | internal/chatops/service.go:105-112 | exactly the marks of more than 24 hours ago are dropped, and the others keep their times |
| Admission.Service.MarkSeen | internal/chatops/service.go:77-97 | a key is refused exactly when it was marked at most 24 hours ago; otherwise it is marked now, every other mark of the last 24 hours stays unless it makes room, and none does below 10000 entries |
| Admission.Service.UnmarkSeen | internal/chatops/service.go:99-103 | only the given key loses its mark |
| Admission.Service.Handle | internal/chatops/service.go:48-70 | run alone, a call is a duplicate exactly when its key was marked at most 24 hours ago, and queues its job exactly when it is admitted; a refused enqueue met a closed queue, a full one or a done context, and leaves no mark of its own; the table stays bounded |
| Admission.Redeliver | internal/chatops/service.go:48-112 | a call repeated after an admitted one is a duplicate exactly when no more than 24 hours lie between, and then only one job is queued |
| AdmissionProtocol.ClaimsStep | internal/chatops/service.go:48-103 | every step keeps the claims on a key, beyond the one mark in the table, paid for by lost marks |
| AdmissionProtocol.FifoStep | internal/chatops/service.go:187-230 | every step keeps the accepted jobs equal to the started ones followed by the channel's contents |
| AdmissionProtocol.WorkersStep | internal/chatops/service.go:225-230 | every step keeps each started job either finished or in some worker's hands, and no worker exits before the closed channel is empty |
| AdmissionProtocol.RunKeepsInv | internal/chatops/service.go:48-230 | every state of every interleaving satisfies all three invariants |
| AdmissionProtocol.AtMostOneJobPerKey | internal/chatops/service.go:48-97 | in every reachable state a key has at most one accepted job plus one per mark of it lost to expiry or eviction, and the table has at most 10000 entries |
| AdmissionProtocol.RollbackRemovesOwnMark | internal/chatops/service.go:64-68 | without a lost mark, a rollback removes only the key's own mark, and then no call has a claim on the key |
| AdmissionProtocol.RetryAfterRollback | internal/chatops/service.go:64-97 | after a rollback the next call that carries the key to its mark, whatever other calls do before, is not refused as a duplicate |
| AdmissionProtocol.StartedInOrderOnce | internal/chatops/service.go:187-230 | jobs start in the order they were accepted, each once, and only started jobs finish |
| AdmissionProtocol.NothingAcceptedAfterClose | internal/chatops/service.go:187-210 | once the queue is closed the accepted jobs never change again |
| AdmissionProtocol.DrainedWhenAllExited | internal/chatops/service.go:204-230 | when all workers have exited, exactly the accepted jobs have run |
| AdmissionProtocol.DrainEnds | internal/chatops/service.go:204-230 | after close each worker step brings the drain nearer, nothing sets it back, and some step is possible until every worker has exited |
| AdmissionProtocol.FreshKeyAccepted | internal/chatops/service.go:48-103 | while there is room, a call whose key has no live mark can run to acceptance |
| AdmissionProtocol.AcceptedIffNoLiveMark | internal/chatops/service.go:57-70 | a keyed call that reaches its mark while the queue is open and has room can be accepted exactly when its key has no live mark; else it is refused for good |
| AdmissionProtocol.ExpiredMarkAdmitsDuplicate | internal/chatops/service.go:105-112 | the bound is tight: a second delivery after the mark has expired is accepted again |
| MarkLifetime.MarkLives | internal/chatops/service.go:77-112 | over any interleaving a mark stays, with its time, as long as no step takes it back or evicts it and no call looks at the table more than 24 hours later |
| MarkLifetime.RefusedWithinADay | internal/chatops/service.go:77-97 | a call that looks at the table is refused within 24 hours of a mark of its key that is there, and takes the mark over after that |
| MarkLifetime.OneJobWithinADay | internal/chatops/service.go:48-112 | over any interleaving, two accepted calls with one key take an eviction of its mark or a call that looks at the table more than 24 hours after one |
| RatePolicy.Policy.PruneRateWindows | internal/chatops/policy.go:158-164 | exactly the windows that began 60 seconds ago or earlier are dropped |
| RatePolicy.Policy.CheckRate | internal/chatops/policy.go:127-156 | a check is refused exactly when its source has a full window less than 60 seconds old; it counts in that window or opens one, and of the others only those that ran out or made room are gone, none below 10000 entries; no limit admits everything |
| RatePolicy.AdmitDecides | internal/chatops/policy.go:127-156 | the decision that the runs are made of is that same one, in plain terms |
| RateDisorder.RunKeepsInv | internal/chatops/policy.go:127-156 | every run, in which checks read the clock in one step and take the lock in a later one, decides a trace of checks whose times are out of order by no more than the longest wait for the lock |
| RateDisorder.PromptRunsAreNearlyOrdered | internal/chatops/policy.go:132-135 | if no check waits longer than d for the lock, no check has a time more than d before that of one decided earlier |
| RateDisorder.NearlyOrderedTracesAreRuns | internal/chatops/policy.go:132-135 | conversely every trace at most d out of order is the work of a run in which no check waits longer than d |
| RateDisorder.WindowPasses | internal/chatops/policy.go:127-156 | with times out of order by d, less than a minute, windows of a source begin at least a minute less d apart, and one that has run out belongs to what those before the next may have admitted |
| RateDisorder.BoundedStep | internal/chatops/policy.go:127-156 | a check keeps what a minute has admitted within its bound; once all further times lie past the minute, it admits no more |
| RateDisorder.MinuteBound | internal/chatops/policy.go:127-156 | any half-open minute admits per source at most the limit less one for each window that can admit in it, one more for each that can begin in it, and one limit more per eviction; that is twice the limit less one in clock order, and three times the limit less one up to a quarter of a minute out of order |
| RateDisorder.BoundIsReached | internal/chatops/policy.go:127-164 | for every limit and however far out of order, less than a minute, there is a run without an eviction of the source in which a minute admits exactly that |
| RateDisorder.NoBoundWhenAMinuteLate | internal/chatops/policy.go:127-164 | with checks a whole minute late there is no bound: one instant admits any number of full windows |
| RateDisorder.BoundsIff | internal/chatops/policy.go:127-164 | so, without evictions of the source, a number bounds every minute exactly when times are less than a minute out of order and it is no less than that |
| RateDisorder.MinuteCanExceedIff | internal/chatops/policy.go:127-164 | after any past, and unless the source's window is evicted, the minute from t can admit more than the limit exactly when the source then has a running window, begun before t, with room left, or times may be so far out of order that two windows can still begin in the minute |
| RateDisorder.ReflectsUntilLate | internal/chatops/policy.go:127-164 | until a check is late for a pruned window, the pruned table holds nothing but windows of one that is never pruned |
| RateDisorder.PruningChangesDecisionIff | internal/chatops/policy.go:127-164 | while nothing is evicted, pruning first changes a decision exactly when a check's own time falls in a pruned window that was full |
| RateDisorder.LateCheckIsAdmitted | internal/chatops/policy.go:132-135 | a run with a limit of one: a check that read the clock one nanosecond before another source's but locks after it is admitted into a minute that is used up, which a table never pruned would refuse |
| TelegramPoller.Poller.AdvanceOffset | internal/chatops/telegram.go:198-202 | the offset becomes one past the update if the update is at or above it |
| TelegramPoller.Poller.PollOnce | internal/chatops/telegram.go:177-195 | the batch ends at the first failed update that is at or above the offset and every id before it, or behind all; the offset is then the least that is past every update before that point, and never goes back |
| TelegramPoller.OffsetNeverDecreases | internal/chatops/telegram.go:177-202 | over any run of batches the offset never goes back |
| TelegramPoller.BatchDivides | internal/chatops/telegram.go:177-202 | in an ascending batch the new offset separates the updates that were settled from those that were not |
| TelegramPoller.BelowOffsetIsSettled | internal/chatops/telegram.go:177-202 | if the server serves pending updates in order and leaves none out, every update served so far below the offset was accepted, a duplicate or no prompt |
| TelegramPoller.FailedUpdateStaysPending | internal/chatops/telegram.go:188-193 | against such a server an update whose handling failed stays at or above the offset until a later batch settles it |
| TelegramPoller.PassedIffSettled | internal/chatops/telegram.go:177-202 | against such a server the offset has passed an update that was served exactly when some batch has settled it |
| TelegramPoller.FailingUpdateBlocks | internal/chatops/telegram.go:186-193 | against such a server an update whose handling always fails blocks the poller: no later offset passes it and no larger id is ever settled |
| TelegramPoller.LeftBehindIff | internal/chatops/telegram.go:177-202 | one batch, in any order, leaves a pending update unsettled below the offset exactly when it settles a larger id before the update comes up in it |
| TelegramPoller.LostIffPassedOver | internal/chatops/telegram.go:177-202 | with any batches from any server, a pending update is lost exactly when some batch settles a larger id before the update comes up in it |
| TelegramPoller.SettledAtMostOnce | internal/chatops/telegram.go:177-202 | a poller settles an update in at most one batch, however often the server repeats it |
| TelegramPoller.OmittedUpdateIsLost | internal/chatops/telegram.go:177-202 | ascending batches alone do not suffice: two batches that lose a failed update |
| TelegramPoller.UpdateOutOfOrderIsLost | internal/chatops/telegram.go:177-202 | nor does a batch that holds the update, if a larger id comes first |
| UpdateDelivery.KeysDiffer | internal/chatops/telegram.go:127-127 | two updates never share a key |
| UpdateDelivery.KeySpelled | internal/chatops/telegram.go:127-127 | the key is the platform's name, a colon and the id in decimal |
| UpdateDelivery.StepGains | internal/chatops/service.go:48-103 | each step changes the claims on a key by its marks and rollbacks alone |
| UpdateDelivery.ClaimsAreMarksLessRollbacks | internal/chatops/service.go:48-103 | in every interleaving the claims on a key are its marks less its rollbacks |
| UpdateDelivery.JobsAreMarksLessRollbacks | internal/chatops/service.go:48-103 | once no call with the key is under way, its accepted jobs are exactly the marks not taken back |
| UpdateDelivery.RedeliveryIsDuplicate | internal/chatops/service.go:57-70 | a call that carries the key of an accepted job is refused as a duplicate, for good, unless a mark of the key has been lost |
| UpdateDelivery.QuietRefusalHasJob | internal/chatops/service.go:57-70 | if a call is refused as a duplicate while no other call with its key is under way, a job has been accepted for the key, and it stays |
| UpdateDelivery.RefusalIsSafeIff | internal/chatops/service.go:57-97 | decided at the refusal: as long as no mark of the key is lost, there will be a job for it however the run goes on exactly when no other call with the key is then between its mark and its end |
| UpdateDelivery.OneAtATimeIsQuiet | internal/chatops/telegram.go:177-195 | if at most one call with the key has started and not ended at any time, as with one poller alone, no refusal meets another call under way |
| UpdateDelivery.AcceptedUpdateHasItsJob | internal/chatops/telegram.go:177-195 | an update the poller settled as accepted has a job, and at most one more for each lost mark of its key, whatever webhooks deliver beside it |
| UpdateDelivery.DuplicateHasItsJob | internal/chatops/telegram.go:188-193 | a call refused as a duplicate has its job, if no call with its key is refused while another is under way |
| UpdateDelivery.ServedUpdateHasItsJob | internal/chatops/telegram.go:177-202 | against a server that serves in order, every update served and now below the offset was no prompt or has its job, rolled back and retried or not, and at most one more per lost mark, if no call with its key is refused while another is under way |
| UpdateDelivery.DuplicateOfRolledBackIsLost | internal/chatops/telegram.go:188-193 | else it may have none, whatever the depth of the queue: the poller takes a duplicate for settled, and then the webhook call it duplicates meets a full queue and is rolled back |
| Transcript.WellPairedByPosition | internal/core/agent/agent.go:450-467 | the scan accepts exactly the transcripts where every result answers the right call of the assistant message before it, and every message with calls is followed by a result |
| Transcript.StripRemovesSystem | internal/core/agent/agent.go:418-423 | dropping the system messages leaves none, and changes nothing where there are none |
| Transcript.StripEach | internal/core/agent/agent.go:418-423 | each message is kept or dropped on its own, in its place, and only system messages are dropped |
| Transcript.StripKeepsPairing | internal/core/agent/agent.go:418-423 | dropping system messages from a paired history leaves it paired |
| Conversation.FoldKeepsPairingIff | internal/ui/tui/compact.go:71-82 | folding a well-paired history leaves it well paired exactly when the first kept message is not a tool result |
| Conversation.FoldOrphansResult | internal/ui/tui/compact.go:71-82 | a well-paired history of eight messages whose compaction orphans a tool result |
| Conversation.ConvoState.CommitCompaction | internal/ui/tui/compact.go:84-96 | exactly when the version is the one that was read, the history becomes one user message with the prefix and the summary, followed by the last six messages; otherwise nothing changes |
| Conversation.ConvoState.Compact | internal/ui/tui/compact.go:56-105 | run alone, a compaction happens exactly when the history is long enough and a summary was made; it leaves seven messages, the prefixed summary and the last six, which are too few to compact again |
| Conversation.ConvoState.WriteBack | internal/ui/tui/run.go:274-279 | a turn's messages replace the history and move the version on, unless there are none |
| Conversation.ConvoState.SwapSession | internal/ui/tui/compact.go:131-146 | session and history are replaced together and the version moves on |
| Conversation.RunKeepsInv | internal/ui/tui/compact.go:63-96 | in every interleaving, whoever read the history at the current version read the current history |
| Conversation.CommitReplacesWhatItRead | internal/ui/tui/compact.go:56-105 | a compaction that commits replaces the history live at that instant by seven messages: the prefixed summary of what it read and the last six; one that does not leaves history and version alone |
| Conversation.SummaryIsKept | internal/ui/tui/compact.go:80-82 | two compactions of the same history leave the same behind exactly when their summaries agree |
| Conversation.VersionTellsWrites | internal/ui/tui/compact.go:84-96 | two states have the same version exactly when nothing was written between them, and then the same history |
| Conversation.CommitsIffUndisturbed | internal/ui/tui/compact.go:84-93 | a compaction commits exactly when no turn, reset, resume or other compaction wrote since it read the history |
| Conversation.TurnExtendsWhatItRead | internal/ui/tui/run.go:224-279 | a turn that ends at the version it began with replaces the history it read |
| Conversation.WriteBackOverwritesNothingIff | internal/ui/tui/run.go:224-279 | the version a turn read at its start equals the one at its end exactly when its write-back overwrites nothing written since |
| Conversation.TurnUndoesCompaction | internal/ui/tui/run.go:274-279 | the write-back checks no version: a turn begun while a summary is under way undoes a compaction that has reported success |
| ToolStream.OpenBlockIff | internal/core/llm/anthropic/anthropic.go:318-368 | a block is open with given arguments exactly when it was started and those are all its own fragments since, in order, however other blocks interleave |
| ToolStream.ParseSse | internal/core/llm/anthropic/anthropic.go:293-393 | the two per-index maps produce, event for event, the chunks of the block-by-block meaning; the last is Done exactly when a stop comes before any cancellation or the events run out without a stop, a cancellation or a failed read |
| ToolStream.OneTerminalLast | internal/core/llm/anthropic/anthropic.go:300-393 | every stream has exactly one terminal chunk and it is the last |
| ToolStream.TerminalIff | internal/core/llm/anthropic/anthropic.go:300-393 | from the fields of the source alone: when a stream ends well, when it ends as cancelled, and that it else ends as a failed read |
| ToolStream.StoppedCallIs | internal/core/llm/anthropic/anthropic.go:318-368 | a stopped block's call has the id and the name its start gave, and as arguments the fragments for its index since then, joined in order, or the empty object if they are none |
| ToolStream.NothingStopped | internal/core/llm/anthropic/anthropic.go:349-368 | a stop of a block that was not started, or was stopped since, yields no call |
| ToolStream.ReportIsPassedOn | internal/core/llm/anthropic/anthropic.go:300-393 | every usage report read is passed on, in its place, with its count |
| ToolStream.StreamAssistantTurn | internal/core/agent/agent.go:488-538 | draining the channel gives the turn's text and its calls, fragments with the same id joined, or nothing after an error or a refused usage report |
| ToolStream.AssembleIdentityIff | internal/core/agent/agent.go:509-533 | assembly leaves the calls as they came exactly when no two neighbours share an id |
| ToolStream.RunIsJoined | internal/core/agent/agent.go:509-533 | calls with one id in a row become one: that id, the last name given, and all their arguments joined in order |
| ToolStream.EmittedContents | internal/core/llm/anthropic/anthropic.go:318-368 | the text chunks are the non-empty text deltas, the tool chunks the calls of the stopped blocks in stop order |
| ToolStream.TurnFromEvents | internal/core/agent/agent.go:476-539 | the turn in terms of the events: none unless the stream ends well and no usage report is refused, else all text deltas joined and the calls of the stopped blocks, assembled |
| ToolStream.TurnSucceedsIff | internal/core/agent/agent.go:476-539 | a turn succeeds exactly when a stop comes before any cancellation, or events end without a stop, a cancellation or a failed read, and hooks refuse none of the usage reports before that; its text is then every text delta before that, in order |
| ToolStream.TurnWithOneCall | internal/core/agent/agent.go:476-539 | a turn with text before and between the fragments of a call has both texts in one, in order, and the call's fragments in one |
| ToolStream.RefusedUsageFails | internal/core/agent/agent.go:503-508 | a usage report a hook refuses fails the turn, whatever was gathered before it |
| ToolStream.TurnOfBody | internal/core/agent/agent.go:488-533 | chunks before the end are gathered into text and calls, unless a usage report among them is refused |
| Agent.RunOfThree | internal/core/agent/hook.go:81-93 | the trailing run of equal fingerprints reaches three exactly when the last three calls are alike |
| Agent.AlikeIffSame | internal/core/agent/hook.go:96-101 | name and arguments are hashed without a separator, yet short of a hash collision fingerprints agree exactly for equal calls, as names hold neither braces nor white space and arguments are JSON objects |
| Agent.SpacedNameCollides | internal/core/agent/hook.go:96-101 | two calls that differ only in where a space belongs share a fingerprint under any hash |
| Agent.DupCallHook.BeforeToolCall | internal/core/agent/hook.go:81-93 | a call is refused exactly when it is the third in a row with its fingerprint, refused attempts included |
| Agent.DispatchTool | internal/core/agent/agent.go:543-573 | the result carries the call's id; an error is the duplicate refusal first, else another hook's, else none, and its text is the result behind an error prefix |
| Agent.DispatchAll | internal/core/agent/agent.go:459-467 | results follow the calls in order up to the first error, which ends the run |
| Agent.OpenTranscript | internal/core/agent/agent.go:413-424 | the transcript opens with the fresh system prompt, the history without its system messages, and the input |
| Agent.Run | internal/core/agent/agent.go:388-471 | the messages returned and the way the run ended are fixed by the inputs: whole rounds, then an answer, an interruption, an aborted call or the step limit; each step reached makes one provider request, a late one none |
| Agent.RunIsDetermined | internal/core/agent/agent.go:388-471 | that description has one solution: equal inputs give equal messages and the same ending |
| Agent.RunIsItsRounds | internal/core/agent/agent.go:388-471 | message by message: the prompt, the history without system messages, the input, for each finished step its answer and the result of each call, and then, as the run ended, nothing, a last answer, or an answer with its results up to the error |
| Agent.ResultsScan | internal/core/agent/agent.go:459-467 | the results of the first calls of an answer answer exactly those, in order |
| Agent.TailScan | internal/core/agent/agent.go:450-467 | what the last step leaves behind keeps the transcript paired: an answer without calls, or an answer and a non-empty prefix of its results |
| Agent.RunKeepsPairing | internal/core/agent/agent.go:413-471 | a run on a paired history returns a paired transcript, however it ends |
| Agent.RunHasOneSystem | internal/core/agent/agent.go:413-424 | the transcript has exactly one system message, the first, then the old history and the input |
| Agent.ThirdAlikeNeverRuns | internal/core/agent/hook.go:81-93 | three alike calls in a row end the run, and the third is the refused one |
| Agent.RunExtendsHistory | internal/core/agent/agent.go:413-471 | apart from the system message a run only adds to its history |
| Agent.ChainKeepsPairing | internal/core/agent/agent.go:388-471 | any number of runs chained through their histories keep a paired transcript paired |
| Agent.ChainKeepsTranscript | internal/core/agent/agent.go:388-471 | from any history, paired or not, chained runs leave one system message in front once any of them has started, and lose nothing else |
| StreamBuffer.LastSentenceEnd | internal/ui/tui/stream.go:342-370 | the result is the last place at or after the given one where a sentence, a clause or a line ends, or there is none |
| StreamBuffer.PlainPieces | internal/ui/tui/stream.go:292-309 | without a renderer the pieces appended are what one render of the whole would be |
| StreamBuffer.StreamModel.AppendMarkdownTail | internal/ui/tui/stream.go:292-309 | the newly committed slice is rendered and appended once, and the count of visible characters stays exact |
| StreamBuffer.StreamModel.RerenderMarkdownTail | internal/ui/tui/stream.go:314-335 | the visible part of the block is replaced, whatever renderer had shown it, by one render of all its committed text; everything before it stays |
| StreamBuffer.StreamModel.DrainPending | internal/ui/tui/stream.go:260-286 | a flush appends the text up to its last clause boundary, leaves none before what waits, and changes nothing the screen stands for |
| StreamBuffer.StreamModel.FinalizeAssistantBlock | internal/ui/tui/stream.go:442-449 | closing a block leaves content equal to what stood before it followed by one render of all its tokens, also those never shown |
| StreamBuffer.StreamModel.AppendChrome | internal/ui/tui/stream.go:515-561 | text of the interface follows all prose that came before it |
| StreamBuffer.StreamModel.WriteToken | internal/ui/tui/stream.go:498-509 | a token joins the block, and a flush is on its way whenever text waits |
| StreamBuffer.StreamModel.ResizeTo | internal/ui/tui/stream.go:458-496 | a new renderer re-renders the visible part only and is used from then on |
| StreamBuffer.StreamModel.ClearAll | internal/ui/tui/stream.go:638-646 | a clear empties the live turn and the block |
| StreamBuffer.StreamModel.Commit | internal/ui/tui/stream.go:755-769 | a commit returns the whole finished turn and leaves the buffer empty |
| StreamBuffer.StreamModel.Update | internal/ui/tui/stream.go:453-655 | every message takes the buffer to the screen its meaning prescribes, and the viewport shows the content |
| StreamBuffer.StreamModel.constructor | internal/ui/tui/stream.go:217-231 | a new buffer is empty and, in colour, starts with its renderer |
| StreamBuffer.Feed | internal/ui/tui/stream.go:453-655 | any messages, handled one after the other, take the buffer to the screen they mean, and its outputs are the committed turns, shown |
| StreamBuffer.TicksDoNotPrint | internal/ui/tui/stream.go:511-513 | two runs of the buffer that differ only in when flushes happen print the same |
| StreamBuffer.TurnPrintsInOrder | internal/ui/tui/stream.go:453-561 | a turn of prose, a tool's header and lines, and more prose prints the two pieces of prose as its renderer shows them, whole, and the rest as it is, in that order |
| StreamBuffer.ResizedBlockIsRendered | internal/ui/tui/stream.go:458-496 | a resize with a renderer decides how the block under way, and what joins it, is printed |
| StreamBuffer.ClearedTurnPrintsTheRest | internal/ui/tui/stream.go:638-646 | after a clear a turn prints only what comes then |
| StreamBuffer.FlushTimingInvisible | internal/ui/tui/stream.go:511-513 | taking all flush ticks out of a run changes neither what is finished nor what is committed |
| StreamBuffer.ChunkingInvisible | internal/ui/tui/stream.go:498-509 | nor does the way the text is cut into tokens |
| StreamBuffer.BlockHoldsItsTokens | internal/ui/tui/stream.go:498-513 | between block ends the block is all its tokens in order, and closing it renders exactly that |
| StreamBuffer.NothingLost | internal/ui/tui/stream.go:498-655 | over any run without a clear, the committed turns, the live one and the block together hold every text that came in, once and in order |
| StreamBuffer.PlainRun | internal/ui/tui/stream.go:391-403 | without colour every committed turn is shown as its raw text |
| StreamBuffer.PlainOutput | internal/ui/tui/stream.go:755-769 | without colour the outputs of a buffer up to a commit are, one after the other, exactly the texts that came in |
| Playback.WindowIsFurthest | internal/ui/tui/playback.go:89-107 | the window is the furthest boundary of a full scan |
| Playback.WindowIs | internal/ui/tui/playback.go:89-107 | in characters: the window reaches just past the last newline or the last punctuation with white space behind it, whichever is further, and is empty without either |
| Playback.WindowStaysPut | internal/ui/tui/playback.go:89-90 | more text moves no boundary inside the window, so scanning may resume there |
| Playback.Playback.RefreshEmittableWindow | internal/ui/tui/playback.go:89-107 | scanning from the old window yields the window of a full rescan |
| Playback.Playback.BufferAssistantToken | internal/ui/tui/playback.go:68-71 | however text is cut into tokens, the window after each is the furthest boundary in the whole buffer |
| Playback.EscapeEnd | internal/ui/tui/playback.go:152-163 | an escape sequence that opens with a bracket runs to the first character from @ to ~ after it, or to the end if there is none; any other escape is one character |
| Playback.UnitLenIs | internal/ui/tui/playback.go:152-163 | so does each unit that a pop counts in |
| Playback.WalkUnits | internal/ui/tui/playback.go:148-166 | the walk stops after n visible characters, on the border of a whole unit |
| Playback.TakeKeepsUnits | internal/ui/tui/playback.go:135-166 | a pop takes whole units, n visible ones unless no more are left, and what remains parses as before |
| Playback.TakeIsCut | internal/ui/tui/playback.go:135-166 | in characters: a pop ends right after the n-th character outside escape sequences, or at the end if there are fewer, and never inside a sequence |
| Playback.Playback.PopPlaybackRunes | internal/ui/tui/playback.go:135-174 | what is popped and what stays make up the buffer, the cut is right after the n-th visible character and in no escape sequence, and the window shrinks by what was popped |
| Playback.Playback.DrainPlaybackBuffer | internal/ui/tui/playback.go:114-122 | everything is returned and the buffer starts afresh |
| Playback.Playback.ReleasePlaybackTail | internal/ui/tui/playback.go:200-202 | the whole rendered text is free to go |
| Playback.Playback.PlayOut | internal/ui/tui/app.go:375-406 | the ticks end and emit the chunks of the released text |
| Playback.ChunksPlayTheText | internal/ui/tui/playback.go:135-174 | those chunks are the text, at most n visible characters each and n in all but the last, and no escape sequence is split between two |
| Playback.ChunksAreCuts | internal/ui/tui/playback.go:135-174 | each chunk is cut from the rest of the text in that way |
| TriggerSearch.OverlapNeverMatches | internal/core/skills/registry.go:98-115 | a match overlapping an occurrence would start inside a word |
| TriggerSearch.SkipLosesNothing | internal/core/skills/registry.go:106-113 | so skipping a whole trigger length after a failed hit loses no match |
| TriggerSearch.ContainsTrigger | internal/core/skills/registry.go:91-117 | the answer is yes exactly when the trigger is spelled out at some place with no word character before or behind it, or at any place if it has a separator |
| TriggerSearch.ScoreIsBestTier | internal/core/skills/registry.go:60-76 | a skill's score is the best tier any of its triggers reaches |
| TriggerSearch.ScoreRanks | internal/core/skills/registry.go:53-78 | three for a skill with a trigger equal to the input, else two for one whose trigger the input contains, else one for one of whose triggers the input is a part, else none |
| TriggerSearch.Score | internal/core/skills/registry.go:60-76 | skipping tests that cannot raise the score computes the best tier |
| TriggerSearch.InsertScored | internal/core/skills/registry.go:81-83 | sorting keeps the entries and orders them by score, then by name |
| TriggerSearch.Suggest | internal/core/skills/registry.go:44-89 | at most three matching skills in ranking order, and any other matching skill ranks behind three of them; a blank input has none |
| TriggerSearch.TopThreeUnique | internal/core/skills/registry.go:44-89 | that description fixes the suggestions |
| TriggerSearch.TopThreeIsSuggested | internal/core/skills/registry.go:44-89 | in plain terms: at most three skills with those ranks, best first and by name within a rank; a skill with a rank is left out only for three ahead of it |
| TableLayout.FitEndsIff | internal/render/table.go:73-97 | the fit loop ends exactly when the width leaves room for the separators and one character per column with any text |
| TableLayout.FitNeverEnds | internal/render/table.go:73-97 | below that, the line is still too wide after any number of rounds |
| TableLayout.FloorBound | internal/render/table.go:68-69 | four characters a column less three is always enough, and is the exact floor when no column is empty |
| TableLayout.ShrinkStep | internal/render/table.go:81-96 | a round narrows the widest column; the line then either fits exactly or that column has one character left |
| TableLayout.Fit | internal/render/table.go:73-97 | the loop stops at the first round whose line fits; widths stay natural if they fit, else the line is exactly as wide as asked, the widest columns cut first and at most one of them to more than one character |
| TableLayout.BeforeTheStop | internal/render/table.go:73-97 | every round but the last cuts the widest column to one character |
| TableLayout.CutsNoneWideIff | internal/render/table.go:73-97 | no column is cut to two characters or more exactly when nothing needs cutting or cutting widest columns to one character each meets the width exactly |
| TableLayout.NaturalHoldsAll | internal/render/table.go:53-66 | a natural width holds every text of its column and is no larger than the longest |
| TableLayout.NaturalWidths | internal/render/table.go:53-66 | the widths computed are the natural ones; cells beyond the headers do not count |
| TableLayout.ShownCell | internal/render/table.go:106-135 | a cell is shown exactly as wide as its column: whole and placed by its alignment if it fits, else its start up to the last place |
| TableLayout.CellsInColumns | internal/render/table.go:157-186 | on every row a column's cell stands at the same place, so columns line up |
| TableLayout.LinesAreTotal | internal/render/table.go:155-186 | a row and the rule have the length of all widths and separators |
| TableLayout.LinesShow | internal/render/table.go:106-186 | place by place: columns start three places apart, each cell is whole between its blanks or cut with an ellipsis, bars stand between cells and crosses between dashes, in header, rule and every row, in order |
| TableLayout.Render | internal/render/table.go:47-188 | the header, the rule and every row are there in order, all of one length: the natural one if it fits, else the width |
| TableLayout.LineBytes | internal/render/table.go:106-186 | a line takes a byte a place, and those its fitted cells take beyond that |
| TableLayout.ExtraZeroIff | internal/render/table.go:106-117 | the cells of a line take none beyond that exactly when each, once fitted, is of one-byte characters |
| TableLayout.BytesWithinIff | internal/render/table.go:45-186 | for any text, the lines stay within the width in bytes exactly when on each the bytes of wide characters are made up for by places left over; at full width, exactly when none is shown, the ellipsis being one |
| TableLayout.OneByteWithinIff | internal/render/table.go:45-186 | for a table of one-byte characters, exactly when it fits uncut or cutting widest columns to one character each meets the width exactly |
| TableLayout.CutHeaderTooLong | internal/render/table.go:45-186 | a table of one header of six letters, at width three, has a line of five bytes |
| TableLayout.WideHeaderTooLong | internal/render/table.go:45-186 | a table of one two-byte letter is too long for width one without any cut |
| Fallback.FrontDropped | internal/core/llm/circuit.go:51-62 | dropping the leading stamps up to the cutoff leaves exactly the recent ones |
| Fallback.Breaker.Prune | internal/core/llm/circuit.go:51-62 | as many stamps remain as failures, of all ever recorded, lie after the cutoff |
| Fallback.Breaker.RecordFailure | internal/core/llm/circuit.go:34-40 | one failure more is recorded |
| Fallback.Breaker.IsOpen | internal/core/llm/circuit.go:43-48 | the breaker is open exactly when at least the threshold of all failures ever recorded lie strictly after the cutoff |
| Fallback.FallbackProvider.constructor | internal/core/llm/fallback.go:40-59 | limits that are not positive become three failures in a minute, and each candidate gets a breaker of its own |
| Fallback.FallbackProvider.Try | internal/core/llm/fallback.go:80-100 | a candidate is dialed exactly when fewer failures than the threshold lie in its window, and its log grows by the time of a failed dial, unless the caller has gone, and by nothing else |
| Fallback.FallbackProvider.Stream | internal/core/llm/fallback.go:72-104 | when a call runs alone, the candidates dialed are exactly those with closed breakers, in order, up to the first that connects; each failed dial is stamped once on its own breaker unless the caller has gone, no other log changes, and the error names the first failure |
| Fallback.DialableIff | internal/core/llm/fallback.go:74-87 | the candidates to dial are all those, and only those, whose breakers are closed, in chain order |
| Fallback.ConnectsIff | internal/core/llm/fallback.go:72-104 | unless the caller is gone the call succeeds exactly when some candidate with a closed breaker connects |
| Fallback.FailuresClose | internal/core/llm/fallback.go:80-92 | after as many failures in a window as the threshold, a candidate is skipped |
| FallbackProtocol.LoadedStep | internal/core/llm/fallback.go:72-120 | every step of interleaved calls keeps a candidate's recent failures, and the calls in its hands that may become one, within what leaves its breaker closed and the calls let through at once |
| FallbackProtocol.FailuresPerWindow | internal/core/llm/fallback.go:72-120 | however calls interleave, a breaker is told of at most the threshold less one failures in any window of time, one more for each call that can be in the candidate's hands at once, and those that streams report after their first |
| FallbackProtocol.FailuresReached | internal/core/llm/fallback.go:72-104 | for any limits and any number of calls at once, a run reaches that bound |
| FallbackProtocol.RunWalked | internal/core/llm/fallback.go:72-104 | in every interleaving a call has passed every candidate before the one it is at: skipped if its breaker was open when asked, or dialed in vain |
| FallbackProtocol.GaveUpAfterAll | internal/core/llm/fallback.go:72-104 | a call gives up only after passing every candidate; it reports that none was available exactly when it found all breakers open, and else names the first candidate it dialed, in vain |
| SecretsFile.ParsePrinted | internal/secrets/store.go:59-83 | a printed entry is read back, its value without trailing white space |
| SecretsFile.ParsedIsGood | internal/secrets/store.go:59-83 | what a line yields can be printed and read again |
| SecretsFile.CommentHasNoEntry | internal/secrets/store.go:59-69 | a line whose first character after blanks is the comment sign exports nothing |
| SecretsFile.BlanksAroundKey | internal/secrets/store.go:61-83 | blanks before and behind the key and at the end of the line are taken off, those that begin the value are kept |
| SecretsFile.SignlessHasNoEntry | internal/secrets/store.go:70-80 | a line without an equals sign exports nothing |
| SecretsFile.KeylessHasNoEntry | internal/secrets/store.go:82-88 | nor does one with nothing before it |
| SecretsFile.RoundTrip | internal/secrets/store.go:123-175 | reading the sorted file gives the entries, values without trailing white space |
| SecretsFile.ReadEntries | internal/secrets/store.go:123-143 | Add reads the map that the file's lines define, later lines winning |
| SecretsFile.LaterLineWins | internal/secrets/store.go:123-143 | a further line replaces what the lines before it say of its key, and of no other |
| SecretsFile.Store.Load | internal/secrets/store.go:45-97 | Load exports that same map over the environment and remembers its keys; a missing file changes nothing |
| SecretsFile.WriteFile | internal/secrets/store.go:150-175 | the file written holds exactly the entries, in key order |
| SecretsFile.FileIsInOrder | internal/secrets/store.go:150-175 | a file of two entries is their two lines, the smaller key first |
| SecretsFile.Store.Add | internal/secrets/store.go:105-203 | a bad key or a value of several lines is refused without effect; else the new file holds the old entries with the new one |
| SecretsFile.AddThenRead | internal/secrets/store.go:105-175 | whatever comments, malformed lines or repeated keys the old file had, reading the new one gives its entries with only the key's value replaced, stripped of trailing white space |
| SecretsFile.FileIsCanonical | internal/secrets/store.go:157-175 | the entries fix the file, whatever order the map yields them in |
| SecretsFile.AddsCommute | internal/secrets/store.go:105-175 | adding stripped values to two different keys gives the same file in either order |
| SecretsFile.AddAgain | internal/secrets/store.go:105-175 | adding the same stripped value again leaves the file as it is |
| SecretsFile.ExportedAgreesIff | internal/secrets/store.go:193-196 | the value Add exports is the one a later Load exports exactly when it has no trailing white space |
| SecretsFile.TrailingSpaceIsLost | internal/secrets/store.go:193-196 | a value with a trailing space that a later load exports without it |
| Sorting.SortedKeys | internal/secrets/store.go:157-161 | the keys come out sorted, each once |
| Sorting.SortedUnique | internal/secrets/store.go:157-161 | a set of keys has one sorted list |
| Sorting.LessIff | internal/secrets/store.go:157-161 | the order is lexicographic: up to some place the two agree, and there the first ends or has the smaller character |
| ToolRegistry.AdvertisedResolves | internal/core/tools/registry.go:142-153 | without name collisions every name ever shown to a provider leads to its own tool, or nowhere if a filter dropped that tool |
| ToolRegistry.AllResolveIff | internal/core/tools/registry.go:142-153 | once every tool is advertised under its safe name, all of them resolve exactly when no two names collide, whatever aliases of dropped tools a filtered registry has inherited |
| ToolRegistry.CollidingNames | internal/core/tools/registry.go:142-153 | two tools whose safe names collide: the safe name of one leads to the other |
| ToolRegistry.MatchesAny | internal/core/tools/registry.go:327-338 | a name matches exactly when it equals a pattern, character by character, or begins with what stands before a pattern's final star |
| ToolRegistry.Registry.Register | internal/core/tools/registry.go:121-126 | a name is taken once |
| ToolRegistry.Registry.Get | internal/core/tools/registry.go:142-153 | lookup by registered name, then by alias, never leaves the registry's own tools |
| ToolRegistry.Registry.Filter | internal/core/tools/registry.go:168-187 | the copy holds exactly the tools whose name equals an allowed pattern or begins with what stands before its final star, and all aliases still lead to them |
| ToolRegistry.Registry.ToolsFor | internal/core/tools/registry.go:277-311 | every tool is shown once, in name order, with its description, and with underscores for dots exactly towards the five hosted providers; the shown name is recorded as its alias, and then all tools resolve exactly when no two names collide |

## Left out

- Styling and text layout of the diff: lines are opaque and the header is its four numbers.
- HTTP clients, webhooks, signature checks, cloud and cluster probes: they are input and output.
- `Policy.Authorize` beyond the rate limit: allowlists and routes are single lookups, so authorisation is an input.
- Delivery, sessions and timeouts of a ChatOps job: a worker picks a job up and finishes it.
- Persistence of conversations, file modes, atomic renames and failures to read or write a file.
- `summarizeMessages`: the summary is any text, or none when the summariser fails.
- Decoding of server-sent events and JSON, and the scanner's line limit: events are already decoded, and which texts are
  JSON objects is an input.
- Stream chunks with several parts at once: each chunk carries one, as the modelled parser emits them.
- `truncateMiddle` and the rendering of observations: the text of a tool result is an input.
- The refresh of a running tool's header (`streamToolTickMsg`): it searches rendered text.
- The viewport's scroll position, the layout of tool headers and observations, and the splash and key handling of the UI.
- The markdown renderer and its cleaning step: one uninterpreted table per renderer, with the raw text where it fails.
- Bytes and encodings: texts are sequences of characters, and so are lengths and positions, except where a table's lines
  are counted in bytes.
- Integer wrap-around of the version counter and of the poller's update ids.
- Lower-casing and trimming of triggers and inputs: they arrive normalised.
- The mutator-verb check of tool registration, skipped groups and the inventory.
- Admission.Service.Handle: states the outcome of one call that runs alone; concurrent calls are in AdmissionProtocol.
- RateDisorder.MinuteCanExceedIff: is about minutes before which all earlier checks read the clock and within or after
  which all later ones do.
- TelegramPoller.BelowOffsetIsSettled: assumes a server that serves pending updates in order; LostIffPassedOver has no
  such assumption.
- UpdateDelivery.ServedUpdateHasItsJob: assumes that no call is refused while another with its key is under way, without
  which it is false (RefusalIsSafeIff).
- Fallback.FallbackProvider.Stream: states one call that runs alone; concurrent calls are in FallbackProtocol.
- Agent.ThirdAlikeNeverRuns: is about one run with the duplicate-call hook first in the chain, as the default chain has
  it; across runs it holds while the same hook object is kept.
- StreamBuffer.NothingLost: excludes clears, which drop the live turn on purpose.
