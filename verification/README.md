# Models of the agent's self-contained algorithms

Dafny models of parts of the coding agent and its desktop GUI that carry state or arithmetic of
their own, and proofs of what they promise. One module per part:

- `LineStream`, `LineProtocol`: the cancel-safe line stream. A producer cuts a byte stream into
  capped lines and sends them through a bounded channel; a poll-based reader serves them in pieces
  of any size. A step system in which every interleaving is a run.
- `Transcript`: reading the end of a session's history through a window of the file, and paging back.
- `TurnQueue`, `PermissionQueue`: the GUI's message queue of a session and its permission dialogs.
  The code between two awaits is one step; failures and backend events are steps of an adversary.
- `Interner`: an arena of strings with hash buckets, for any hash function.
- `Redact`: the scanner that masks credentials.
- `Discovery`: which subagents are listed and what a name resolves to.
- `BridgeGenerations`: event forwarders racing with the replacement of their bridge.
- `CompactionPaths`, `SegmentRender`: names, paths and size of compaction segments.
- `Usage`: the saturating billing ledger.
- `ConfigSync`: the block-wise update of a TOML file.
- `Prelude`: shared vocabulary.

Code that updates objects or runs loops is modelled by classes and methods. Each is tied to a
function on values (`Apply`, `Scan`, `Sum`, ...), and the theorems are about that function or about
all runs of it. `dafny verify dfyconfig.toml` checks the project.

Where a promise of the source does not hold, there is a lemma with the input that breaks it beside
the exact condition under which it holds:

- useAgent.ts:612-627 frees a session whenever a permission of it is cancelled. The bridge cancels
  permissions after it reports the end of their turn (commands.rs:168-180), so the next turn is
  already running: two prompts can be in flight (`TurnQueue.CancelledPermissionFreesARunningTurn`;
  exactly when not: `RunIsSoundIffHarmless`).
- useAgent.ts:790-793 leaves the mark of "insert immediately" set when a dispatch fails, and a later
  abort by the user sends the queue instead of dropping it (`TurnQueue.StaleMarkSendsAfterAbort`).
  Lines 966-968 clear it when any request to cancel fails, also while another press is alive, and the
  queue is dropped (`FailedRequestDropsTheQueue`); so does a cancelled permission
  (`FreedSessionDropsTheQueue`). The mark is right in exactly the other runs: `MarkIsExactIff`,
  `AbortDropsQueueIff`.
- useAgent.ts:1020-1025 takes every failure but "gone" as retryable. When the bridge is lost while an
  answer is on its way, the dialog comes back for a request that no longer exists
  (`PermissionQueue.DeadDialogReturns`; exactly when: `RunKeepsNoneVoid`).
- commands.rs:39-42 says that late events of a replaced bridge are dropped. One can get through,
  since the check precedes the wait (`BridgeGenerations.LateEventGetsThrough`; exactly when:
  `LateEventIff`).
- commands.rs:184-190 publishes a notice when events were missed and expects to forward it. The
  channel is then full, the notice pushes out one more event, and the forwarder is behind again: nothing
  of that bridge is forwarded any more (`BridgeGenerations.BehindIsForGood`; it happens exactly when
  more events than the channel holds are left unread: `FallsBehindIff`, `FloodFallsBehind`).
- discovery.rs:122-128 promises that what is listed can be called. It can exactly when the first file
  that declares the name and the first file called by it agree, and the name is not that of a built-in
  agent that is no subagent (`Discovery.VisibleIsCallable`; on the files: `LookupIsScanIff`). Both
  kinds of name fail: `ReservedNamesAreListed`, `MisnamedFilesAreListed`.
- useAgent.ts:503-510 takes a page that shows nothing for an empty history. Then nothing can be loaded
  any more: the history is shown exactly when one of the last messages asked for has something to show
  and starts in the window, or none has anything to show (`Transcript.ReplayEverything`). It is hidden
  when no message line starts in the window (`HistoryIsHidden`), and when the last messages show
  nothing, as results of tools do (`SilentTailHidesHistory`).
- compaction_transcript.rs:118-119 says that paths are anchored at a component; any text may precede
  `compaction/` (`CompactionPaths.SegmentPaths`, an if and only if).
- compaction_transcript.rs:479-480 says that the document stays under the cap. It does exactly when
  the separators, which are not charged, fit in what is left (`SegmentRender.DocumentLength`): it takes
  at least 56 rendered turns to fail (`SizeOfDocument`, `CapIsExceeded`), and it fails for every preamble
  that is over the cap by itself, as the budget saturates at zero (`NoRoom`).
- sync_codely_222.py:146 means to insert before `[ui]`, which is never found
  (`ConfigSync.PlainUiIsNotFound`; for all texts: `AppendedWhenMissing`). A second sync changes a text
  exactly when it has neither the key nor `[model.ui]` and an open last line that is not blank
  (`ConfigSync.SecondSyncIsFinal`; for a list of models: `SecondPassIsFinal`).
- interner.rs:132-138 casts lengths, offsets and ids. Interning a new string twice gives one id exactly
  when its length fits a u16, its id a u32, and its bytes stand where the cast offset points, as they
  do in an arena whose length fits a u32 (`Interner.InternTwice`, `LengthCastIsExact`).

## Model

| member | source | states |
|---|---|---|
| LineStream.LinesIsTheOnlySplit | crates/codegen/cf-acp-lib/src/line_reader.rs:135-177 | a list of byte strings is the cut of the source at newlines, terminators kept and only the last line possibly unterminated, if and only if it is the one `Lines` gives: the split is unique, so chunking cannot change it |
| LineStream.WholeLinesEndAtBoundary | crates/codegen/cf-acp-lib/src/line_reader.rs:8-12 | any number of whole lines of a source ends at a line boundary of it |
| Prelude.FindNewline | crates/codegen/cf-acp-lib/src/line_reader.rs:151-160 | the position of the first newline of a byte string, or that there is none |
| LineStream.FirstLineEndsAt | crates/codegen/cf-acp-lib/src/line_reader.rs:151-160 | the first newline of a chunk ends its first line; without one the whole chunk belongs to it |
| LineStream.SourceHolds | crates/codegen/cf-acp-lib/src/line_reader.rs:147-150 | what a source has to read are the bytes of its chunks, one after the other, up to its first fault |
| LineStream.ReadLineCapped | crates/codegen/cf-acp-lib/src/line_reader.rs:140-177 | whatever chunks the source delivers: the result is the first line of what was left, an error exactly when that line with its terminator is over 64 MiB or the source fails before it ends, and zero exactly at the end; exactly the line is consumed; the accumulator never exceeds the cap by more than one chunk |
| LineStream.BufReader.FillBuf | crates/codegen/cf-acp-lib/src/line_reader.rs:147-150 | filling the buffer never changes what is left to read; an empty buffer means the end |
| LineStream.BufReader.Consume | crates/codegen/cf-acp-lib/src/line_reader.rs:162 | consuming drops exactly that many bytes of what is left |
| LineProtocol.LineBufferedRead.PollRead | crates/codegen/cf-acp-lib/src/line_reader.rs:95-133 | one poll on the real cursor, buffer and channel is the `Poll` step of the protocol, writes the served bytes to the front of the output buffer and leaves the rest of it alone |
| LineProtocol.StepKeepsInv | crates/codegen/cf-acp-lib/src/line_reader.rs:66-133 | every step of the producer (fill, end, fault, send) and every poll with an output buffer of any size keeps the protocol invariant |
| LineProtocol.BytesAreConserved | crates/codegen/cf-acp-lib/src/line_reader.rs:66-133 | in every interleaving, until an error item is made or the receiver is dropped: delivered bytes, the rest of the current line, the queued lines, the line in hand and the unread source, in this order, are the source |
| LineProtocol.DeliveredIsAPrefix | crates/codegen/cf-acp-lib/src/line_reader.rs:95-133 | in every interleaving, errors included, what was delivered is a prefix of the source |
| LineProtocol.ServedIsBoundary | crates/codegen/cf-acp-lib/src/line_reader.rs:32-39 | what was taken from the channel ends at a line boundary of the source |
| LineProtocol.PendingOnlyBetweenLines | crates/codegen/cf-acp-lib/src/line_reader.rs:8-12 | a poll suspends only when the delivered bytes are empty, end in a newline, or are the whole source: no consumer can be cancelled inside a line |
| LineProtocol.ZeroBytesMeansTheEnd | crates/codegen/cf-acp-lib/src/line_reader.rs:128-130 | zero bytes into a nonempty buffer means the producer has ended and every line sent was delivered; no error was reported exactly when every line is within the cap and the source does not fail, and then the whole source was delivered; otherwise exactly one error, the one that stops the source, was reported |
| LineProtocol.WaitingPollHasALiveProducer | crates/codegen/cf-acp-lib/src/line_reader.rs:66-85 | when a poll has to wait, the producer has an enabled step: no deadlock on the bounded channel |
| LineProtocol.StepUsesUpWork | crates/codegen/cf-acp-lib/src/line_reader.rs:66-133 | every step that is not an idle poll makes progress |
| LineProtocol.RunsAreBounded | crates/codegen/cf-acp-lib/src/line_reader.rs:66-133 | a source of n bytes is through after at most 6n + 4 steps that are not idle polls |
| LineProtocol.ReadIsARun | crates/codegen/cf-acp-lib/src/line_reader.rs:71-84 | whatever line or error the capped read comes to, however the source was cut into chunks, what the producer does with it is a run of producer steps |
| LineProtocol.Running.Produce | crates/codegen/cf-acp-lib/src/line_reader.rs:68-85 | the producer, from one await to the next, on the real source and channel: it reads the first line of what is left, or the error or end there is instead; a line in hand goes to the end of the channel whenever a live receiver has fewer than 65 items in it; it stands still only at its end and at a full channel, and every other turn lowers the work that is left |
| LineProtocol.Running.Consume | crates/codegen/cf-acp-lib/src/line_reader.rs:95-133 | a poll of the running reader is the poll of what it holds and what is in the channel, and what it returns is what was delivered or reported |
| LineProtocol.Execute | crates/codegen/cf-acp-lib/src/line_reader.rs:62-133 | under every schedule of the producer, the polls and a drop of the reader, the code stays within the reachable states, so all of the above is true of it, and what it delivers is a prefix of the source; when producer and polls with room take turns, 12n + 10 turns deliver a source of n bytes whole if every line is within the cap and the source does not fail, and otherwise every line sent before the one error that is reported |
| LineProtocol.IdlePoll | crates/codegen/cf-acp-lib/src/line_reader.rs:95-133 | a poll with room that moves nothing leaves the producer able to move, unless everything sent was delivered and the producer has ended |
| LineProtocol.LineIsFetched | crates/codegen/cf-acp-lib/src/line_reader.rs:140-177 | what the producer holds after a read is the first line of what was left, within 67108864 bytes and ended by a newline or the source, or the error there is instead |
| Transcript.CountNewlinesPrefix | gui/src-tauri/src/transcript.rs:122-141 | however the reads split the file, the number of newlines in its first `end` bytes |
| Transcript.ParseJsonl | gui/src-tauri/src/transcript.rs:143-159 | the messages of the lines that parse, each with its line number from `base` on, and the number of bad lines |
| Transcript.CountBadIs | gui/src-tauri/src/transcript.rs:143-159 | the number reported is that of the lines that are neither blank nor a message |
| Transcript.ReadWindow | gui/src-tauri/src/transcript.rs:166-197 | the text kept of a large file and its first line number parse to exactly the messages of the full reading whose line starts at or after the window offset, with the line numbers of the full reading |
| Transcript.TailPage | gui/src-tauri/src/transcript.rs:161-211 | for every file, window and limit: the last `limit` messages of the full reading among the lines that start in the window (all lines when the file fits), with the line number of the first one; total, size and whether the file is longer than the window are reported as they are |
| Transcript.EarlierPage | gui/src-tauri/src/transcript.rs:213-250 | the last `limit` messages of the full reading with a line number below `before` |
| Transcript.EarlierRing | gui/src-tauri/src/transcript.rs:222-240 | the bounded ring holds the last `limit` messages of the lines before `before` |
| Transcript.WindowAtLineStart | gui/src-tauri/src/transcript.rs:171-184 | when the byte before the window is a newline, nothing is dropped and the prefix count is the number of the first line |
| Transcript.WindowInsideLine | gui/src-tauri/src/transcript.rs:185-191 | when the window cuts a line, dropping up to the first newline keeps exactly the lines that start in the window, numbered from the prefix count plus one |
| Transcript.WindowInsideLastLine | gui/src-tauri/src/transcript.rs:186-189 | when no newline is in the window, no line starts in it |
| Transcript.TailIsASuffix | gui/src-tauri/src/transcript.rs:161-211 | a tail page is always the end of the full reading: of the last `limit` messages, exactly those that start in the window |
| Transcript.TailThenEarlierIsEverything | gui/src/composables/useAgent.ts:545-571 | a tail page and then everything before its first line is the full reading, once and in order, if and only if the tail page is not empty or there was nothing to read; the tail page is not empty if and only if a message is asked for and a line that holds one starts in the window |
| Transcript.TailIsEmptyIff | gui/src-tauri/src/transcript.rs:161-211 | the tail page has a message if and only if one is asked for and a line that holds one starts in the window |
| Transcript.HistoryIsHidden | gui/src-tauri/src/transcript.rs:185-203 | the failing family: every file with messages of which no line starts in the window has an empty tail page, and loading from it does not give the history |
| Transcript.OneLongLineHidesHistory | gui/src-tauri/src/transcript.rs:185-203 | a file that is one message line longer than the window is in that family |
| Transcript.PagingEnumeratesAll | gui/src-tauri/src/transcript.rs:213-250 | pages of any size of at least one, each asked for from where the previous began, concatenate to all messages before the start: no gap, no duplicate, and it ends |
| Transcript.Replay.InjectReplay | gui/src/composables/useAgent.ts:491-528 | the replayed bubbles go in front of the transcript, and the cursor points at the first line of the page |
| Transcript.Replay.LoadEarlierMessages | gui/src/composables/useAgent.ts:545-571 | loading the rest puts everything before the cursor in front of the transcript, once |
| Transcript.TailShowsIff | gui/src/composables/useAgent.ts:477-510 | the replayed page shows something if and only if one of the last `limit` messages of the file has something to show and starts in the window |
| Transcript.SilentTailHidesHistory | gui/src/composables/useAgent.ts:503-510 | a second failing family: every file whose last `limit` messages show nothing while an earlier one would; its tail page has messages, renders to nothing, and the history is hidden |
| Transcript.ReplayEverything | gui/src/composables/useAgent.ts:491-571 | on an unchanged file, a replay followed by loading the rest shows the whole history in order if one of the last `limit` messages has something to show and starts in the window, and nothing otherwise; so it is the whole history if and only if there is such a message or no message has anything to show |
| TurnQueue.SessionBucket.SendTask | gui/src/composables/useAgent.ts:915-933 | blank input without images, and a session that cannot be opened, change nothing; any other message goes out at once when the session is idle and to the end of the queue when it is busy |
| TurnQueue.SessionBucket.DoSend | gui/src/composables/useAgent.ts:763-781 | a message that is sent is dispatched last and makes the session busy |
| TurnQueue.SessionBucket.Drain | gui/src/composables/useAgent.ts:754-760 | an idle session sends the head of its queue, a busy one nothing |
| TurnQueue.SessionBucket.DispatchFailed | gui/src/composables/useAgent.ts:790-793 | a failed dispatch makes the session idle and leaves the queue alone |
| TurnQueue.SessionBucket.TurnCompleted | gui/src/composables/useAgent.ts:636-676 | for every state and stop reason: after `cancelled` or `rejected` without the mark the queue is dropped and nothing is sent; otherwise the head of the queue is sent, if there is one; the mark is cleared |
| TurnQueue.SessionBucket.OnPermissionCancelled | gui/src/composables/useAgent.ts:612-627 | a cancelled permission makes a busy session idle and sends nothing |
| TurnQueue.SessionBucket.OnDisconnected | gui/src/composables/useAgent.ts:678-687 | a lost connection makes the session idle and drops its queue, also that of an idle session whose dispatch failed |
| TurnQueue.SessionBucket.FlushQueueNow | gui/src/composables/useAgent.ts:961-972 | insert immediately: with nothing waiting it changes nothing; a busy session is marked and keeps its queue; an idle one sends the head of the queue |
| TurnQueue.SessionBucket.RequestFailed | gui/src/composables/useAgent.ts:966-968 | a failed request to cancel clears the mark, whichever press it was made for |
| TurnQueue.SessionBucket.RemoveQueued | gui/src/composables/useAgent.ts:975-979 | takes exactly the messages with that id out of the queue and keeps the order of the others |
| TurnQueue.StepIsSoundIffHarmless | gui/src/composables/useAgent.ts:636-695 | one prompt in flight exactly when busy, and an empty queue when idle: a step keeps this if and only if it is not a dispatch failure with messages waiting, a late completion or a cancelled permission of a busy session, or a lost connection with a dispatch unsettled |
| TurnQueue.RunIsSoundIffHarmless | gui/src/composables/useAgent.ts:636-695 | over whole runs the promise holds in every state if and only if every step was harmless |
| TurnQueue.WellBehavedRunsAreSound | gui/src/composables/useAgent.ts:754-794 | without failed dispatches, cancelled permissions and lost connections the promise holds in every reachable state |
| TurnQueue.CancelledPermissionFreesARunningTurn | gui/src/composables/useAgent.ts:612-627 | a run in which the permission cancelled at the end of one turn frees the next, running turn, and two prompts are in flight |
| TurnQueue.StepKeepsOrder | gui/src/composables/useAgent.ts:754-794 | what went out followed by what waits is in submission order; a step keeps this if and only if it is not a message sent while an idle session has a queue |
| TurnQueue.SoundRunsKeepOrder | gui/src/composables/useAgent.ts:754-794 | while the promise holds, messages go out in the order they were submitted |
| TurnQueue.RunKeepsPartition | gui/src/composables/useAgent.ts:636-695 | in every run, whatever the backend does, the accepted messages are those dispatched, queued, withdrawn and discarded |
| TurnQueue.EveryMessageIsInOnePlace | gui/src/composables/useAgent.ts:636-695 | each accepted message is in exactly one of these places, exactly once |
| TurnQueue.FlushSparesTheQueue | gui/src/composables/useAgent.ts:655-669 | a turn cancelled by insert-immediately discards nothing and sends the head of the queue, whatever was submitted or withdrawn meanwhile; a turn the user aborts drops the queue |
| TurnQueue.FlushSendsTheHead | gui/src/composables/useAgent.ts:969-971 | in every idle state with messages waiting, insert immediately sends the first of them |
| TurnQueue.TurnsSendTheQueue | gui/src/composables/useAgent.ts:655-676 | a busy session sends all of its queue, in order, as its turns end for reasons other than an abort |
| TurnQueue.StrandedQueueGoesOut | gui/src/composables/useAgent.ts:969-971 | a queue stranded by a failed dispatch goes out whole and in order: one press, and then the ends of its turns |
| TurnQueue.CallsAreCounted | gui/src/composables/useAgent.ts:763-795 | over every run, each message that went out is awaiting its call, running, lost with a connection, or accounted for by one failed call or reported end |
| TurnQueue.RequestsAreCounted | gui/src/composables/useAgent.ts:961-972 | over every run, each request to cancel has its own number and has settled once or is outstanding |
| TurnQueue.FlushMarkOutlivesTurn | gui/src/composables/useAgent.ts:790-793 | the mark of insert-immediately is only on busy sessions; a step leaves it on an idle one if and only if it is the failure of a dispatch while the mark is set |
| TurnQueue.StepKeepsMark | gui/src/composables/useAgent.ts:961-972 | from a state in which the mark says exactly whether a press of insert-immediately is alive, a step leads to another one if and only if it is none of: a failed dispatch, a late completion or a cancelled permission while the mark is set, or a failed request to cancel while another press is alive |
| TurnQueue.MarkIsExactIff | gui/src/composables/useAgent.ts:961-972 | over whole runs, the mark says in every state whether a press of insert-immediately is alive (its own request has not failed, and no turn has ended, been lost or failed to start since) if and only if no such step occurs |
| TurnQueue.AbortDropsQueueIff | gui/src/composables/useAgent.ts:655-669 | after any run, an aborted turn drops the waiting messages if and only if the mark is not set; in runs without such a step, if and only if no press is alive |
| TurnQueue.StaleMarkSendsAfterAbort | gui/src/composables/useAgent.ts:655-669 | a run in which the left-over mark makes a turn the user aborts send the queue instead of dropping it |
| TurnQueue.FailedRequestDropsTheQueue | gui/src/composables/useAgent.ts:961-972 | a legal run in which insert is pressed twice and only the first request fails: the second press is alive, the mark is gone, and the abort drops the message |
| TurnQueue.SecondFailedRequestDropsTheQueue | gui/src/composables/useAgent.ts:961-972 | the same when only the second of two requests fails |
| TurnQueue.FreedSessionDropsTheQueue | gui/src/composables/useAgent.ts:612-627 | a legal run in which no request fails and a cancelled permission clears the mark of a press that is alive, so that the end of its turn drops the message |
| PermissionQueue.PermissionPanel.OnPermissionRequest | gui/src/composables/useAgent.ts:596-602 | a request goes to the end of the queue |
| PermissionQueue.PermissionPanel.TakeHead | gui/src/composables/useAgent.ts:1031-1045 | an answer takes the head of the queue unless one is on its way |
| PermissionQueue.PermissionPanel.SubmitSettled | gui/src/composables/useAgent.ts:1011-1029 | a delivered or void answer drops its request and leaves the queue as it is; a retryable failure puts it back at the head |
| PermissionQueue.PermissionPanel.DropSession | gui/src/composables/useAgent.ts:618-619 | takes exactly the requests of one session out of the queue |
| PermissionQueue.PermissionPanel.OnDisconnected | gui/src/composables/useAgent.ts:687 | a lost connection empties the queue |
| PermissionQueue.StepKeepsInv | gui/src/composables/useAgent.ts:596-627 | every event keeps: at most one answer on its way, exactly while submitting, and that request followed by the queue is a subsequence of arrival order |
| PermissionQueue.RunKeepsInv | gui/src/composables/useAgent.ts:995-1045 | the same over every run |
| PermissionQueue.RunConserves | gui/src/composables/useAgent.ts:995-1045 | in every run the arrived requests are those on their way, queued, answered, gone and removed |
| PermissionQueue.AnsweredOnce | gui/src/composables/useAgent.ts:988-995 | no request is answered twice, and one that was answered is not offered again |
| PermissionQueue.StepRemoves | gui/src/composables/useAgent.ts:596-687 | an event takes a request out of the queue unanswered, or makes it void, if and only if it cancels its session or loses the connection while the request is held |
| PermissionQueue.StepKeepsWaiting | gui/src/composables/useAgent.ts:995-1045 | a waiting request leaves the queue only with its session or connection, or as the head whose answer is sent |
| PermissionQueue.RequestIsHeld | gui/src/composables/useAgent.ts:995-1045 | over every run, a request whose session was not cancelled and whose connection was not lost is waiting, on its way, answered, or gone itself |
| PermissionQueue.OneRequestEach | gui/src/composables/useAgent.ts:1011-1029 | over every run, as many requests were answered, and as many are gone, as answers came back so: one answer never touches another request |
| PermissionQueue.RetryRestores | gui/src/composables/useAgent.ts:1007-1010 | after a retryable failure the queue is as if the user had never answered, whatever arrived or was cancelled meanwhile, if and only if that did not cancel the request itself |
| PermissionQueue.StepKeepsNoneVoid | gui/src/composables/useAgent.ts:612-619 | no dialog is left for a cancelled request: a step breaks this if and only if it is the retryable failure of an answer whose request was cancelled on the way |
| PermissionQueue.RunKeepsNoneVoid | gui/src/composables/useAgent.ts:612-619 | the same over every run |
| PermissionQueue.DeadDialogReturns | gui/src/composables/useAgent.ts:1020-1025 | a run in which a dialog comes back after the connection that asked for it is gone |
| Interner.IndexIsExact | crates/codegen/cf-codebase-graph/src/interner.rs:119-144 | for any hash function, a bucket holds the ids of exactly the strings with its hash, in increasing order |
| Interner.SpanAt | crates/codegen/cf-codebase-graph/src/interner.rs:131-138 | the spans tile the arena: each reads back its own string |
| Interner.StringInterner.GetBytesIs | crates/codegen/cf-codebase-graph/src/interner.rs:176-184 | an id reads back the string of its position, and any other number nothing |
| Interner.StringInterner.FindInBucket | crates/codegen/cf-codebase-graph/src/interner.rs:122-129 | the bucket search finds the first id of the bucket that reads back the string; in a valid interner, the id of a string exactly when it was interned, colliding hashes or not |
| Interner.StringInterner.GetBytesId | crates/codegen/cf-codebase-graph/src/interner.rs:157-168 | the id of an interned string, and nothing for any other |
| Interner.StringInterner.Append | crates/codegen/cf-codebase-graph/src/interner.rs:131-143 | a new string is added with the casts as written; within their bounds the interner stays the sequence of distinct strings |
| Interner.StringInterner.InternBytes | crates/codegen/cf-codebase-graph/src/interner.rs:119-144 | in any state, the code with its casts is `Intern`; in a valid one and within the bounds of the casts, the strings are those interned so far in first-seen order and the id is the position |
| Interner.StringInterner.InternList | crates/codegen/cf-codebase-graph/src/interner.rs:119-144 | interning a list within the bounds of the casts leaves the strings of the whole run, and each answer is the id of its string at the end of the run |
| Interner.StringInterner.Clear | crates/codegen/cf-codebase-graph/src/interner.rs:253-258 | a cleared interner is the empty one |
| Interner.StringInterner.FromParts | crates/codegen/cf-codebase-graph/src/interner.rs:283-303 | saved parts of a valid interner give that interner: same buckets, same order, so every later answer is the same |
| Interner.RebuildIsIndex | crates/codegen/cf-codebase-graph/src/interner.rs:290-296 | the loop over the spans rebuilds exactly the buckets of the original |
| Interner.RunsOnlyAppend | crates/codegen/cf-codebase-graph/src/interner.rs:119-144 | old ids never change meaning |
| Interner.RunKeepsDistinct | crates/codegen/cf-codebase-graph/src/interner.rs:113-114 | after any run the strings are distinct and are exactly those given |
| Interner.IdsIdentifyStrings | crates/codegen/cf-codebase-graph/src/interner.rs:113-114 | equal strings share an id and different strings do not, whenever each was interned |
| Interner.IdIsFinal | crates/codegen/cf-codebase-graph/src/interner.rs:113-114 | the id handed out at an intern is the id of the string at the end of the run |
| Interner.FirstSeenOrder | crates/codegen/cf-codebase-graph/src/interner.rs:137-138 | new ids are in the order in which the strings were first seen |
| Interner.LengthCastIsExact | crates/codegen/cf-codebase-graph/src/interner.rs:132-138 | for any arena: a string is read back if and only if its length fits a u16 and its bytes stand where the cast offset points; while the length of the arena fits a u32, if and only if its own fits a u16 |
| Interner.InternTwice | crates/codegen/cf-codebase-graph/src/interner.rs:119-144 | interning a new string twice gives one id if and only if it is read back and the number of ids fits a u32; while the arena fits a u32 as well, if and only if its length fits a u16 |
| Interner.FoundAgain | crates/codegen/cf-codebase-graph/src/interner.rs:119-144 | after a new string was appended, the search for it finds its id if and only if no cast cut it off, and nothing else ever |
| Redact.Redact | gui/src-tauri/src/diag.rs:211-250 | the scanning loop computes the rewriting `Scan`, and in what it returns neither pattern is followed by 16 characters of its kind |
| Redact.SkipAlphanumerics | gui/src-tauri/src/diag.rs:220-223 | the end of the maximal run of the 62 letters and digits |
| Redact.SkipBearerChars | gui/src-tauri/src/diag.rs:233-236 | the end of the maximal run of letters, digits and `-_.~+/=` |
| Redact.CleanEverywhere | gui/src-tauri/src/diag.rs:196-201 | text is clean exactly when neither pattern starts at any position |
| Redact.OutputIsClean | gui/src-tauri/src/diag.rs:208-250 | no output contains a credential, whatever the input and wherever substitutions meet copied text |
| Redact.NothingLeaks | gui/src-tauri/src/diag.rs:196-250 | the same said of the characters: no output holds `sk-` and then 16 of the 62 letters and digits, nor `Bearer ` and then 16 of these and `-_.~+/=` |
| Redact.AlphanumericsAre | gui/src-tauri/src/diag.rs:202-206 | the character classes are these characters, one by one |
| Redact.UnchangedIffClean | gui/src-tauri/src/diag.rs:208-250 | text comes back unchanged if and only if neither pattern is followed by 16 characters of its kind anywhere |
| Redact.RedactIsIdempotent | gui/src-tauri/src/diag.rs:208-250 | redacting twice is redacting once |
| Redact.TextBeforeIsKept | gui/src-tauri/src/diag.rs:244-247 | text in front of the first credential is kept |
| Redact.FirstKeyIsMasked | gui/src-tauri/src/diag.rs:218-229 | the first key, to the first character that is no letter or digit, is replaced by `sk-XXXX****REDACTED`, and the rest is redacted on its own |
| Redact.FirstTokenIsMasked | gui/src-tauri/src/diag.rs:231-242 | the first bearer token, to the first character outside its class, is replaced by `Bearer ****REDACTED`, and the rest is redacted on its own |
| Redact.RunsShrink | gui/src-tauri/src/diag.rs:208-250 | redaction never makes a run of either kind longer, so copying completes no match |
| Discovery.Discovered.LoadDefinitionsFromDir | crates/codegen/cf-agent/src/discovery.rs:629-662 | of the definitions read so far, exactly the first of each name is kept, in order |
| Discovery.Discover | crates/codegen/cf-agent/src/discovery.rs:231-248 | the definitions of all directories, project first, each name once |
| Discovery.MergeOne | crates/codegen/cf-agent/src/discovery.rs:129-175 | one definition turns the listing of those before it into the listing with it |
| Discovery.FilterByToggle | crates/codegen/cf-agent/src/discovery.rs:176-180 | a toggle hides the names it maps to false and no others: the visible entries keep the order and multiplicity of the listing, and with no toggles it comes back whole |
| Discovery.MergeSubagents | crates/codegen/cf-agent/src/discovery.rs:92-181 | the listing: the built-in subagents and then new names in order of appearance, each with the first admitted definition of the highest scope; of these, all but the names toggled to false, in the same order |
| Discovery.AllSubagents | crates/codegen/cf-agent/src/discovery.rs:79-87 | the listing of what discovery finds; an entry is visible if and only if it is in that listing and its name is not toggled to false |
| Discovery.DefaultListing | crates/codegen/cf-agent/src/discovery.rs:92-115 | without definition files the listing is general-purpose, explore and plan, as built in |
| Discovery.BestIsPreferred | crates/codegen/cf-agent/src/discovery.rs:145-153 | the entry of a name shows the admitted definition of the highest scope, and of those the first found |
| Discovery.ListedOnce | crates/codegen/cf-agent/src/discovery.rs:145-175 | no name is listed twice |
| Discovery.FirstIsFound | crates/codegen/cf-agent/src/discovery.rs:574-662 | the scan takes what it says of a name from the first readable file that declares it, and the lookup from the first readable file called by it; each finds something if and only if there is such a file |
| Discovery.LookupIsScanIff | crates/codegen/cf-agent/src/discovery.rs:574-662 | the lookup in some directories finds what the scan sees if and only if no readable file declares the name or is called by it, or the first that declares it and the first that is called by it have one header and one scope |
| Discovery.ScanFindsTheSame | crates/codegen/cf-agent/src/discovery.rs:574-627 | in directories where the readable files that declare a name are those called by it, the lookup of that name finds what the scan sees first; other files may be called anything |
| Discovery.BestOfFirst | crates/codegen/cf-agent/src/discovery.rs:129-175 | after deduplication a listing shows the first definition of a name if it is admitted, and none otherwise |
| Discovery.VisibleIsCallable | crates/codegen/cf-agent/src/discovery.rs:118-125 | for every tree, a listed agent resolves by its name to the scope and description shown if and only if two conditions on the files hold: among the project files, and if none of them declares the name and it is not built in also among the user files, the first file that declares it and the first that is called by it agree or neither exists; and the name is not that of a built-in agent that is no subagent and has no project file |
| Discovery.CallableIsVisible | crates/codegen/cf-agent/src/discovery.rs:118-125 | for every tree, a name is listed if and only if it is a subagent or a readable file declares it, and can be called if and only if it is built in or a readable file is called by it |
| Discovery.EveryVisibleEntryResolves | crates/codegen/cf-agent/src/discovery.rs:66-74 | the same if and only if, on the files, for what the user sees after the toggles; an entry shadows a built-in exactly when a project file redefines a subagent |
| Discovery.ReservedNamesAreListed | crates/codegen/cf-agent/src/discovery.rs:133-141 | one failing family: every name of a built-in agent that is no subagent, declared by a user or bundled file and by no project file, and the stem of no project file, is listed with that file and resolves to the built-in agent |
| Discovery.ReservedNameIsListed | crates/codegen/cf-agent/src/discovery.rs:133-141 | a user file `codex` is in that family |
| Discovery.MisnamedFilesAreListed | crates/codegen/cf-agent/src/discovery.rs:574-587 | the other failing family: every name that is not built in, declared by some readable file and the stem of none, is listed and resolves to nothing |
| Discovery.MisnamedFileIsListed | crates/codegen/cf-agent/src/discovery.rs:574-587 | a project file `planner` that declares `critic` is in that family |
| BridgeGenerations.BridgeState.IssueGeneration | gui/src-tauri/src/commands.rs:57-67 | each call issues the next number, wrapping at 2^64 |
| BridgeGenerations.ForwardTask.CheckGeneration | gui/src-tauri/src/commands.rs:163-165 | the loop goes on to wait exactly when its generation is the current one |
| BridgeGenerations.ForwardTask.OnDelivery | gui/src-tauri/src/commands.rs:166-189 | an event is emitted, the end of a turn first publishes its void permissions, and a lag publishes a notice and emits nothing; the histories grow by just that |
| BridgeGenerations.GenerationsDiffer | gui/src-tauri/src/commands.rs:62-66 | two bridges share a generation if and only if a multiple of 2^64 replacements lies between them |
| BridgeGenerations.OnlyTheNewestGoesOn | gui/src-tauri/src/commands.rs:163-165 | in every reachable state the forwarder of the newest bridge passes its check, and every other one retires at it |
| BridgeGenerations.NewestPassesAllOn | gui/src-tauri/src/commands.rs:161-183 | a newest forwarder that keeps up passes on everything that is waiting, in order |
| BridgeGenerations.StepKeepsBound | gui/src-tauri/src/commands.rs:157-193 | every step of every forwarder keeps the bound on late events |
| BridgeGenerations.AtMostOneLateEvent | gui/src-tauri/src/commands.rs:157-193 | in every interleaving a forwarder emits at most one event after a newer generation was issued, and only if it was past its check by then |
| BridgeGenerations.LateEventIff | gui/src-tauri/src/commands.rs:157-193 | for every run and replaced bridge: no event is late when its forwarder had not passed the check as the newer generation was issued; when it had, exactly one is late as soon as it has moved on, unless it fell behind |
| BridgeGenerations.LateEventGetsThrough | gui/src-tauri/src/commands.rs:39-42 | a run in which the event of a replaced bridge reaches the GUI |
| BridgeGenerations.SeenInOrder | gui/src-tauri/src/commands.rs:161-193 | what the GUI has seen of a bridge is a prefix of what the bridge published, and nothing is missing but the unread rest while the forwarder keeps up; the channel holds the newest events, 1024 at most, and that many when the forwarder is behind |
| BridgeGenerations.BehindIsForGood | gui/src-tauri/src/commands.rs:184-190 | once a forwarder has missed an event, nothing more of that bridge reaches the GUI in any run, the notice of the loss included |
| BridgeGenerations.FallsBehindIff | gui/src-tauri/src/commands.rs:184-190 | one more event leaves a forwarder behind if and only if it was behind or the channel was full of unread ones |
| BridgeGenerations.FloodFallsBehind | gui/src-tauri/src/commands.rs:184-190 | in a run from the start, a forwarder falls behind if and only if more events than the channel holds, whatever they are, are published before it reads |
| CompactionPaths.FilenameRoundTrip | crates/codegen/cf-chat-state/src/compaction_transcript.rs:81-97 | the file name of every u64 index parses back to it |
| CompactionPaths.AcceptedNames | crates/codegen/cf-chat-state/src/compaction_transcript.rs:90-97 | a name parses to an index if and only if it is the prefix, a number that reads as that u64 (a plus sign and leading zeros allowed) and the suffix |
| CompactionPaths.U64Numbers | crates/codegen/cf-chat-state/src/compaction_transcript.rs:92-97 | what reads as a number: digits, with or without a plus sign, up to 18446744073709551615 |
| CompactionPaths.WrittenNames | crates/codegen/cf-chat-state/src/compaction_transcript.rs:81-88 | a written name is `segment_`, the index in at least three digits without needless zeros, and `.md` |
| CompactionPaths.RewrittenNames | crates/codegen/cf-chat-state/src/compaction_transcript.rs:81-97 | an accepted number is what would be written for its index if and only if it has at least three digits and no needless leading zero or sign |
| CompactionPaths.SegmentPaths | crates/codegen/cf-chat-state/src/compaction_transcript.rs:118-141 | a path is a segment if and only if it is any prefix, `compaction/`, and a name that parses to that index; the prefix need not end at a component |
| CompactionPaths.SegmentsAreRecognised | crates/codegen/cf-chat-state/src/compaction_transcript.rs:120-141 | below any prefix, other occurrences of `compaction` in it included, a written segment is classified as itself |
| CompactionPaths.IndexIsRecognised | crates/codegen/cf-chat-state/src/compaction_transcript.rs:136-137 | a path is the index if and only if it is any prefix, `compaction/` and the name of the index file |
| CompactionPaths.StoreDirs | crates/codegen/cf-chat-state/src/compaction_transcript.rs:123-130 | a path is the store itself if and only if it is a component named `compaction` with any number of slashes behind it |
| SegmentRender.RenderSegmentMd | crates/codegen/cf-chat-state/src/compaction_transcript.rs:437-507 | without turns the preamble alone; otherwise the preamble, the turns that fit joined by newlines, and a notice with the number left out when there are any |
| SegmentRender.LongestPrefixFits | crates/codegen/cf-chat-state/src/compaction_transcript.rs:484-495 | a prefix of the turns is within the budget if and only if it is no longer than the rendered one: the rendered turns are the longest fitting prefix |
| SegmentRender.RenderedIffFits | crates/codegen/cf-chat-state/src/compaction_transcript.rs:478-495 | a prefix of the turns is rendered if and only if it is empty or it and the preamble stay 128 bytes below 524288 |
| SegmentRender.DocumentHolds | crates/codegen/cf-chat-state/src/compaction_transcript.rs:478-507 | each rendered turn stands in the document behind the preamble, the turns before it and one line break for each of them |
| SegmentRender.DocumentEnds | crates/codegen/cf-chat-state/src/compaction_transcript.rs:498-507 | the document begins with the preamble and ends with the notice if turns are missing; the notice names 524288 as the cap and then the number of turns missing |
| SegmentRender.DocumentLength | crates/codegen/cf-chat-state/src/compaction_transcript.rs:478-507 | for every preamble and list of turns the exact length of the document: what the budget charges, and one separator less than the rendered turns; it is within the cap if and only if the separators fit in what the charged bytes leave |
| SegmentRender.NoRoom | crates/codegen/cf-chat-state/src/compaction_transcript.rs:481-482 | when the preamble leaves no room, no turn with any text is rendered, the length is that of preamble, separators of empty turns and notice, and a preamble over the cap gives a document over the cap |
| SegmentRender.ChargedIsWithinCap | crates/codegen/cf-chat-state/src/compaction_transcript.rs:481-482 | when the preamble leaves room, what is charged stays 54 bytes below the cap, so only separators can break it |
| SegmentRender.SizeOfDocument | crates/codegen/cf-chat-state/src/compaction_transcript.rs:478-507 | when the preamble leaves room, the document is within the cap for up to 55 rendered turns and exceeds it by less than one byte for each further one; otherwise it is at least the preamble and little more |
| SegmentRender.CapIsExceeded | crates/codegen/cf-chat-state/src/compaction_transcript.rs:479-482 | a document over the cap, as separators are not charged |
| SegmentRender.WithThousands | crates/codegen/cf-chat-state/src/compaction_transcript.rs:153-164 | the digits in groups of three from the right |
| SegmentRender.CommaPlaces | crates/codegen/cf-chat-state/src/compaction_transcript.rs:152-164 | counted from the right, every fourth character is a comma and no other |
| SegmentRender.SeparatorsOnly | crates/codegen/cf-chat-state/src/compaction_transcript.rs:152-164 | dropping the separators gives the number back |
| Usage.UsageLedger.FoldEntry | crates/codegen/cf-chat-state/src/usage.rs:140-146 | totals and the entry of the model stay the sums of what was recorded |
| Usage.UsageLedger.RecordMainLoopCall | crates/codegen/cf-chat-state/src/usage.rs:111-124 | records one call and counts it; main-loop calls never exceed model calls |
| Usage.UsageLedger.RecordSubagent | crates/codegen/cf-chat-state/src/usage.rs:126-134 | records every entry without counting main-loop calls; incomplete stays set |
| Usage.UsageLedger.MarkIncomplete | crates/codegen/cf-chat-state/src/usage.rs:136-138 | marks the ledger and changes no number |
| Usage.CounterIsCappedSum | crates/codegen/cf-chat-state/src/usage.rs:71-91 | each counter is the exact sum of what was recorded, capped at the u64 maximum |
| Usage.CostIsReported | crates/codegen/cf-chat-state/src/usage.rs:93-98 | a cost is present if and only if some record has one, whatever its sign |
| Usage.CostIsCappedSum | crates/codegen/cf-chat-state/src/usage.rs:93-98 | with costs of zero or more, a cost is present if and only if some record has one, and is their sum, capped |
| Usage.TotalsAreSumOverModels | crates/codegen/cf-chat-state/src/usage.rs:100-147 | the totals are the per-model totals added up |
| Usage.LedgerAddsUp | crates/codegen/cf-chat-state/src/usage.rs:100-147 | each counter of a ledger is the capped sum of that counter over its models, whatever the costs |
| Usage.LedgerCostAddsUp | crates/codegen/cf-chat-state/src/usage.rs:100-147 | with costs of zero or more, the cost of a ledger is present if and only if some model has one, and is the capped sum over its models |
| Usage.LedgerIgnoresOrder | crates/codegen/cf-chat-state/src/usage.rs:140-146 | reordering the records changes no counter, of the totals or of a model, and no model entry, whatever the costs; with costs of zero or more it changes nothing at all |
| Usage.NegativeCostsDependOnOrder | crates/codegen/cf-chat-state/src/usage.rs:93-98 | with a negative cost the order would matter |
| Usage.PartialCost | crates/codegen/cf-chat-state/src/usage.rs:67-69 | a cost is partial if and only if some record has one and some call is counted as missing one, whatever their sign |
| Usage.CallIsChargeable | crates/codegen/cf-chat-state/src/usage.rs:45-61 | a recorded call counts once with all its tokens and its duration; a positive cost is kept, and an absent, zero or negative one counts as missing |
| ConfigSync.SplitBlocks | tools/sync_codely_222.py:112-128 | the loop cuts the lines at headers, each header beginning a block |
| ConfigSync.LinesEndAtBoundaries | tools/sync_codely_222.py:112-128 | a line ends right after the first of the ten characters at which Python ends a line, and nowhere else |
| ConfigSync.StripIs | tools/sync_codely_222.py:118-119 | stripping takes the 29 characters Python counts as whitespace off both ends and nothing else |
| ConfigSync.BlocksAreLossless | tools/sync_codely_222.py:112-128 | the blocks put together are the text, whatever the text |
| ConfigSync.Recut | tools/sync_codely_222.py:112-128 | blocks of ended lines come back when their text is cut again |
| ConfigSync.HeaderRoundTrip | tools/sync_codely_222.py:75-109 | the header that is written reads back as its key |
| ConfigSync.HeadersAre | tools/sync_codely_222.py:107-109 | a line has a key if and only if, stripped, it is `[model.` and `]` around something that is not empty and holds no bracket |
| ConfigSync.QuotesComeOff | tools/sync_codely_222.py:108 | the key may be quoted or not, on either side; a quote alone is kept |
| ConfigSync.EntryIsCut | tools/sync_codely_222.py:75-85 | a written entry is one block with its own key |
| ConfigSync.EntryIsWritten | tools/sync_codely_222.py:75-85 | the entry, line by line: the quoted key with its suffix, the id, the base url, the title, and the fixed fields, each under its own name |
| ConfigSync.UpsertConfig | tools/sync_codely_222.py:131-150 | replaces every block of the key, or puts the block before `[model.ui]`, or at the end |
| ConfigSync.PlacedAt | tools/sync_codely_222.py:131-150 | an upsert puts the block in the place of every block of its key; if there is none, right before the last `[model.ui]` block, and without one at the end |
| ConfigSync.EndsInNewline | tools/sync_codely_222.py:138-148 | a written block ends in a line feed, and one is added only where it is missing |
| ConfigSync.PlacedKeys | tools/sync_codely_222.py:131-150 | an upsert keeps every other block byte for byte and in order, and the block is then the first of its key |
| ConfigSync.SyncOneSettles | tools/sync_codely_222.py:168-179 | on ended text: after one model its entry is in place, all other blocks are kept, and every other key finds what it found before |
| ConfigSync.AllSettled | tools/sync_codely_222.py:168-179 | after a sync every model of the list has its entry in place |
| ConfigSync.SyncConfig | tools/sync_codely_222.py:163-186 | the text part of a sync: each model in turn, then the entries that are gone |
| ConfigSync.OtherBlocksStay | tools/sync_codely_222.py:163-179 | adding and updating leaves every block that is no entry of a listed model as it was, in order |
| ConfigSync.RemovesExactly | tools/sync_codely_222.py:181-186 | removing takes out exactly the blocks whose key ends in `-222` and belongs to no listed model; every other block is kept byte for byte and in order |
| ConfigSync.SyncConverges | tools/sync_codely_222.py:163-186 | for newline-ended text and distinct ids, syncing twice changes nothing the second time, with or without removing missing entries |
| ConfigSync.AppendedWhenMissing | tools/sync_codely_222.py:144-150 | on every text with neither the key nor `[model.ui]`, the entry goes to the end, whatever `[ui]` blocks there are |
| ConfigSync.SecondSyncIsFinal | tools/sync_codely_222.py:168-179 | for every text, a second sync of a model changes nothing if and only if its key or `[model.ui]` is there or what follows the last line break is blank; otherwise the entry is appended twice |
| ConfigSync.InPlaceStays | tools/sync_codely_222.py:168-179 | for every text, one model step leaves the entries of the others in place, unless it appends its own to a line that swallows the header |
| ConfigSync.SecondPassIsFinal | tools/sync_codely_222.py:163-179 | for every text and every list of models with distinct ids: a second sync changes nothing if and only if, model by model, none was appended to an open last line that is not blank |
| ConfigSync.OpenTextGrows | tools/sync_codely_222.py:144-150 | every text with neither, whose last line is open and not blank, swallows the header of the appended entry, and the next sync appends it again |
| ConfigSync.OpenSetting | tools/sync_codely_222.py:144-150 | one setting without its line break is such a text |
| ConfigSync.PlainUiIsNotFound | tools/sync_codely_222.py:142-147 | a plain `[ui]` block anywhere in a text is not found: a new entry goes to the end of the text and not before the block |

## Left out

- Files, seeks that fail, processes, IPC, timers and the network: a file is a byte sequence, a source a list of chunks, a backend a list of events.
- The waker side of futures: a poll that waits returns `Pending`, and a send that has to wait is a step that is not enabled.
- JSON, YAML and TOML parsing, and lossy UTF-8 decoding: whether a line parses, and to what, is an unknown function of its bytes; empty lines are blank.
- `percent_encode` and the path checks of transcript.rs:81-109.
- The hash function of the interner is an arbitrary function; `get`, `iter` and the serialisation around `from_parts` are not modelled.
- Redact.Redact: characters stand for characters of the text; the byte offsets of multi-byte characters are not modelled.
- TurnQueue.SessionBucket.SendTask: whether a session could be opened (lines 918-927) is an input; messages do not carry their images.
- TurnQueue: titles and the messages shown to the user. The answer to `session_prompt` is taken to arrive before the end of its turn is reported.
- TurnQueue.SessionBucket.RemoveQueued: message ids are numbers in submission order; the counter is shared with other messages of the GUI in the source.
- PermissionQueue: the calls of `cancelPendingPermissions` to the bridge are not modelled, only the sweep of the local queue after them; requests are identified by arrival.
- BridgeGenerations: the generation counter is sequentially consistent; the broadcast channel is modelled after tokio's documented behaviour, which is not part of the repository. The mutex-held bridge slot and the recovery of sessions are left out; that the channel closes cannot happen while the forwarder holds its bridge.
- Discovery: plugins, the walk from the working directory to the repository root, and all fields of a definition but name, description and scope. The lists of directories are inputs in search order.
- Rendering of a single turn, the statistics block, the index rows and `extract_keywords`: turns arrive rendered, the preamble is given.
- Usage: how a cost arrives is modelled at `reported_cost_ticks` (cf-sampling-types/src/conversation.rs:732); records that reach the ledger by another way may hold negative costs, and the theorems about the amount of the cost assume they do not.
- ConfigSync: fetching models, backups, dry runs, messages and the JSON file. The text is the one read in text mode, so line ends are already translated.
- ConfigSync.SyncConverges: stated for text that ends in a line break and ids that neither begin with a blank nor hold a line break or a closing bracket. For other texts `SecondSyncIsFinal` and `SecondPassIsFinal` give the exact condition, for a pass that removes nothing.
- The ACP bridge itself, the chat-state actor, the finance ledger, toolset tables, routing and settings: plumbing, floating point, or only easy members.
