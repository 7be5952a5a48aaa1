# Verified model of the channel SDK's state machines

This project models the parts of the Lark/Feishu channel SDK in which one mistake is visible only after
many calls: the per-chat pipeline that batches messages and queues work, at-most-once dispatch, the
text chunker, fragment reassembly and reconnection of the event socket, the roster behind `@name`
mentions, meeting sessions and their seats, the rebuilding of forwarded messages, and the guard against
bot loops. Each module follows one source file, in its form: objects that update fields are classes
whose methods are proved against functions on values, and what the source promises is proved about
those functions, over every input or every run.

`dafny verify dfyconfig.toml` checks everything (Dafny 4.11).

## How it is organised

| Area | Modules |
|---|---|
| Chat pipeline | `Messages` (merging a batch), `CallHistory` (the specification: every call and where it is now), `ChatPipeline` (the object), `TaskChain` (the serial chain of tasks), `MediaPipeline` |
| Dispatch | `ProcessingLock`, `SeenCache`, `SafetyPipeline` (the gate), `Dispatch` (gate, lock and cache as a transition system), `LightEvents` (events without a lock), `Pipeline` (gate, chat scopes and media batcher together, refining `Dispatch`) |
| Outbound text | `AtSpans` (finding tags), `Chunker`, `TagGuarantee` (exactly when tags are safe), `Mentions` (the same read off the characters) |
| Event socket | `ExpiringCache`, `Fragments`, `Reconnect` |
| Roster | `Roster` |
| Meetings | `Stabilizer`, `SerialDelivery`, `MeetingSession` (built on both), `MeetingRegistry`, `Membership`, `SeatHistory` (one seat over any operations), `Reconciliation` (overlapping passes), `Admission` |
| Others | `MergeForward`, `LoopGuard` |
| Shared | `OrderedDict`, `Wrappers` |

The source runs on one asyncio loop. Where several coroutines interleave, a step of the model is what
happens between two suspension points. `await` on a coroutine that cannot suspend is not such a point:
that holds for `SeenCache.has` without a shared cache, and for `MeetingSession._ingest_one`.

Clocks are parameters: a method takes the time it would have read. The event loop's timers appear as a
map from live timer to what it will do; `TimerFires` is a step that may happen for any live timer.

## Where the code does less than one might expect

For each of these the exact condition is proved. Where it concerns whole runs, a run that fails is built for
every case outside it.

- **Chunker.** The chunker searches `text.lower()` and cuts `text` at the positions it found. The only
  character whose lower-case form has another length is U+0130, and it shifts every later position. A
  text is safe if none stands before the end of its last complete tag; a prefix is safe whatever follows
  it if and only if it holds none (`TagGuarantee.TagsKeptIff`, `BaitIsCut`). Exact cover and
  non-emptiness hold for every text.
- **Dispatch.** A lock is released by id and expires by time, and the cache forgets by age and by
  number. No id is handled twice if and only if handling ends within the lock's life and ids come again
  only while the cache must know them (`Pipeline.AtMostOnceIff`). Each of the three ways to break it is
  built as a run.
- **Runs and messages.** A run is never queued ahead of an earlier message. A later message goes ahead
  of a run exactly if the run was still held back when the message came (`CallHistory.BehindLaterPushIff`,
  `LaterPushOvertakes`), with blocked batches as well as in merge mode.
- **Fragments.** The byte count of an entry is raised before the drop check and never lowered after a
  drop. It is exact in every entry after every sequence of fragments if and only if nothing can be dropped
  after it was counted (`Fragments.CountExactIff`); the inequality that always holds is enough for the
  limit.
- **Reconnection.** A lost connection is replaced if reconnection is automatic and its close does not raise
  (`Reconnect.LossIsRepaired`, with failed dials in between, `FailedDial`); otherwise it is closed and nobody
  dials (`LossWithoutRepair`).
- **Session ceiling.** The gate reserves nothing between the check and the registration. With at most
  `k` calls in between, the ceiling can be exceeded by `k - 1` and by no more; `CeilingIsExceeded`
  builds the run that gets there, for every ceiling and every `k`.
- **End of a session.** The `end` event is submitted exactly once and no activity follows it, but error
  reports may. It is submitted without the report reserve: it is accepted if and only if somebody
  subscribed, the queue is open, and it has room for the unsettled transcripts and the end
  (`MeetingSession.EndAccepted`, `EndIsRefused`).
- **One departure answer, noted twice.** The second application changes the books if and only if the
  meeting was joined again in between and the new seat stands (`Membership.SecondNoteMatters`); then it
  takes the seat of a meeting the bot is in (`RejoinedSeatIsLost`).
- **Light events.** They take no lock and are added only after their handler is done. No id is handled
  twice if and only if it comes again only once its handling time is over, within the cache life of being
  added, and before as many other ids as the cache holds (`LightEvents.OnceIff`; or it never comes again
  at all). One that comes again early, late, or crowded out is handled twice in a run built for that case.
- **Bot loops.** At most 1024 mentions are remembered per key, the latest arrivals. The verdict equals a
  full recount for every history with at most so many ids in the window if and only if that is within the
  cap, or one mention trips (`LoopGuard.CapHarmlessIff`).
- **Keys of the loop guard.** Chat and sender are joined by `::` and the ids are not checked for it. Counting
  by sender, two chats get in each other's way for some senders if and only if one id followed by `::`
  starts the other (`LoopGuard.InterfereIff`).
- **Disputed names.** A name that two ids carried at once stays unresolved even when one of them is
  renamed; `Roster.NeverTheWrongPerson` says exactly when a name resolves.
- **Retry throttle.** Reconciliation passes may overlap. The throttle holds in every run with at most `k`
  passes under way at once if and only if `k <= 1`, or nothing is reconciled at all
  (`Reconciliation.ThrottleIff`); in every run, an
  attempt comes too soon only if it was listed before the earlier one was made.

## Model

| member | source | states |
|---|---|---|
| Messages.Collect | lark_channel/channel/safety/chat_pipeline.py:29-72 | the loop yields the last message's mentions followed by the first mention of every other account in order of appearance, whether everybody or the bot was mentioned, and the last message's chat mode or else the first known one |
| Messages.UnitedMentions | lark_channel/channel/safety/chat_pipeline.py:37-61 | every account mentioned anywhere in the batch (by open_id, or else user_id, or else key) is mentioned in the result, nothing is invented, and no two added mentions stand for one account |
| Messages.MergeBatch | lark_channel/channel/safety/chat_pipeline.py:29-96 | a batch of one is passed through; otherwise the last message's metadata with the non-empty texts and each derived text view joined by blank lines, all resources in order, and the batch as sources; other content than text is kept |
| Messages.MergingInSteps | lark_channel/channel/safety/chat_pipeline.py:63-96 | merging in two steps reads as merging at once: every text view of the whole is that of the two parts with a blank line in between, resources follow each other, either part's mention flags hold, the rest is the last message's |
| Messages.FirstModeCounts | lark_channel/channel/safety/chat_pipeline.py:37-61 | the merged chat mode is the last message's own, or else the first known one of the batch, or none |
| Messages.CharsCounted | lark_channel/channel/safety/chat_pipeline.py:135-155 | the characters of text messages count against the limit, one after the other, and nothing else does |
| CallHistory.PickDrop | lark_channel/channel/safety/chat_pipeline.py:175-181 | withdrawing the waiting tail removes exactly the pushes with those tickets from the account and disturbs no other call |
| CallHistory.EachCallAccounted | lark_channel/channel/safety/chat_pipeline.py:135-283 | a push that was not withdrawn is on the queue or waiting, a run that was not skipped is on the queue or deferred, and the converse |
| CallHistory.MessagesInOrder | lark_channel/channel/safety/chat_pipeline.py:135-216 | messages on the queue, then in the buffer, then in blocked batches are strictly in the order of their pushes, so none is doubled or reordered; the same for runs |
| CallHistory.RunFollowsEarlierMessages | lark_channel/channel/safety/chat_pipeline.py:161-283 | a queued run has every earlier push that was not withdrawn ahead of it |
| CallHistory.BehindLaterPushIff | lark_channel/channel/safety/chat_pipeline.py:135-283 | a queued run stands behind a later push if and only if it was still held back when the push came |
| CallHistory.LaterPushOvertakes | lark_channel/channel/safety/chat_pipeline.py:205-231 | a message, a run held back behind it and another message, then the scope opens: the second message is ahead of the run |
| ChatPipeline.ChatPipeline.Push | lark_channel/channel/safety/chat_pipeline.py:135-155 | keeps the history sound and every promise; records the runs held back at this push; holds the message back in a blocked scope, flushes at a cap or without delay, and otherwise leaves one live timer; the character count is the true sum |
| ChatPipeline.ChatPipeline.Block | lark_channel/channel/safety/chat_pipeline.py:157-159 | afterwards no timer is live and everything else is unchanged |
| ChatPipeline.ChatPipeline.Unblock | lark_channel/channel/safety/chat_pipeline.py:161-173 | the buffer goes first, then each blocked batch as a task of its own, then the deferred runs; nothing waits behind an open scope without a live timer; every promised future is still held back, given up, or completed by its own queued task |
| ChatPipeline.ChatPipeline.CancelBuffer | lark_channel/channel/safety/chat_pipeline.py:175-181 | withdraws exactly the waiting messages and serves every deferred run, whose future then gets its task's result |
| ChatPipeline.ChatPipeline.FlushAsync | lark_channel/channel/safety/chat_pipeline.py:186-203 | the whole buffer becomes one task at the end of the queue, with the handler of its first message; deferred runs follow if asked, and their futures are tied to their tasks |
| ChatPipeline.ChatPipeline.FlushBlockedBatches | lark_channel/channel/safety/chat_pipeline.py:205-217 | every blocked batch becomes a task of its own, in order, and the deferred runs come after all of them, each completing its future |
| ChatPipeline.ChatPipeline.Run | lark_channel/channel/safety/chat_pipeline.py:219-231 | deferred exactly when the scope is blocked and something waits, which leaves buffer, batches and queue alone and adds one promise; otherwise the buffer is flushed first and the task is last |
| ChatPipeline.ChatPipeline.ReleaseDeferredRuns | lark_channel/channel/safety/chat_pipeline.py:260-283 | every deferred run whose future is not cancelled is queued, in order, and completes that future; the cancelled ones are skipped |
| ChatPipeline.ChatPipeline.ScheduleTimer | lark_channel/channel/safety/chat_pipeline.py:285-316 | an old timer is replaced; without a delay, or in a serial-only scope, the flush happens at once |
| ChatPipeline.ChatPipeline.TimerFires | lark_channel/channel/safety/chat_pipeline.py:303-316 | a live timer empties the buffer onto the queue, no run stays deferred, and every promise is kept |
| ChatPipeline.ChatPipeline.Dispose | lark_channel/channel/safety/chat_pipeline.py:318-328 | nothing waits, nothing is deferred and no timer is live afterwards, blocked or not, and every promise is kept |
| ChatPipeline.ChatPipeline.QueueIsHistory | lark_channel/channel/safety/chat_pipeline.py:186-258 | the batches and tasks of the queue, one after the other, are exactly the placed calls of the history, in order |
| ChatPipeline.ChatPipeline.WaitingIsHistory | lark_channel/channel/safety/chat_pipeline.py:135-231 | the buffer and the blocked batches hold the waiting messages in order, the buffer keeps the handler of its first message, and the held-back runs are the deferred calls |
| ChatPipeline.ChatPipeline.PromiseHolds | lark_channel/channel/safety/chat_pipeline.py:219-283 | every future that was promised stands for a run still held back, was cancelled, or is completed by that run's task on the queue |
| ChatPipeline.ChatPipeline.NothingIsStuck | lark_channel/channel/safety/chat_pipeline.py:285-316 | in an open scope whatever waits has a live timer, and a run is held back only behind a message |
| TaskChain.TaskChain.Begin | lark_channel/channel/safety/chat_pipeline.py:233-258 | whichever task the loop resumes, every earlier body has ended and no other runs |
| TaskChain.TaskChain.TraceIsSerial | lark_channel/channel/safety/chat_pipeline.py:233-258 | the starts and ends of bodies are one body after the other in queue order |
| TaskChain.TaskChain.SomeTaskCanMove | lark_channel/channel/safety/chat_pipeline.py:233-258 | unless all tasks are finished, one runs or can begin |
| MediaPipeline.MediaPipelineManager.Push | lark_channel/channel/safety/media_pipeline.py:85-101 | per key, what was handed on followed by what waits is what was pushed; a full bucket goes at once as one carrier, any other gets a fresh timer and stays below the cap |
| MediaPipeline.MediaPipelineManager.FlushTaskRuns | lark_channel/channel/safety/media_pipeline.py:103-133 | the spawned flush hands on what is in the bucket by then, once, or nothing |
| MediaPipeline.MediaPipelineManager.FlushIncompatibleFor | lark_channel/channel/safety/media_pipeline.py:118-124 | whatever pushes, timers, tasks and other flushes happen while the handlers run, every message of that chat pushed before the call has been handed on, as often as it was pushed and in order per bucket, when it returns; if nothing happens, exactly the buckets of that chat are gone |
| MediaPipeline.MediaPipelineManager.Dispose | lark_channel/channel/safety/media_pipeline.py:143-146 | every message pushed before the call has been handed on, in order per bucket, whatever happens during the hand-overs |
| MediaPipeline.MediaPipelineManager.BatchesAreAlike | lark_channel/channel/safety/media_pipeline.py:35-40 | the messages of one bucket, and of one batch handed on, agree in chat, kind, thread and the message replied to; two waiting messages that agree in all four share a bucket |
| MediaPipeline.MediaPipelineManager.EachPushOnce | lark_channel/channel/safety/media_pipeline.py:85-133 | every message is handed on and waiting together exactly as often as it was pushed |
| MediaPipeline.QuietMeansHandedOn | lark_channel/channel/safety/media_pipeline.py:85-133 | once no timer is live and no flush task is outstanding, every push of every key was handed on, in order |
| MediaPipeline.Attach | lark_channel/channel/safety/media_pipeline.py:43-53 | a consumer reads the whole batch, in order, off the last message |
| ProcessingLock.ProcessingLock.Acquire | lark_channel/channel/safety/processing_lock.py:49-68 | succeeds exactly when no live lock exists; then the lock lives for the TTL; the sweep changes no live lock |
| SeenCache.SeenCache.Has | lark_channel/channel/safety/dedup_cache.py:78-97 | the answer and the new contents, for local hits, expired entries and shared-cache hits that are filled back in |
| SeenCache.AddRetains | lark_channel/channel/safety/dedup_cache.py:99-109 | an added id is retained for the TTL with nothing more recent than it |
| SeenCache.RetainedIsFound | lark_channel/channel/safety/dedup_cache.py:78-97 | a retained id is reported as seen and becomes the most recent |
| SeenCache.AskKeeps | lark_channel/channel/safety/dedup_cache.py:78-140 | asking for other ids keeps a retained id while fewer than `max_entries` others were touched, whatever is evicted or swept |
| SeenCache.KnownIfTold | lark_channel/channel/safety/dedup_cache.py:78-140 | after an id was added, or filled in from the shared cache, and over any uses since, it is reported for a time to live as long as fewer than `max_entries` other ids went through |
| SeenCache.KnownOnlyIfTold | lark_channel/channel/safety/dedup_cache.py:78-140 | over any uses, an id is reported only if it was added or the shared cache knew it, less than a time to live ago |
| LightEvents.OnceIff | lark_channel/channel/safety/pipeline.py:289-307 | over every run of light events and any other traffic through the cache: no id is handled twice under given bounds on handling time, on how soon and how late ids come again and on other ids in between, if and only if the bounds leave no early, late or crowded-out repetition |
| LightEvents.EarlyRunsTwice | lark_channel/channel/safety/pipeline.py:295-307 | if an id may come again before the handling time is over, a run within the bounds in which it is handled twice |
| LightEvents.LateRunsTwice | lark_channel/channel/safety/dedup_cache.py:78-109 | the same if it may come again after its entry has expired |
| LightEvents.CrowdedOutRunsTwice | lark_channel/channel/safety/dedup_cache.py:99-131 | the same if more other ids may come in between than the cache holds |
| SafetyPipeline.SafetyPipeline.PushGate | lark_channel/channel/safety/pipeline.py:139-197 | a message is accepted exactly if it is not stale, not seen, not the bot's own, allowed, no bot loop, and not locked; the first of these that fails gives the reason; a rejected message takes no lock and a stale one touches nothing |
| SafetyPipeline.SafetyPipeline.ActionGate | lark_channel/channel/safety/pipeline.py:259-287 | an action is admitted exactly when its id was not seen and not locked |
| SafetyPipeline.SafetyPipeline.FinishBatch | lark_channel/channel/safety/pipeline.py:224-257 | the sources are added to the cache one after the other and exactly their locks are released; each is recognised again for a time to live unless `max_entries` others followed it in the batch, and what was known before stays known |
| Dispatch.BatchFinishes | lark_channel/channel/safety/pipeline.py:224-257 | what the gate does at the end of a batch is a run of the transition system: each delivery is marked and then released, through the same memories |
| Dispatch.NextKeeps | lark_channel/channel/safety/pipeline.py:139-287 | every step keeps: one delivery in flight per id, it holds the live lock, recently completed ids are still in the cache |
| Dispatch.AtMostOnce | lark_channel/channel/safety/pipeline.py:139-287 | in every run with short processing and prompt redelivery every delivery in flight holds a live lock, every live lock has its delivery, and no id is entered twice |
| Dispatch.AtMostOnceIff | lark_channel/channel/safety/pipeline.py:139-287 | no id reaches a handler twice in any run under given bounds on handling time, redelivery age and other ids in between, if and only if the bounds fit lock life, cache life and cache size |
| Dispatch.SlowHandlerRunsTwice | lark_channel/channel/safety/processing_lock.py:59-72 | for every bound on handling that exceeds the lock life, a run within that bound in which one id is handled twice |
| Dispatch.LateRedeliveryRunsTwice | lark_channel/channel/safety/dedup_cache.py:78-109 | the same for every redelivery age that exceeds the cache life |
| Dispatch.CrowdedOutRunsTwice | lark_channel/channel/safety/dedup_cache.py:99-131 | the same when more other ids are allowed in between than the cache holds |
| Pipeline.NextRefines | lark_channel/channel/safety/pipeline.py:139-287 | every step of gate, chat scopes, media batcher and handlers together is a step of the abstract system, with places derived from the histories and buckets |
| Pipeline.StartChatIsFirst | lark_channel/channel/safety/chat_pipeline.py:233-258 | a delivery whose queue entry is consumed has not been handled before: from the soundness of the history, no ticket is on the queue twice |
| Pipeline.StartMediaIsFirst | lark_channel/channel/safety/media_pipeline.py:126-133 | the same for media, from the account per key |
| Pipeline.MediaBeforeText | lark_channel/channel/safety/pipeline.py:205-227 | in every run, when a message of another kind is pushed to its chat or handed straight on, the flush of its chat began before, and every media message of that chat pushed by then has been handed on, as often as it was pushed and in order per bucket |
| Pipeline.PushedMessageStarts | lark_channel/channel/safety/pipeline.py:214-222 | the steps that take a message from the gate through a new chat scope to its handler |
| Pipeline.RunStarts | lark_channel/channel/safety/pipeline.py:259-287 | the same for a run |
| Pipeline.MediaStarts | lark_channel/channel/safety/pipeline.py:205-207 | the same for media, through its bucket |
| Pipeline.FlushedMessageStarts | lark_channel/channel/safety/pipeline.py:209-227 | the same for a message behind a flush, without a queue |
| Pipeline.AtMostOnceIff | lark_channel/channel/safety/pipeline.py:139-287 | the same equivalence for the whole pipeline: the runs that break misfitting bounds are runs of it, with the queue switched off |
| Pipeline.AtMostOnce | lark_channel/channel/safety/pipeline.py:139-287 | no id reaches a handler twice in any run of the whole pipeline under bounds that fit |
| AtSpans.FindSpans | lark_channel/channel/outbound/sender.py:62-93 | the loop terminates and computes the scan |
| AtSpans.ScanIsTags | lark_channel/channel/outbound/sender.py:62-93 | where lower-casing moves nothing, the scan is "repeatedly take the leftmost complete tag"; breaking early and skipping an unclosed opener lose nothing |
| AtSpans.TagsOrderly | lark_channel/channel/outbound/sender.py:62-93 | spans are sorted, disjoint, in bounds, and each is a complete tag |
| AtSpans.TagsCover | lark_channel/channel/outbound/sender.py:62-93 | wherever a complete tag opens, a span covers it |
| Chunker.ProtectCut | lark_channel/channel/outbound/sender.py:96-105 | a cut outside every span stays; one inside moves to the edge of that span, its start unless the chunk starts there |
| Chunker.CutChoice | lark_channel/channel/outbound/sender.py:127-152 | the break is at the last delimiter of the window, or at the full width if there is none, or at the edge of the tag it would cut |
| Chunker.ChunkByDelim | lark_channel/channel/outbound/sender.py:127-152 | the loop terminates and yields the specified pieces; the final filter removes nothing |
| Chunker.PiecesCover | lark_channel/channel/outbound/sender.py:127-152 | the pieces and the delimiters consumed between them are the text, whatever the spans are |
| Chunker.PiecesKeepTag | lark_channel/channel/outbound/sender.py:96-152 | every span lies whole inside one piece, even if the scan reports more behind the last of them |
| Chunker.PiecesFit | lark_channel/channel/outbound/sender.py:96-152 | a piece has at most `limit` characters or is exactly one complete tag |
| Chunker.ChunkText | lark_channel/channel/outbound/sender.py:108-124 | for every text, limit and mode: exact cover and no empty chunk; no split tag if lower-casing moves nothing up to the end of the last tag; the size bound if it moves nothing at all |
| AtSpans.ScanStartsWithTags | lark_channel/channel/outbound/sender.py:62-93 | a shift behind the last tag does not disturb the scan up to there |
| TagGuarantee.BaitIsCut | lark_channel/channel/outbound/sender.py:71-90 | every prefix with U+0130 has a continuation, a limit and a mode for which a complete tag is split |
| TagGuarantee.TagsKeptIff | lark_channel/channel/outbound/sender.py:62-152 | no tag is split, whatever follows a prefix that is clean up to the last tag and whatever limit and mode, if and only if the prefix keeps its length when lower-cased |
| TagGuarantee.ScanRightIff | lark_channel/channel/outbound/sender.py:62-93 | the scan meets its specification for every continuation under the same condition, and only then |
| Mentions.MentionIsTag | lark_channel/channel/outbound/sender.py:62-93 | wherever `<at` in either case, a blank, slash or nothing, attributes, `>`, a name and `</at>` stand in a text, a complete tag opens and ends there |
| Mentions.MentionIsWhole | lark_channel/channel/outbound/sender.py:62-152 | for every limit and mode the first mention of a text lies whole in one piece, whatever its attributes, its name and what follows, if nothing before it changes length when lower-cased |
| Mentions.MentionAmongTagsIsWhole | lark_channel/channel/outbound/sender.py:62-152 | so does a mention anywhere among other tags of a text without U+0130 |
| Mentions.WordIsNoTag | lark_channel/channel/outbound/sender.py:71-82 | `<at` that a letter, a digit or a sign follows opens no span |
| Mentions.SpanLooksLikeTag | lark_channel/channel/outbound/sender.py:62-93 | every span of a text without U+0130 starts with `<at`, holds `>` and ends with `</at>` |
| Mentions.PlainBreaks | lark_channel/channel/outbound/sender.py:108-152 | plain text is broken at the last blank line of the window in paragraph mode, the last line break in newline mode, otherwise at the full width, and the separator is left out |
| ExpiringCache.SweepUnobservable | lark_channel/core/cache/expiring_cache.py:50-56 | no later read can tell whether the sweep ran |
| ExpiringCache.GetUnobservable | lark_channel/core/cache/expiring_cache.py:29-38 | dropping an expired entry on reading is invisible to every later read |
| ExpiringCache.ExpiringCache.Set | lark_channel/core/cache/expiring_cache.py:41-48 | the key reads as the value until its TTL, every other key reads as before |
| Fragments.Reassembler.Combine | lark_channel/ws/client.py:585-633 | mutating the cached entry in place computes the specified step, with distinct entries for distinct messages |
| Fragments.Pigeonhole | lark_channel/ws/client.py:613-633 | `n` distinct indices inside `0..n-1` are all of them |
| Fragments.CombinedAccounted | lark_channel/ws/client.py:585-633 | every step keeps the joint inequality of the byte count and the stored bytes |
| Fragments.AccountingHolds | lark_channel/ws/client.py:585-662 | over every sequence of fragments: the count is at least what is stored, and the stored bytes respect the limit under a drop policy |
| Fragments.CountExactIff | lark_channel/ws/client.py:585-662 | the count equals what is stored in every entry after every sequence if and only if overflow is only audited, bytes are unlimited, or no message of two parts is let in |
| Fragments.OwnFragment | lark_channel/ws/client.py:585-633 | a fragment of the message adds its index, answers the payload exactly when all are there, and renews the deadline while they are not |
| Fragments.OtherFragment | lark_channel/ws/client.py:585-633 | a fragment of another message, swept entries included, changes nothing about this one |
| Fragments.Reassembled | lark_channel/ws/client.py:585-633 | in any order, with repeats and other traffic: nothing until the last missing index, then exactly the payload |
| Fragments.RoundTrip | lark_channel/ws/client.py:585-633 | a payload cut anywhere into two or more parts within the limits, delivered in any order, with repeats and other traffic, never five seconds apart: the last missing part brings exactly the payload, and nothing comes before |
| Fragments.OutputFits | lark_channel/ws/client.py:585-662 | when overflow is dropped, nothing put together from fragments exceeds the part or byte limit, over every sequence of fragments |
| Fragments.StalledStartsOver | lark_channel/ws/client.py:605-633 | a message whose fragments stalled for more than five seconds starts over |
| Reconnect.NextKeeps | lark_channel/ws/client.py:270-310 | every step of every coroutine keeps the invariant of the two locks |
| Reconnect.ConnectionsAccounted | lark_channel/ws/client.py:502-577 | in every interleaving: each connection but the current one has had its close attempted, none is closed twice, and at most one coroutine holds the lock |
| Reconnect.StaleLoopIsHarmless | lark_channel/ws/client.py:299-310 | the receive loop of an old connection never closes a newer one, and dials only after closing its own and while there is no connection |
| Reconnect.LossIsRepaired | lark_channel/ws/client.py:299-306 | the loss of the current connection leads to its close, a dial, and the receive loop of a new connection, with both locks free again |
| Reconnect.FailedDial | lark_channel/ws/client.py:512-548 | a failed dial leaves the reconnection where it was, to be tried again; giving up frees the reconnect lock |
| Reconnect.DialFindsConnection | lark_channel/ws/client.py:270-273 | nobody dials over a connection |
| Reconnect.StaleLossIsIgnored | lark_channel/ws/client.py:502-510 | the failed receive loop of an old connection leaves connection, locks and closes alone |
| Reconnect.LossWithoutRepair | lark_channel/ws/client.py:299-310 | without automatic reconnection, or if the close raises, a lost connection is closed and nobody dials |
| Reconnect.CallsDoTheirWork | lark_channel/ws/client.py:270-297 | connecting opens a connection and starts its receive loop; disconnecting closes the current one |
| Reconnect.NoDeadlock | lark_channel/ws/client.py:498-577 | in every reachable state, as long as a coroutine waits, closes or dials, one of them can move |
| Roster.IndexFaithful | lark_channel/channel/chat_member_cache.py:161-210 | the index built entry by entry says of each id its current name, and of each name the one id that carries it or that it is disputed |
| Roster.NeverTheWrongPerson | lark_channel/channel/chat_member_cache.py:153-210 | a resolved id carries the name now and no other id does; a name resolves to an id if and only if the id carries it and no registration under it ever found another carrier |
| Roster.NamesAreBacked | lark_channel/channel/chat_member_cache.py:161-210 | every name comes from a live complete list of users by open_id or of bots, or from a live mention of an id no such list names |
| Roster.CarrierResolves | lark_channel/channel/chat_member_cache.py:161-210 | conversely, an id that such a list or mention names, under one name, resolves from that name if no other id carries it |
| Roster.RefreshCounts | lark_channel/channel/chat_member_cache.py:88-104 | a complete list of users counts in full until its time is over, beside the bots, and replaces any other |
| Roster.BotsCount | lark_channel/channel/chat_member_cache.py:117-125 | and so does a complete list of bots |
| Roster.TruncatedChangesNothing | lark_channel/channel/chat_member_cache.py:100-106 | a truncated list, or one by another kind of id, changes nobody's name |
| Roster.RefreshDropsMentions | lark_channel/channel/chat_member_cache.py:127-134 | a complete list drops exactly the mentions of its kind that it does not contain |
| Roster.ObservedIsNoted | lark_channel/channel/chat_member_cache.py:107-113 | whoever was observed with a name is noted under the last one, and all else stays, while there is room |
| Roster.DepartedAreForgotten | lark_channel/channel/chat_member_cache.py:88-134 | right after a complete refresh nobody outside it is known except as a bot |
| Roster.PruningUnseen | lark_channel/channel/chat_member_cache.py:161-210 | dropping expired mentions and stale rosters while reading changes no later answer, in any chat |
| Roster.ChatMemberCache.SetMembers | lark_channel/channel/chat_member_cache.py:88-115 | the new roster for complete, partial and observed lists, with caps and eviction |
| Roster.ChatMemberCache.BuildIndex | lark_channel/channel/chat_member_cache.py:161-210 | the mutating construction computes the index of the live registrations and drops exactly the expired mentions |
| Roster.ChatMemberCache.ResolveOpenId | lark_channel/channel/chat_member_cache.py:153-157 | on every reachable cache the answer is right, unique and carried by the live roster; an id that carries the name unmistakably is found; and there is an answer exactly when the name is uncontested |
| Roster.ChatMemberCache.ResolveName | lark_channel/channel/chat_member_cache.py:148-151 | the id's current name, which the live roster carries; an id that carries one name only is known under it |
| Stabilizer.TranscriptStabilizer.Offer | lark_channel/channel/meeting/stabilizer.py:40-51 | without a window or a sentence id the event goes out at once; otherwise it is held as the newest revision with a timer of its own, and nothing goes out unless 256 other sentences are held, when the oldest does; the object does what the buffer value specifies |
| Stabilizer.TranscriptStabilizer.TimerFires | lark_channel/channel/meeting/stabilizer.py:53-56 | a live timer delivers the newest revision of its sentence and forgets it |
| Stabilizer.TranscriptStabilizer.FlushAll | lark_channel/channel/meeting/stabilizer.py:71-78 | everything buffered is delivered oldest first, no timer is left, and the last revision of every sentence ever offered is out |
| Stabilizer.HoldSound | lark_channel/channel/meeting/stabilizer.py:40-61 | holding a revision keeps: revisions in order, none twice, each offer out, held or superseded |
| Stabilizer.DeliverSound | lark_channel/channel/meeting/stabilizer.py:53-69 | delivering a held revision keeps the same |
| Stabilizer.LastRevisionIsOut | lark_channel/channel/meeting/stabilizer.py:71-78 | once nothing is held, an offer no later one supersedes has been delivered exactly once |
| Stabilizer.FlushedIs | lark_channel/channel/meeting/stabilizer.py:71-78 | a flush delivers the buffered sentences oldest first behind what was delivered, and leaves the last revision of every sentence delivered |
| SerialDelivery.SerialDelivery.Submit | lark_channel/channel/meeting/serial_queue.py:69-89 | accepted exactly when open and below the limit, or 32 above it for a report, and then queued last; only a full queue counts a drop; activity never holds more than the limit |
| SerialDelivery.SerialDelivery.ReportFits | lark_channel/channel/meeting/serial_queue.py:32-40 | while fewer than 32 reports wait, activity cannot keep a report out |
| SerialDelivery.SerialDelivery.CallHandler | lark_channel/channel/meeting/serial_queue.py:105-126 | invocations made, still owed by the entry in hand and still queued are together those accepted, in order, one at a time |
| SerialDelivery.SerialDelivery.Drain | lark_channel/channel/meeting/serial_queue.py:128-152 | a wait that succeeds found every accepted delivery made in full |
| SerialDelivery.SerialDelivery.Cancel | lark_channel/channel/meeting/serial_queue.py:154-159 | closes the queue, interrupts at most the delivery in hand, and undoes nothing |
| SerialDelivery.CallsSplit | lark_channel/channel/meeting/serial_queue.py:105-126 | taking the oldest entry takes exactly its invocations from the front of what is owed |
| MeetingSession.EndsOnce | lark_channel/channel/meeting/session.py:256-393 | over every interleaving of ingestion, timers, subscriptions, failures, worker and teardowns: the end is submitted exactly once if the session was ever closed and never otherwise, with the reason of the first closing; only error reports follow it, in what was submitted and in what was accepted; at most one departure, none for a follower |
| MeetingSession.EndAccepted | lark_channel/channel/meeting/session.py:226-229 | the end is accepted if and only if somebody subscribed, the queue is open, and it holds fewer than its limit counting the unsettled transcripts that go first |
| MeetingSession.EndIsRefused | lark_channel/channel/meeting/session.py:389-393 | for every queue limit a life in which the end is submitted and subscribed to and the full queue refuses it |
| MeetingSession.LastWordsAreOut | lark_channel/channel/meeting/session.py:256-275 | once a session was closed, the last revision of every sentence it was told before has been submitted |
| MeetingSession.IngestedInOrder | lark_channel/channel/meeting/session.py:172-229 | an open session submits the activities of a batch in order, and transcripts in place too if there is no settling window |
| MeetingSession.SubmittedIs | lark_channel/channel/meeting/session.py:223-229 | an event is queued for the handlers subscribed to its kind, if there are any and the queue takes it |
| MeetingSession.ReportIsHeard | lark_channel/channel/meeting/session.py:424-446 | a failure reaches the subscribers through the queue or else directly |
| MeetingSession.SubscriptionIs | lark_channel/channel/meeting/session.py:120-146 | subscribing adds a handler last, unsubscribing takes its first occurrence away, and neither touches another name |
| MeetingSession.ReceivedOk | lark_channel/channel/meeting/session.py:172-229 | an event keeps an open session open and without an end, at the buffer cap too |
| MeetingSession.Session.Ingest | lark_channel/channel/meeting/session.py:158-204 | events are taken in order, transcripts through the stabilizer buffer; a closed session takes none |
| MeetingSession.Session.Close | lark_channel/channel/meeting/session.py:256-289 | unsettled transcripts go to the queue oldest first, then the end |
| MeetingSession.Session.BeginDeparture | lark_channel/channel/meeting/session.py:313-340 | departs exactly if it joined and has not departed |
| MeetingSession.ReportedOk | lark_channel/channel/meeting/session.py:424-446 | a failure may be reported at any time, closed or not, through the queue with the reserve or else directly, and keeps everything the end promises |
| MeetingRegistry.Grouped | lark_channel/channel/meeting/registry.py:161-166 | each group is the subsequence of the envelope that belongs to its meeting |
| MeetingRegistry.EventsOfSplit | lark_channel/channel/meeting/registry.py:161-166 | the events of a meeting are those whose item names it, in order, however the envelope is split |
| MeetingRegistry.MeetingRegistry.HandleActivity | lark_channel/channel/meeting/registry.py:152-177 | each session receives exactly the events of its own meeting, in order; a closed one takes none and seats are neither taken nor released |
| MeetingRegistry.MeetingRegistry.NewSession | lark_channel/channel/meeting/registry.py:437-478 | the superseded session is closed first and its follow entries go with it; no third session changes and nobody departs |
| MeetingRegistry.MeetingRegistry.Forget | lark_channel/channel/meeting/registry.py:480-491 | removes a session by identity: its registration if it still is the registered one, and exactly its follow entries |
| MeetingRegistry.MeetingRegistry.Teardown | lark_channel/channel/meeting/session.py:256-289 | a session is registered exactly as long as it is open; a second teardown changes nothing |
| MeetingRegistry.MeetingRegistry.Retire | lark_channel/channel/meeting/session.py:313-340 | closes, then asks the platform at most once per session and only if no session serves the meeting |
| MeetingRegistry.MeetingRegistry.AskToLeave | lark_channel/channel/meeting/registry.py:530-552 | the request is sent if and only if, among all sessions ever made, none but the requester is open for the meeting |
| MeetingRegistry.MeetingRegistry.DepartAnswered | lark_channel/channel/meeting/session.py:334-340 | the answer is noted for the seat, and a failure is reported to the session that asked, closed as it is |
| MeetingRegistry.MeetingRegistry.Joined | lark_channel/channel/meeting/registry.py:301-326 | the seat is taken, resolved, and the new session registered in one step; sessions of other meetings are untouched |
| MeetingRegistry.MeetingRegistry.FollowMeeting | lark_channel/channel/meeting/registry.py:365-391 | an existing session is shared, otherwise one is made; the user's entry is the registered session of that meeting |
| MeetingRegistry.MeetingRegistry.RetireEnded | lark_channel/channel/meeting/registry.py:202-219 | retires exactly the session registered by then |
| MeetingRegistry.MeetingRegistry.ProbeSaidAbsent | lark_channel/channel/meeting/registry.py:499-513 | the seat is released and no departure is asked for |
| MeetingRegistry.MeetingRegistry.DisposeAll | lark_channel/channel/meeting/registry.py:558-577 | every open session is closed, no entry is left, no meeting is departed and no seat released |
| MeetingRegistry.MeetingRegistry.ExpireSeat | lark_channel/channel/meeting/membership.py:238-260 | the deadline never takes the seat of a meeting with a registered session |
| Membership.SeatsConserved | lark_channel/channel/meeting/membership.py:114-260 | over every sequence of operations, seats taken are seats held plus all counts of evidence |
| Membership.SecondNoteMatters | lark_channel/channel/meeting/membership.py:177-236 | noting one answer again after any other operations changes the books if and only if the meeting was joined again in between and the new seat stands |
| Membership.NotingTwiceIsOnce | lark_channel/channel/meeting/membership.py:177-236 | with any operations in between but a join of that meeting, noting twice is noting once |
| Membership.RejoinedSeatIsLost | lark_channel/channel/meeting/registry.py:530-556 | joined, left, joined again: the late second application drops the new seat |
| Membership.SeatsGoOnlyOnProof | lark_channel/channel/meeting/membership.py:148-260 | over any operations, a seat that was held and is not any more was ended by a release, a conclusive answer, or a deadline without a live session, which found it held |
| SeatHistory.SeatIs | lark_channel/channel/meeting/membership.py:114-260 | over any operations a seat is held if and only if the meeting was joined and nothing ended it since: no release, no answer that proves absence, no deadline without a session; when it was last confirmed; and unresolved exactly if an answer that proves nothing came since the last join |
| SeatHistory.AttemptIs | lark_channel/channel/meeting/membership.py:226-230 | its last attempt is the last one made during the present stay |
| SeatHistory.AnswerCounts | lark_channel/channel/meeting/membership.py:177-191 | each answer that proves absence is counted under its own evidence, and the seat goes |
| SeatHistory.ReleaseCounts | lark_channel/channel/meeting/membership.py:148-260 | a release counts under the evidence given, a deadline without a session as such, and only if a seat was held |
| Membership.MembershipLedger.CountersTrue | lark_channel/channel/meeting/membership.py:262-268 | the health counters are the numbers of seats held and of unresolved ones |
| Reconciliation.TooSoonOnlyIfListedBefore | lark_channel/channel/meeting/membership.py:199-236 | in every run of overlapping passes, a seat entry is attempted twice within the interval only if another pass had listed it before the first attempt |
| Reconciliation.ThrottleIff | lark_channel/channel/meeting/membership.py:199-236 | all runs with at most k passes under way keep the interval between attempts if and only if k is at most one or nothing is reconciled |
| Reconciliation.RunsAgree | lark_channel/channel/meeting/membership.py:114-260 | over every run of overlapping passes, the seats held are those of `Membership`'s books after the operations that the steps stand for, in order |
| Membership.MembershipLedger.Reconcile | lark_channel/channel/meeting/membership.py:199-236 | a whole pass on the objects: a seat past its deadline without a session goes, every unresolved seat that rested for the interval is attempted once in bounded batches and goes if the answer proves absence, the others are untouched, and none is due afterwards |
| Membership.MembershipLedger.AddMeeting | lark_channel/channel/meeting/membership.py:114-132 | a new seat, or the reset of an existing one; health counters equal the real counts |
| Membership.MembershipLedger.ReleaseMeeting | lark_channel/channel/meeting/membership.py:148-164 | removes the seat and counts the evidence exactly if there was one |
| Membership.MembershipLedger.NoteDepartureOutcome | lark_channel/channel/meeting/membership.py:177-196 | each kind of answer releases on its own evidence or marks the seat unresolved |
| Membership.MembershipLedger.ExpireOverdue | lark_channel/channel/meeting/membership.py:238-260 | exactly the overdue seats without a live session go, and only the deadline count changes |
| Membership.MembershipLedger.Held | lark_channel/channel/meeting/membership.py:166-175 | the seats that are left after expiry |
| Membership.MembershipLedger.BeginAttempt | lark_channel/channel/meeting/membership.py:226-230 | the attempt is stamped before the call, and harmless if the seat was released meanwhile |
| Membership.Batches | lark_channel/channel/meeting/membership.py:219-224 | the batches are the candidates in order, each once, none larger than allowed |
| Admission.CeilingHolds | lark_channel/channel/meeting/admission.py:42-68 | with at most `k` calls past the gate at once, meetings with a session or a held seat and those calls together never exceed ceiling + k - 1; one call per meeting number |
| Admission.CeilingIsExceeded | lark_channel/channel/meeting/admission.py:42-50 | for every ceiling and `k` a run reaches ceiling + k - 1 |
| Admission.DisposingFreesNothing | lark_channel/channel/meeting/admission.py:42-50 | disposing a session whose seat is held lets nobody in |
| Admission.SeatsAloneRefuse | lark_channel/channel/meeting/admission.py:42-50 | for every ceiling a run after which no session is left and held seats alone keep the next call out |
| Admission.RegisteringTakesBoth | lark_channel/channel/meeting/registry.py:301-326 | a join that registers takes the seat, has the session and gives its number back in one step; a follow takes no seat |
| Admission.AdmissionGate.Admit | lark_channel/channel/meeting/admission.py:42-50 | refused exactly if meetings with a session or a held seat reach the ceiling, which is the step of the transition system that is enabled for a waiting call |
| Admission.NextClaims | lark_channel/channel/meeting/admission.py:52-68 | every step keeps: each claimed number is being worked on by exactly the call that claimed it |
| Admission.AdmissionGate.Enter | lark_channel/channel/meeting/registry.py:239-247 | a join shares a future exactly if some call works on its number, and then that call's; else it becomes that call |
| Admission.AdmissionGate.Release | lark_channel/channel/meeting/admission.py:67-68 | however a join ends, nobody works on its number afterwards |
| MergeForward.BuildChildrenMap | lark_channel/channel/normalize/merge_forward.py:193-213 | every parent with children, each bucket sorted by time |
| MergeForward.SortStable | lark_channel/channel/normalize/merge_forward.py:210-213 | ordered by time, a permutation, and items of one instant in list order |
| MergeForward.BucketsPartition | lark_channel/channel/normalize/merge_forward.py:193-213 | every item but the root is in exactly the bucket of its parent |
| MergeForward.Materialize | lark_channel/channel/normalize/merge_forward.py:103-167 | the recursion terminates for every map and computes the specified tree |
| MergeForward.TreeFollowsMap | lark_channel/channel/normalize/merge_forward.py:103-167 | a node stands at a path if and only if the map leads there within the limits, and is that item |
| MergeForward.ChainStands | lark_channel/channel/normalize/merge_forward.py:103-213 | every chain of listed items from the root, each naming the one above as its parent (or none, for the root) and each but the last a nested forward, stands in the tree if the limits leave room |
| MergeForward.NodeIsChain | lark_channel/channel/normalize/merge_forward.py:103-213 | every node of the tree stands at the end of such a chain |
| MergeForward.SiblingsInOrder | lark_channel/channel/normalize/merge_forward.py:210-213 | siblings stand in order of time, an item without one counting as time 0 |
| MergeForward.LevelIs | lark_channel/channel/normalize/merge_forward.py:103-167 | a level beyond the depth limit and a truncated one say so, and exactly the nested forwards are opened |
| MergeForward.TreeIsBounded | lark_channel/channel/normalize/merge_forward.py:103-167 | at most the sum of max_items^j over the levels, for any map, cyclic or not |
| MergeForward.Expand | lark_channel/channel/normalize/merge_forward.py:55-101 | the three error answers, and otherwise the tree of the fetched items, within the bound: its nodes are chains of items from the root, siblings in order of time, and nothing is missing where nothing is cut off |
| LoopGuard.StateRefinesRecount | lark_channel/channel/safety/loop_guard.py:111-153 | the stored entries are exactly the ids of the whole history within the window of the largest time, without repeats, in any arrival order |
| LoopGuard.TripsExactly | lark_channel/channel/safety/loop_guard.py:111-153 | tripping equals "enough distinct ids in the window" by a full recount, the window being what lies within its width of every other mention |
| LoopGuard.CapHarmlessIff | lark_channel/channel/safety/loop_guard.py:111-153 | with at most `most` ids in the window at any time, the verdict equals the recount for every history in any order if and only if `most` is within the cap of 1024, or one mention trips |
| LoopGuard.CountsTogetherIff | lark_channel/channel/safety/loop_guard.py:161-165 | two messages share a count exactly if they agree in the chat, or in chat and sender, for chat ids without a colon |
| LoopGuard.InterfereIff | lark_channel/channel/safety/loop_guard.py:75-90 | counting by sender, two chats share a count or reset each other's for some senders if and only if one id with the separator starts the other; never for ids without a colon |
| LoopGuard.LoopGuard.Record | lark_channel/channel/safety/loop_guard.py:99-159 | the verdict for one message, for every kind of message; the counted key is kept, and no other goes while there are fewer than 5000 |
| LoopGuard.LoopGuard.ResetOnHuman | lark_channel/channel/safety/loop_guard.py:75-90 | a human message drops the keys of its chat, exactly those for chat ids without a colon |
| LoopGuard.LoopGuard.Reconfigure | lark_channel/channel/safety/loop_guard.py:42-73 | counting survives exactly if nothing it depends on changed; a window that is not positive becomes a minute, the threshold stays between 1 and 1024 |

## Left out

- ChatPipeline.ChatPipeline.Dispose: the final wait for the last task is not modelled; `TaskChain.SomeTaskCanMove` says that the chain is never stuck.
- TaskChain.TaskChain.Begin: a task that is cancelled from outside takes its successors with it, because each awaits the one before; the chain is modelled without cancellation.
- `ChatPipelineManager`: creating pipelines on first use; `Pipeline` has one history per scope.
- SeenCache.SeenCache.Has: the shared cache appears only as a hit or a miss; what other processes do with it is not modelled.
- MediaPipeline.MediaPipelineManager.Push: how long a media timer waits is not recorded, nor for a transcript's; the delays of a chat scope are in `ChatPipeline`. Messages are values, so attaching a batch to its last message in place is not captured.
- AtSpans.FindSpans: the documentation calls the scan linear; unclosed openers search to the end each time, so no bound on the work is stated.
- Chunker.ChunkText: "no split tag" is stated for texts without U+0130 up to their last tag; `TagGuarantee.TagsKeptIff` says exactly which prefixes make every continuation safe, not which single texts happen to be split well.
- Fragments.Reassembler.Combine: security audit records are not modelled. A completed entry stays cached until its TTL, as in the code.
- Reconnect.ConnectionsAccounted: a close that raises ends that reconnection without a new dial, as in the code; back-off delays and endpoint lookup are not modelled.
- Roster.ChatMemberCache.SetMembers: rosters are values, so updating a roster object in place and sharing it is not captured.
- MeetingSession.Session.Ingest: the dedup of activities is `SeenCache`; the events given are those it lets through. The session holds its queue and its transcript buffer as values, with the functions the two objects are proved against, so sharing of those objects is not captured, and neither are the handlers themselves.
- MeetingSession.Session.Close: hopping to the owning loop is not modelled; all calls are on one loop.
- SerialDelivery.SerialDelivery.Cancel: a handler that swallows its cancellation would let the worker run on, and starting again after a cancellation would make a second worker; both are left out.
- SerialDelivery.SerialDelivery.Drain: the wait is represented by whether everything was finished in time; the steps of the worker are methods of their own.
- MeetingRegistry.MeetingRegistry.Retire: ends at the departure request; `DepartAnswered` is the continuation, and the final drain is `MeetingSession`'s. What the platform does in between is not modelled.
- Membership.MembershipLedger.Reconcile: nothing else happens during the pass and one clock reading serves it all; overlapping passes with other calls in between are `Reconciliation`.
- LoopGuard.CapHarmlessIff: an id is taken to keep its time, as message ids do.
- SafetyPipeline.SafetyPipeline.PushGate: takes the verdicts of the stale check, the policy and the loop guard; the guard's own state is `LoopGuard`.
- Dispatch.AtMostOnce: light events take no lock; in these runs they appear through their effect on the cache, and `LightEvents.OnceIff` says when one is handled twice.
- Clocks are read once per call. The source reads them again in places; `time.time()`, which the caches use, may go backwards, while `Dispatch.Tick` and `Fragments.InTime` assume that no clock does.
- HTTP, WebSocket and file I/O, protobuf frames, tokens, request builders and the user-ticket flow: external effects.
- `PolicyGate`, configuration, error classification, coercion and routing by prefix: flat branching; the policy verdict is a parameter of the gate.
- `NameCache`, `ChatModeCache`, the in-memory dedup store and the media file cache: the reasoning of `SeenCache` again.
- `PollSource`, `PushSource`, session health view and streaming controllers are not part of this model.
