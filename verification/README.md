# HomeDeck verification model

A Dafny model of HomeDeck's portable core: the Harmony connection loop, the Kodi client, the recycled
list, the logger, the event bus, WebSocket reassembly, the admin login, power management, the dashboard
grid, the JSON depth check and the form codec. Sockets, hashes, flash and clocks are parameters: a network
call has a free outcome, a clock reading is an argument.

Check it with `dafny verify dfyconfig.toml`.

## How it is built

Code that several threads run is modelled twice. A state machine (`Apply`/`Step`/`HomeStep`) takes one
atomic action at a time - a lock-held section, one storage access, one network outcome - in any
interleaving, and the safety results are about every run of it. A class holds the source's fields, and
each of its methods is proved to take exactly the machine's steps. Code that runs on one thread is a class
or a method proved against a specification function or predicate, with the promises proved about that.
What a machine does is also told a second time from the events alone - a record an observer could keep,
written on the frames, replies, readings and clock values themselves (`AdminAuth.PastOf`, `KodiCalls.StoryOf`,
`KodiHeard.TaleOf`, `HarmonyFates.SeenAfter`, `EventBus.IsMember`) - and the two are proved to agree in every run.

| files | what they model |
|---|---|
| `ConnectionWake.dfy`, `HarmonyProtocol.dfy`, `HarmonyReconnects.dfy`, `HarmonyCommands.dfy`, `HarmonyFates.dfy`, `HarmonyConnection.dfy` | the wake channel, the connection protocol, its reconnect requests, where each command is and what becomes of it, the loop thread's code |
| `KodiJson.dfy`, `KodiNowPlaying.dfy`, `KodiHeard.dfy`, `KodiSession.dfy` | the merge of polls and notifications into what is playing, and the same told from the frames |
| `KodiCalls.dfy`, `KodiLibrary.dfy`, `KodiDiscovery.dfy` | request and reply matching, paged listings, choice of the Kodi to connect to |
| `VirtualListWindow.dfy`, `VirtualList.dfy` | the window arithmetic and the button pool with its row cache |
| `MessageAssembler.dfy`, `Queues.dfy`, `LogStore.dfy`, `Logger.dfy`, `EventBus.dfy` | reassembly, the FIFO, the stored log, its worker, event delivery |
| `AdminAuth.dfy` | the three-phase login, its throttle, the sessions |
| `Power.dfy`, `DashboardGrid.dfy` | the power state with the battery latch and OTA writes; first-fit tiles |
| `JsonNesting.dfy`, `FormCodec.dfy` | the bracket scan; percent-encoding and form fields |

## What the code does that its comments and documents do not say

- The grid's comment calls its packing sparse; the scan starts at the top each time, so a later widget
  goes before an earlier one exactly when a free position is there (`DashboardGrids.BackfillsIff`, and
  `DashboardGrids.LaterWidgetBackfills` for a layout). An empty grid already has one row.
- The Kodi document keeps the link "unless three polls in a row get no answer at all"; the counter is
  reset only by an answer to a poll's first call, so a poll answered there and timed out later counts, and
  two silent polls after it drop the link (`KodiNowPlaying.TwoSilentPollsCanDropTheLink`); the documented
  rule and the code agree exactly otherwise (`KodiNowPlaying.DocumentedRuleHoldsIff`).
- A stop blanks what is playing only when a playback or a title shows; an item that came with a show but no
  title leaves the show behind (`KodiHeard.StopBlanksIff`, `KodiHeard.ShowOutlivesStop` for a run).
- A Kodi that ignores `limits`, holds exactly 500 items and reports no total is asked again, and each item
  is listed twenty times (`KodiLibraries.EverythingAtOnce`). An unflagged listing has lost items
  exactly when its last page, beside the full pages before it, goes past 10000
  (`KodiLibraries.UnflaggedIsWholeIff`, and `KodiLibraries.OversizedReplyIsCutUnflagged` for an input);
  pages of at most 500 items lose nothing (`KodiLibraries.SmallPagesAreComplete`). Without a total, exactly 10000
  items are flagged although complete (`KodiLibraries.HonestLibrary`).
- A reply's id is narrowed to int before it is compared, so a reply accepted carries the id sent exactly
  when its id fits an int (`KodiCalls.AnswerIsForThisRequest`, `KodiCalls.WideIdIsTaken`).
- Which Kodi is chosen does not depend on the order of the mDNS answers, but which of its addresses is
  used does, exactly when its best answers disagree (`KodiDiscovery.TargetIgnoresOrderIff`,
  `KodiDiscovery.AddressFollowsOrder`).
- Lowering the Active brightness leaves an idle screen as it was, so it can outshine Active
  (`Powers.IdleCanOutshineActive`, `Powers.OnlyLoweringActiveOutshines`).
- After an oversized piece the assembler alone would deliver the message's tail; its owner's close is what
  prevents that (`MessageAssembler.OversizedTailNeedsClose`).
- A rotation leaves a gap between the two stored blobs exactly when the batch is larger than the cap, has
  more than one line, and something came before it (`LogStore.OversizedBatch`, `LogStore.OversizedBatchGap`).
- With a depth limit below zero, JSON without any bracket still passes (`JsonNesting.ScanIsExact`).

## Model

| member | source | states |
|---|---|---|
| ConnectionWakes.ConnectionWake.Trigger | src/core/connection_wake.h:22-30 | the request is flagged |
| ConnectionWakes.ConnectionWake.ClearTriggerLocked | src/core/connection_wake.h:38 | the flagged request is dropped |
| ConnectionWakes.ConnectionWake.Wait | src/core/connection_wake.h:44-60 | which of stop, request, work and timeout a wait reports, and that only reporting the request consumes it |
| HarmonyReconnects.NoLostReconnect | src/core/harmony_connection.cpp:295-398 | in every run, a reconnect asked for after the stored hub was changed is still flagged, or the loop is already on its way to re-reading the setting; never swallowed by a sleep or the post-connect discard |
| HarmonyReconnects.OwedFromTriggerToRead | src/core/harmony_connection.cpp:215-217 | every trigger is flagged; one over a changed setting is owed from then until the loop reads or the setting is put back |
| HarmonyReconnects.HeadingArrives | src/core/harmony_connection.cpp:295-421 | a loop on its way to the read gets one action nearer to it with each action, unless it stops |
| HarmonyReconnects.OwedIsAnswered | src/core/harmony_connection.cpp:295-421 | in every run without a stop, an owed reconnect is answered within a fixed number of the loop's actions, or the setting has been put back |
| HarmonyReconnects.SatisfiedTriggerDiscarded | src/core/harmony_connection.cpp:369-377 | whatever other threads do meanwhile, the post-connect section leaves the trigger set exactly when it was set and the setting read is not the connection's |
| HarmonyCommands.EveryCommandInOnePlace | src/core/harmony_connection.cpp:233-242 | at every point of every run each enqueued command is in exactly one of pending, batch, sent, evicted, lost |
| HarmonyCommands.SentInEnqueueOrder | src/core/harmony_connection.cpp:600-686 | what the hub accepted is a subsequence of the enqueue order |
| HarmonyCommands.EveryLossReported | src/core/harmony_connection.cpp:600-686 | every lost command is covered by a published drop event or the loop is about to publish one; why each may be lost |
| HarmonyCommands.UnreportedArrives | src/core/harmony_connection.cpp:635-686 | the publish that covers open losses is reached |
| HarmonyCommands.LossesAreReportedInTime | src/core/harmony_connection.cpp:600-686 | in every run, everything lost so far is reported within a fixed number of the loop's actions |
| HarmonyCommands.ReleaseAttempted | src/core/harmony_connection.cpp:625-671 | a release taken into a batch is handed to SendText in every run without a stop, within as many loop actions as the batch holds commands |
| HarmonyCommands.SentToItsOwnHub | src/core/harmony_connection.cpp:295-336 | every SendText goes to the hub observed when its command was queued, unless none was |
| HarmonyCommands.NoCrossHubDelivery | src/core/harmony_connection.cpp:305-336 | a command queued when the loop sees its hub removed or replaced is never sent afterwards |
| HarmonyFates.KnowsRun | src/core/harmony_connection.cpp:296-336 | in every run the stored setting is the last one written, and the hub last read and the last configured one are those of the loop's reads |
| HarmonyFates.StaysQueuedUntilTaken | src/core/harmony_connection.cpp:296-336 | in every run a queued command stays queued until the loop takes the queue, a stop drains it, a read finds another hub than the one known, or it is the oldest of a full queue: reconnecting to the same or the first hub costs nothing |
| HarmonyFates.EnqueueQueues | src/core/harmony_connection.cpp:233-242 | a new command is queued last with its kind and time; only a full queue gives one up, its oldest |
| HarmonyFates.OnlyOldCommandsAreEvicted | src/core/harmony_connection.cpp:233-242 | over any run an evicted command had twenty younger ones queued behind it |
| HarmonyFates.BatchMeetsItsFate | src/core/harmony_connection.cpp:624-671 | for any outcomes of SendText, exactly which commands of a batch are attempted and which are lost, and why: a release always goes out, anything else only while young enough and while no attempt has failed |
| HarmonyFates.GivenUpWhole | src/core/harmony_connection.cpp:283-293 | the queue of a replaced hub, the queue a stopped loop finds and the rest of a batch cut short are lost whole, in order, each for its own reason |
| HarmonyFates.DownSendsNothing | src/core/harmony_connection.cpp:379-397 | after a failed connect, probe or send, a stop or a reconnect request, nothing is handed to SendText before a connect has succeeded |
| HarmonyFates.FailureGoesDown | src/core/harmony_connection.cpp:379-397 | which outcomes take the connection down and which do not; a connection quiet for an interval is probed |
| HarmonyFates.WaitsAndRestarts | src/core/connection_wake.h:44-60 | a wait drops only the request it reports, and what it reports first; a loop started again goes on with the queue it finds |
| HarmonyFates.ConnectedLoopTakesQueue | src/core/harmony_connection.cpp:379-391 | in every interleaving without a stop, what is queued on an open connection is in the next batch, unless evicted, after a fixed number of the loop's actions |
| HarmonyFates.StopEndsTheLoop | src/core/harmony_connection.cpp:400-420 | in every interleaving a requested stop ends the loop within twelve actions, with nothing queued before it left and every loss reported |
| HarmonyConnections.HarmonyConnection.Reconnect | src/core/harmony_connection.cpp:215-217 | takes the machine's trigger step |
| HarmonyConnections.HarmonyConnection.EnqueueCommand | src/core/harmony_connection.cpp:233-242 | takes the machine's enqueue step: appended, the oldest evicted beyond 20 |
| HarmonyConnections.HarmonyConnection.ClearPendingCommandsIfAny | src/core/harmony_connection.cpp:283-293 | empties the queue and publishes exactly when something was dropped, as the machine's two steps do |
| HarmonyConnections.HarmonyConnection.DiscardSatisfiedTrigger | src/core/harmony_connection.cpp:369-377 | re-reads the setting under the wake mutex and clears the trigger only if the host is unchanged |
| HarmonyConnections.HarmonyConnection.SendPendingCommands | src/core/harmony_connection.cpp:600-686 | for any stop requests and send outcomes, takes exactly the machine's actions from the swap to the report: queue and batch end empty, and the loop goes on as the result says |
| HarmonyConnections.BatchGoesOnUntilStopped | src/core/harmony_connection.cpp:625-637 | a batch goes on to the first check that finds a stop requested, each command before it one send with its own outcome |
| KodiJson.ToInt32 | src/core/kodi_client.cpp:428 | narrowing gives the one int that differs by a multiple of 2 to the 32 |
| KodiJson.MillisFromTimeObject | src/core/kodi_json.cpp:67-71 | hours, minutes, seconds and milliseconds are weighed, each counted only when a whole number and cut to 0..1000000; any object, however hostile, stays well inside 64 bits |
| KodiJson.ResultArray | src/core/kodi_json.cpp:109-119 | the array at result and the key, and nothing for anything else |
| KodiJson.TitleIn | src/core/kodi_json.cpp:246-252 | the non-empty title, else the non-empty label |
| KodiJson.NumberIn | src/core/kodi_json.cpp:256-263 | a whole number not below zero, cut at a million |
| KodiJson.MediaTypeIn | src/core/kodi_json.cpp:264-269 | a non-empty type other than "unknown" |
| KodiJson.ApplyItemFields | src/core/kodi_json.cpp:242-270 | a field is overwritten exactly when the item says something usable about it |
| KodiJson.MergeKeepsTheLatest | src/core/kodi_json.cpp:242-270 | merging a sequence of items leaves in each field the latest usable value |
| KodiNowPlaying.Decode | src/core/kodi_client.cpp:699-779 | by its method alone, a frame is the stop, a volume change, a player event, the start of an item or nothing; and which members its item, speed, volume and mute come from |
| KodiNowPlaying.StopStaysStopped | src/core/kodi_client.cpp:620-646 | after a handled frame whose method is "Player.OnStop" nothing plays until a later Player frame or a players reply received since says so; no reply in flight revives it |
| KodiNowPlaying.IdentityIsWhatWasNotified | src/core/kodi_client.cpp:744-779 | from an OnPlay with an item until a stop, an idle poll or a reconnect, the identity is the latest usable value of each field notified, whatever GetItem says |
| KodiNowPlaying.ScreensAreCurrent | src/core/kodi_client.cpp:530-697 | between polls every change has been announced, so the screens show the snapshot |
| KodiNowPlaying.NumbersStayInRange | src/core/kodi_json.h:28-40 | volume, speed, times and episode numbers stay in range and the playback state agrees with the speed in every run |
| KodiNowPlaying.VolumeIsTheLatestHeard | src/core/kodi_client.cpp:562-575 | volume and mute are the last ones heard, by notification or poll, over any run |
| KodiNowPlaying.LinkIsDroppedIff | src/core/kodi_client.cpp:538-552 | since the connection came up, a failed poll gives up on it exactly when the link is dead or it is the third silent poll in a row, a poll cut off just before counting as one |
| KodiNowPlaying.DocumentedRuleHoldsIff | docs/architecture/kodi.md:261-264 | the documented rule of three polls in a row without any answer is the code's exactly unless two silent polls follow one cut off after its first call |
| KodiNowPlaying.TwoSilentPollsCanDropTheLink | src/core/kodi_client.cpp:538-552 | the run in which two polls without any answer are enough |
| KodiHeard.SnapshotIsWhatWasHeard | src/core/kodi_client.cpp:530-784 | in every run the snapshot, the version, the reply a poll waits for, whether the identity was notified and whether another poll is due are what the frames and replies say member by member, told without the code's stop counter and flags |
| KodiHeard.StopBlanksIff | src/core/kodi_client.cpp:740-747 | a stop blanks the snapshot exactly when a playback or a title shows, or nothing is left anyway |
| KodiHeard.ShowOutlivesStop | src/core/kodi_client.cpp:740-747 | a run in which a show without a title outlives the stop |
| KodiHeard.NotificationIsPublishedIff | src/core/kodi_client.cpp:725-784 | a notification is published exactly when it tells something |
| KodiHeard.PollIsPublishedIffItChanges | src/core/kodi_client.cpp:530-697 | a poll no notification interrupts is published once if it leaves another snapshot and not at all otherwise |
| KodiHeard.OnlyFailuresDropTheLink | src/core/kodi_client.cpp:538-552 | a poll read to its end keeps the link; any failure of a connection's first poll drops it |
| KodiSessions.KodiSession.HandleNotification | src/core/kodi_client.cpp:699-784 | takes the machine's notification step for the frame and publishes exactly when it says so |
| KodiSessions.PushesAreTheFrames | src/core/kodi_client.cpp:432-434 | every frame pushed while a call waits is handled, in order |
| KodiSessions.KodiSession.ReconcilePoll | src/core/kodi_client.cpp:530-697 | the whole poll, with notifications handled in each wait, takes the machine's steps call by call and returns whether the link is kept |
| KodiSessions.KodiSession.ConnectAndPrime | src/core/kodi_client.cpp:339-360 | a new connection forgets what was playing and polls once, tolerating no timeout; a failed or stopped connect changes nothing |
| KodiCalls.IdsAreUnique | src/core/kodi_client.cpp:381 | no two requests of a client's lifetime carry the same id, fire-and-forget ones included |
| KodiCalls.LinkIsAsTold | src/core/kodi_client.cpp:362-439 | in every run who waits for which id, what was read and handled and whether Kodi looks busy are what the frames say |
| KodiCalls.RepliesAreMatched | src/core/kodi_client.cpp:394-437 | a frame is returned exactly when it carries the id being waited for; none twice, no request answered twice |
| KodiCalls.PushesAreHandledOnceInOrder | src/core/kodi_client.cpp:362-373 | the frames handled are exactly the objects read that have a "method" and were not the reply, in order, whoever read them |
| KodiCalls.AnswerIsForThisRequest | src/core/kodi_client.cpp:424-431 | a returned frame carries the very id that was sent exactly when its id fits an int |
| KodiCalls.WideIdIsTaken | src/core/kodi_client.cpp:428 | an id that differs by a multiple of 2 to the 32 is taken for it |
| KodiCalls.CallEndsAtTheFirst | src/core/kodi_client.cpp:394-437 | a call ends at the first wait that is neither a frame that is no reply to it nor a first slice run out on an open, idle link, and as that wait says |
| KodiCalls.KodiLink.Call | src/core/kodi_client.cpp:375-439 | for any socket behaviour the wait loop takes the machine's steps and ends as specified: the result is the reply exactly when one was logged as this call's answer, else a timeout, a dead link or a stop |
| KodiCalls.KodiLink.PumpNotifications | src/core/kodi_client.cpp:362-373 | reads at most 32 waiting frames, each as an arrival nobody waits for |
| KodiLibraries.CallLibrary | src/core/kodi_client.cpp:441-528 | computes the listing and the exact sequence of requests for any sequence of answers, within 20 requests and 10000 items |
| KodiLibraries.ListingEndsAtTheFirst | src/core/kodi_client.cpp:475-527 | for any answers the listing ends at the first request that brings no page to go on from, with what each kind of answer there comes to and how many requests were made |
| KodiLibraries.HonestLibrary | src/core/kodi_client.cpp:475-525 | against a server that honours limits: the first 10000 items, flagged exactly when there are more (or, with no total, may be) |
| KodiLibraries.TimeoutKeepsAPrefix | src/core/kodi_client.cpp:482-491 | a timeout at any page leaves a proper prefix flagged truncated, or the error text when nothing came |
| KodiLibraries.AnyServer | src/core/kodi_client.cpp:475-525 | against any server the merge is the first 10000 items of the pages read, and unflagged only if the last page said it was the last |
| KodiLibraries.UnflaggedIsWholeIff | src/core/kodi_client.cpp:505-524 | an unflagged listing holds every item of the pages read exactly when the last page stays within the cap beside the full ones before it |
| KodiLibraries.SmallPagesAreComplete | src/core/kodi_client.cpp:505-524 | a server whose pages hold at most 500 items loses nothing without the flag |
| KodiLibraries.EverythingAtOnce | src/core/kodi_client.cpp:517-521 | a server that ignores limits is listed right if and only if it does not hold exactly one page with no total |
| KodiLibraries.OversizedReplyIsCutUnflagged | src/core/kodi_client.cpp:506-521 | an input for which a cut listing is not flagged |
| KodiDiscovery.KeyTextIsInjective | src/core/kodi_client.cpp:63-65 | the key text tells instances apart |
| KodiDiscovery.DedupKeepsTheBest | src/core/kodi_client.cpp:52-74 | one entry per instance, the first answer of the best address rank |
| KodiDiscovery.DedupKeepsTheOrder | src/core/kodi_client.cpp:52-74 | instances are listed in the order they first answered |
| KodiDiscovery.DeduplicateInstances | src/core/kodi_client.cpp:52-74 | the loop with its text-keyed index computes that deduplication |
| KodiDiscovery.ResolveTarget | src/core/kodi_client.cpp:188-270 | a usable manual host, else the chosen instance's address, none for an instance without one; and what the settings page shows of it |
| KodiDiscovery.ChosenIff | src/core/kodi_client.cpp:201-252 | from the answers themselves, whether an instance is the one connected to: the best usable answer of its Kodi, with an address, and of the selected uuid or of the only Kodi there is |
| KodiDiscovery.ManualHostWins | src/core/kodi_client.cpp:189-199 | a manual host of safe characters and no colon is the target on port 9090; else the chosen instance |
| KodiDiscovery.AuthorityReadsBack | src/core/kodi_client.cpp:81-88 | the port stands after the last colon, and a host holds a colon only in brackets |
| KodiDiscovery.PageShowsTheTarget | src/core/kodi_client.cpp:247-269 | the page shows a host exactly when there is a target, and lists every connectable instance |
| KodiDiscovery.ChoiceIgnoresOrder | src/core/kodi_client.cpp:201-252 | whether there is a target and which instance it is are the same for every order of the answers |
| KodiDiscovery.AgreedAddressIgnoresOrder | src/core/kodi_client.cpp:52-74 | the address too is order-independent when the best answers agree on it |
| KodiDiscovery.CandidateHeardFirst | src/core/kodi_client.cpp:52-74 | any of the best answers is the one used when it is moved to the front of the same answers |
| KodiDiscovery.TargetIgnoresOrderIff | src/core/kodi_client.cpp:52-74 | every reordering gives the same target if and only if the best answers share address and port |
| KodiDiscovery.AddressFollowsOrder | src/core/kodi_client.cpp:52-74 | two answers whose order decides the address |
| VirtualListWindow.OnScreenRange | src/ui/virtual_list_window.h:23-46 | the rows on screen are those between two floor quotients |
| VirtualListWindow.WindowCoversScreen | src/ui/virtual_list_window.h:23-46 | every row on screen is in the window, and the window is exactly those rows and the overscan to either side |
| VirtualListWindow.WindowFits | src/ui/virtual_list_window.h:59-64 | the window stays in the list and within MaxVisibleRows |
| VirtualListWindow.PoolIsTight | src/ui/virtual_list_window.h:59-64 | some position of a long list fills the pool but for two buttons |
| VirtualListWindow.SlotShowsItsRow | src/ui/virtual_list_window.h:48-55 | in a window no larger than the pool, a row appears in its own slot and no other |
| VirtualLists.FullRenderShowsExactly | src/ui/virtual_list.cpp:121-159 | a render from nothing shows one button per row of the window |
| VirtualLists.VirtualList.SetItems | src/ui/virtual_list.cpp:58-71 | the buttons in sight are exactly those of a full render of the new list, and every row on screen is one |
| VirtualLists.VirtualList.Refresh | src/ui/virtual_list.cpp:96 | after any scroll the cached, incremental rebind shows exactly what a full render would, every row on screen included, and draws only the slots whose row changed |
| VirtualLists.VirtualList.Clear | src/ui/virtual_list.cpp:84-94 | every button is hidden |
| VirtualLists.VirtualList.EnsurePool | src/ui/virtual_list.cpp:98-110 | the pool grows to the rows any window needs and no further, and its cache is cleared |
| VirtualLists.VirtualList.Rebind | src/ui/virtual_list.cpp:121-159 | shows the full render, drawing a slot exactly when forced or when its row changed |
| MessageAssembler.WebSocketMessageAssembler.Add | src/platform/websocket_message_assembler.h:40-56 | takes the specification's step: append, complete, evict the oldest beyond 20, or refuse beyond the byte bound |
| MessageAssembler.WebSocketMessageAssembler.Pop | src/platform/websocket_message_assembler.h:58-65 | hands out the oldest message |
| MessageAssembler.ReassemblyIsExact | src/platform/websocket_message_assembler.h:40-65 | for any peer and any pops: what left the queue followed by what is queued is what the accepted chunks say; both bounds hold |
| MessageAssembler.ReadInvertsFragmentation | src/platform/websocket_message_assembler.h:40-56 | reading undoes any split of messages into frames and chunks |
| MessageAssembler.BoundedMessagesArrive | src/platform/websocket_message_assembler.h:40-65 | bounded messages, however fragmented, come out as sent |
| MessageAssembler.ClosedIffOversized | src/platform/websocket_message_assembler.h:40-47 | delivering messages in any fragments closes the link exactly when one is longer than the bound |
| MessageAssembler.EvictedOnlyWhenFull | src/platform/websocket_message_assembler.h:48-54 | exactly what leaves the queue at each step: a popped message, or the oldest when one completes while twenty are queued |
| MessageAssembler.OversizedTailNeedsClose | src/platform/websocket_message_assembler.h:40-47 | the chunks for which the tail of a refused message would be delivered |
| Queues.Queue.Push | src/platform/queue.h:33-40 | appends at the back |
| Queues.Queue.Pop | src/platform/queue.h:58-72 | hands out the front; a stop ends it only on an empty queue |
| LogStore.TrimToTail | src/core/logger.cpp:44-61 | the tail from a cut that is the earliest line start to fit the cap, or the last line start |
| LogStore.TrimIsTheCut | src/core/logger.cpp:44-61 | the tail is the longest line-aligned suffix within the cap, or the last line alone |
| LogStore.JoinLinesAsArrayElements | src/core/logger.cpp:67-86 | the blob's non-empty lines in order, joined by commas |
| LogStore.StoredLinesReadBack | src/core/logger.cpp:67-86 | the lines written are the lines read back |
| LogStore.SplitIsExact | src/core/logger.cpp:67-86 | the text is split at every newline and nowhere else |
| LogStore.ArrayOfLines | src/core/logger.cpp:119-130 | one array of both blobs' lines, the older blob's first |
| LogStore.NewestIsRetained | src/core/logger.cpp:172-214 | while every batch fits the cap or is one line, the two blobs are a gapless newest part of the log, longer than the cap once anything is dropped |
| LogStore.CurrentIsNewest | src/core/logger.cpp:172-214 | whatever the batches, the current blob is the newest part |
| LogStore.FlashIsBounded | src/core/logger.cpp:172-214 | whatever is logged, each blob stays within the cap or is a single line; a batch with room is only appended |
| LogStore.OversizedBatch | src/core/logger.cpp:194-206 | a rotation keeps two stretches of the log, which meet exactly when the batch fits the cap, is one line, or nothing came before |
| LogStore.OversizedBatchGap | src/core/logger.cpp:194-206 | an oversized batch that leaves a gap |
| Loggers.FlushAfterItsRecords | src/core/logger.cpp:132-170 | a flush signal fires only after every record pushed before it is written; both in push order, in every interleaving |
| Loggers.WaitingWorkerIsDone | src/core/logger.cpp:132-170 | a worker waiting on an empty queue has written and signalled everything |
| Loggers.StopLosesNothing | src/core/logger.cpp:132-170 | the worker ends exactly when asked to stop with nothing queued, and then everything pushed is written and signalled |
| Loggers.FlashHoldsTheNewest | src/core/logger.cpp:132-214 | over any run whose batches fit or are one line, flash holds the newest part of everything written |
| Loggers.Logger.WriteBatch | src/core/logger.cpp:172-214 | rotates, trims and appends as the storage step says |
| Loggers.Logger.WorkerTurn | src/core/logger.cpp:132-170 | takes exactly the machine's actions for everything queued: the records written as one batch, and only then the signals fired |
| Loggers.Logger.Log | src/core/logger.cpp:102-108 | takes the machine's push step |
| Loggers.Logger.RequestFlush | src/core/logger.cpp:110-114 | pushes a signal behind every record logged so far |
| AdminAuth.LoginThrottle | src/core/admin_auth_service.cpp:317-379 | for any interleaving of logins across the hash, told from the events alone: a login is admitted exactly when fewer than five attempts were admitted since the last success or a lockout has passed since the last was charged, so they number at most five plus one per lockout period since the fifth |
| AdminAuth.OnlySuccessLoosens | src/core/admin_auth_service.cpp:317-379 | failures, expiry and other calls never loosen the throttle |
| AdminAuth.ValidateIsExact | src/core/admin_auth_service.cpp:386-406 | a token is accepted exactly when a successful login of the run issued it less than a day ago and no logout followed, sweeps notwithstanding |
| AdminAuth.IssueSweeps | src/core/admin_auth_service.cpp:262-278 | issuing leaves no expired session and the new one valid |
| AdminAuth.ConstantTimeEquals | src/core/admin_auth_service.cpp:106-118 | visiting every byte still decides equality |
| AdminAuth.AdminAuthService.BeginLogin | src/core/admin_auth_service.cpp:333-342 | takes the machine's reserving step and admits exactly when not locked out |
| AdminAuth.AdminAuthService.FinishLogin | src/core/admin_auth_service.cpp:360-379 | takes the machine's settling step |
| AdminAuth.AdminAuthService.SweepExpiredSessions | src/core/admin_auth_service.cpp:262-278 | removes exactly the expired sessions |
| AdminAuth.AdminAuthService.ValidateSession | src/core/admin_auth_service.cpp:386-406 | the scan over every session decides validity and drops an expired match |
| EventBus.RunsAtMostOnceAndAfterSubscribing | src/core/event_bus.cpp:69-104 | a UI callback runs at most once per publish, only for publishes after it subscribed, in subscription order |
| EventBus.NeverRunsAfterUnsubscribe | src/core/event_bus.cpp:88-98 | once removed, a subscription's callback never runs again, whatever was queued for it |
| EventBus.CallsRunInPostedOrder | src/ui/ui_dispatch.cpp:30-51 | calls are handled in the order they were posted, across publishes |
| EventBus.SubscriberGetsExactlyItsEvents | src/core/event_bus.cpp:69-104 | once the queue drains, a subscriber still registered has run for exactly the publishes of its type since it subscribed |
| EventBus.ListedAreTheMembers | src/core/event_bus.cpp:40-56 | in every run a type's subscribers are those that subscribed to it and have not unsubscribed; ids are handed out in turn from 1 |
| EventBus.PublishGoesToTheMembers | src/core/event_bus.cpp:69-83 | a publish goes to exactly the members of that moment, in subscription order, and defers UI calls exactly if a dispatcher was set before |
| EventBus.DrainHandlesTheOldest | src/core/event_bus.cpp:85-98 | draining handles the call queued longest and runs it exactly if its subscriber is still a member |
| EventBus.SyncCallsAreTheOthers | src/core/event_bus.cpp:99-102 | the publisher itself calls exactly the subscribers that are not on the UI thread, in order |
| EventBus.IdsNeverReused | src/core/event_bus.cpp:40-46 | subscription ids are never handed out twice |
| EventBus.Bus.SubscribeImpl | src/core/event_bus.cpp:40-46 | takes the machine's subscribe step |
| EventBus.Bus.Unsubscribe | src/core/event_bus.cpp:48-56 | takes the machine's unsubscribe step |
| EventBus.Bus.FindCallback | src/core/event_bus.cpp:58-67 | finds a callback exactly when its id is registered |
| EventBus.Bus.DrainOneCall | src/ui/ui_dispatch.cpp:30-36 | one queued call, run only if its subscriber is still registered |
| EventBus.Bus.PublishImpl | src/core/event_bus.cpp:69-104 | snapshots the subscribers, queues the UI ones and calls the others itself, in order |
| Powers.StateIsTheReason | src/core/power_manager.cpp:41-91 | in every run Error holds exactly when the last battery edge handled was critical, Updating exactly when a write is in progress and it was not |
| Powers.StateIsTheTruthOnceDrained | src/core/latched_threshold_monitor.cpp:8-26 | with nothing left to handle, the state agrees with the latch and the write themselves |
| Powers.NothingPublishedTwice | src/core/power_manager.cpp:120-134 | consecutive published states differ |
| Powers.LandingIsTheFixpoint | src/core/power_manager.cpp:65-74 | a finished write lands where repeated ticks from Active settle |
| Powers.InputsAreRemembered | src/core/power_manager.cpp:136-149 | in every run the veto and the active brightness are the latest asked for, the latch is what the last reading calls for, and every tick is posted |
| Powers.TurnDoesWhatInactivityCallsFor | src/core/power_manager.cpp:93-118 | in every run each turn handles the next event posted: after a tick outside Error and Updating the screen is Active exactly when there was activity in the last 30 seconds, it sleeps only from Idle after two minutes against no veto, and every change is shown and published once |
| Powers.DarkExactlyWhileSleeping | src/core/power_manager.cpp:120-134 | the display is off exactly while Sleeping, dimmed while Idle, as set while Active |
| Powers.OnlyTheseTransitions | src/core/power_manager.cpp:93-118 | Sleeping needs the full timeout and no veto; Error and Updating are left only for their own reasons |
| Powers.OnlyLoweringActiveOutshines | src/core/power_manager.cpp:136-141 | exactly which step makes an idle screen brighter than Active |
| Powers.IdleCanOutshineActive | src/core/power_manager.cpp:136-141 | a run in which it does |
| Powers.UnserialisedWritesRepeat | src/core/ota_routes.cpp:40-58 | without the upload lock, Updating would be published twice, exactly unless the battery is critical |
| Powers.PowerManager.OnTick | src/core/power_manager.cpp:93-118 | the tick's effect on state, display and published events |
| Powers.PowerManager.OnOtaChanged | src/core/power_manager.cpp:42-76 | the OTA event's effect, Error always winning |
| Powers.PowerManager.OnCriticalChanged | src/core/power_manager.cpp:77-91 | the battery edge's effect, recovery landing back on Updating during a write |
| Powers.LatchedThresholdMonitor.OnTick | src/core/latched_threshold_monitor.cpp:11-25 | the latch follows the reading and calls back exactly on a change; no battery counts as not bad |
| DashboardGrids.ClampSpan | src/ui/grid_occupancy.h:49-55 | the nearest span the grid can place |
| DashboardGrids.GridOccupancy.Fits | src/ui/grid_occupancy.h:69-78 | holds exactly when the footprint is in the columns and free, rows not yet there being free |
| DashboardGrids.GridOccupancy.MarkOccupied | src/ui/grid_occupancy.h:80-87 | the footprint's cells, and no others, become taken; rows grow to hold it |
| DashboardGrids.GridOccupancy.FindPlacement | src/ui/grid_occupancy.h:94-113 | ends for every span, at the row-major first position that fits |
| DashboardGrids.GrowRowDescriptorArray | src/ui/grid_occupancy.h:135-142 | the array is always the rows' heights and one terminator |
| DashboardGrids.DashboardGrid.AddWidget | src/ui/dashboard_grid.cpp:80-91 | appends the first-fit tile and keeps cells, row count and row descriptors in agreement with the tiles |
| DashboardGrids.LayoutIsUnique | src/ui/grid_occupancy.h:94-113 | the widgets asked for decide every position |
| DashboardGrids.LayoutIsSound | src/ui/grid_occupancy.h:80-113 | over any sequence tiles stay in bounds and disjoint, and the grid is no taller than the row spans' sum |
| DashboardGrids.BackfillsIff | src/ui/grid_occupancy.h:89-113 | a widget goes before one already placed exactly when some position before that one is free for it |
| DashboardGrids.LaterWidgetBackfills | src/ui/grid_occupancy.h:89-93 | the layout in which a later widget fills an earlier gap |
| JsonNesting.ExceedsJsonNestingDepth | src/core/json_request.h:29-51 | the loop computes the scan |
| JsonNesting.ScanIsExact | src/core/json_request.h:29-51 | for every JSON value and every writing of it, the scan says too deep exactly when the tree is |
| JsonNesting.ScanCountsBrackets | src/core/json_request.h:29-51 | for any text at all, the scan says too deep exactly when some bracket outside the strings opens beyond the limit |
| FormCodec.UrlEncode | src/core/weather_routes.cpp:28-42 | the loop computes the encoding |
| FormCodec.UrlDecode | src/core/url_codec.cpp:7-26 | the loop computes the decoding |
| FormCodec.DecodeInvertsEncode | src/core/url_codec.cpp:7-26 | decoding undoes encoding for every byte string |
| FormCodec.DecodesEveryEncoding | src/core/url_codec.cpp:7-26 | however each byte was written - as it is, a space as "+", an escape of either case - decoding gives the text back |
| FormCodec.NothingToDecode | src/core/url_codec.cpp:7-26 | text without "+" and complete escapes decodes to itself, a lone percent sign included |
| FormCodec.EncodeIsCanonical | src/core/weather_routes.cpp:28-42 | encoding escapes exactly the bytes that are not unreserved, in upper case |
| FormCodec.EncodedIsPlain | src/core/weather_routes.cpp:28-42 | encoded text holds only unreserved bytes and '%' |
| FormCodec.ParseFormField | src/core/url_codec.cpp:28-44 | the value read is at the first boundary where the key stands; it is the first such field of the split form exactly when the key is free of '&' or not found |
| FormCodec.FirstFieldFound | src/core/url_codec.cpp:28-44 | looking at boundaries is looking in segments, so key= inside a value never matches |
| FormCodec.AmpKeyIsNoField | src/core/url_codec.cpp:28-44 | a key that holds '&' is in no segment of the split form |
| FormCodec.FormRoundTrip | src/core/url_codec.cpp:28-44 | entries printed as a form give back the first value of each key |

## Left out

Taken as given throughout: ids and counters do not overflow, clocks never run backwards, store writes
succeed, and JSON texts are modelled by their parsed values.

- ESP-IDF, LVGL, SDL, curl, mbedtls and everything that calls them: opaque environments; the list keeps a button's visibility, label, position and row.
- HTTP routes, settings, cookies, static assets, diagnostics, Wi-Fi setup: thin branches.
- HarmonyConnection.ConnectionLoop: the loop around the modelled sections is the machine `HarmonyProtocol.LoopStep`, not a method; config fetch, connection state events, back-off delays and the heartbeat count are not modelled.
- HarmonyConnections.HarmonyConnection.SendPendingCommands: leaves out the activity re-fetch after an accepted StartActivity, which sends no queued command, and the guard for a missing socket, which the loop never meets.
- KodiClient.ConnectionLoop: not modelled, nor are its back-off, the command and library queues and SendPendingCommands beyond the ids they use.
- Call's two-slice wait: the outcome of each wait is modelled, not milliseconds.
- CallLibrary's parameters text: always an object, as every caller passes; the parsers of the listings are not modelled.
- The 64-bit narrowing of JSON integers beyond 64 bits, and rounding of JSON floats, which are reals here.
- Logger::ReadAll: reads the two blobs in two calls with writes possible between, so the flush guarantee is stated at the moment the signal fires; the text it returns is `LogStore.ArrayOfLines` of what it read.
- EventBus lookup and call: one step of the UI thread; publish order among subscribers is that of subscription.
- AdminAuth: the hash, the token generator, hex text, cookies and SetInitialPassword; a login's verdict and its token are free.
- VirtualList positions: 32-bit overflow of row positions, the empty-text label and the truncation note.
- WebSocket framing below the assembler: control frames, masking and the socket.
- RetryBackoff, LazyLoad, trackers, notification sounds and other small helpers: they would add only easy members.
