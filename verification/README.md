# Raltic: verified models of the concurrent core

Raltic is a chat workspace on Cloudflare Durable Objects, D1 and a local bridge. Its hard code is a
set of small protocols that run concurrently: handlers give up control at every `await`, D1 has no
transaction across queries, and objects are evicted and reloaded. This project models those protocols
in Dafny and proves what they keep over every interleaving.

Each component has a state, a set of events, a `Step` function and a `Run` that folds events. A step is
one stretch of the source between two awaits; an event that is not possible in a state changes nothing,
so "for every run" is "for every sequence of events". Where the source mutates an object or a table,
a class with those fields repeats the handlers imperatively. The methods of the chat room, the agent
manager, the bridge, the workspace presence object and the limiter are proved to take exactly the steps
(or parts of steps) the theorems are about. The gateway's counters, the DM, invite, task and run tables
and the cloud agent's locked sections stand for one handler running on its own, and their contracts say
directly what it achieves.

| files | component |
|---|---|
| `ChatRoomLog`, `ChatRoomSafety`, `ChatRoomRefinement`, `ChatRoomProgress`, `ChatRoomAlarm`, `ChatRoom` | the per-channel write-behind log: sequence numbers, idempotency, buffered flush to D1 |
| `AgentQueue`, `AgentRestart`, `AgentQueueGaps`, `AgentManager` | the bridge's queue for one agent: shared spawn, busy flag, sends that outlive their turn or entry, exit, stop, restart |
| `DmRace`, `DmRoute` | find-or-create of a direct-message channel with deletion of the losers |
| `Presence`, `PresenceObjects` | tab counts across the user gateways and the workspace object, and what tabs show |
| `Leader`, `BridgeDispatch`, `BridgeFleet`, `BridgeFleetTrace`, `BridgeFleetSafety`, `BridgeFleetGaps`, `BridgeObject` | the election of one bridge per workspace, the bridge's leader-gated dispatch, and all bridges of a user together with their sockets, refreshes and the gateway's rounds |
| `Visibility` | the set query for visible channels against the pointwise policy and its memo cache |
| `Schedules`, `Compaction` | scheduled jobs of a cloud agent and the alarm that wakes it; its history's token budget |
| `RateLimit`, `Invites`, `RunLedger`, `TaskNumbers` | the limiter and three D1 races |
| `MachineKeys` | base-62 machine keys |
| `LineReaders`, `Utf8Chunks` | the incremental line splitters and the chunk-wise decoding before them |

`dafny verify dfyconfig.toml` checks everything.

## What turned out false of the code

Where a promise fails, the code is kept as it is, a concrete run shows the failure, and the exact
condition under which the promise holds is proved.

- A batch made only of rows without a channel ends the alarm without setting a new one
  (`packages/chat-room/src/chat-room.ts:833`); a live row behind it waits for the next send. The alarm
  keeps its promise exactly when the batch has a row with a channel or holds all that is live.
- Of the agent manager's events three kinds can make turns overlap, break the order of sends or lose a
  message, and each does exactly outside a guard: a turn_complete that is not the current message's own
  (`packages/bridge-core/src/agent-manager.ts:479-509` does not look whose it is, and a runtime can report
  one turn's end twice, `packages/agent-runtime/src/codex.ts:295-321`), the end of a failed send whose
  message is no longer current or whose entry is gone, and a restart with a message running or queued.
- A restart is meant to carry the queue over (`packages/bridge-core/src/agent-manager.ts:556-579`). It does,
  but the running message is dropped, the fresh entry stays idle until another message is accepted
  (`packages/bridge-core/src/agent-manager.ts:579-581` does not drain it), that one, or the first that waited,
  overtakes the queue, and if the fresh entry cannot be spawned the whole queue is lost. Over every run,
  messages are lost in exactly these two cases and two of overlap.
- The comment at `apps/api/src/routes/channels.ts:1077-1080` says every caller agrees on the keeper.
  They do when channels are inserted in (created_at, id) order; otherwise one caller can answer with a
  channel that another deletes.
- A workspace can have two bridges that dispatch, and one message can be dispatched twice, without any
  failure of the gateway. There is one such bridge throughout a run exactly when no round elects a bridge
  beside one that it does not reach and that still believes it leads; a token refresh makes such a one, since
  it replaces the gateway socket and the old socket's close is then ignored
  (`packages/bridge-core/src/bridge.ts:286-287`, `packages/bridge-core/src/bridge.ts:407`). No message is
  dispatched twice, whatever is sent, exactly when moreover no round makes leader a bridge that still buffers
  a message another one has dispatched (`packages/bridge-core/src/bridge.ts:395-399`); a bridge that connects
  just before a message is sent is enough for that.
- A completed run can be left without its output message when one PATCH sets it, another clears it by an
  explicit null, and a third completes without naming it, and never with less than these three.
- Of two completions of one run that race, both can be accepted; the row keeps the first one's output.
- An invite can make one member more than its limit when the member insert commits but is reported failed,
  because the slot is then given back; it never does when inserts report truly.
- The answer after the task-number loop (`apps/api/src/routes/tasks.ts:147-149`) is never reached: the
  fifth conflict is thrown.
- A machine key can be issued that the connect request refuses as too short: exactly when the 24 bytes
  stand for a number below 62^31, which is more than one value in 172.
- The readers decode each chunk on its own, so a chunk boundary inside a multi-byte character changes the
  text, always; cut between characters, wherever, it does not.

The set query for visible channels and the pointwise policy agree for exactly the subjects that name their
server and no empty agent id. The memo cache gives the uncached answers to all checks, with any ids asked for,
on exactly the databases in which no stored pair of ids, joined by a colon, can be cut into a pair that is not
stored. The ids the system issues are of this kind, since they hold no colon, so these are conditions the
properties rest on, not failures.

## Model

| member | source | states |
|---|---|---|
| `ChatRoomSafety.NoAcknowledgedMessageIsLost` | packages/chat-room/src/chat-room.ts:806-877 | after every run of sends, seeds, two-phase alarms, late, failed or unreported inserts and reloads, the row broadcast under a sequence number is buffered or in D1, unchanged; the only exceptions are a row without a channel and an id already taken by another row |
| `ChatRoomSafety.RunKeeps` | packages/chat-room/src/chat-room.ts:92-113 | every run keeps the room's invariant: counters agree, buffered, flying and stored rows are the logged ones, nothing is missing, keys and rows match |
| `ChatRoomSafety.D1OnlyGrows` | packages/chat-room/src/chat-room.ts:836-838 | no step overwrites or removes a row of D1, so a retried flush is harmless |
| `ChatRoomSafety.LandingKeeps` | packages/chat-room/src/chat-room.ts:836-838 | a batch may land at any time after it was issued, also when its handler is gone, and all its rows are then stored or conflict with a stored one |
| `ChatRoomSafety.InsertAllIgnoresConflicts` | packages/chat-room/src/chat-room.ts:838 | the insert keeps every old row, adds only rows of the batch, and leaves out a row only for a taken number or id |
| `ChatRoomSafety.FinishOkKeeps` | packages/chat-room/src/chat-room.ts:839-840 | deleting the flushed rows from the buffer loses nothing, sends that arrived during the flush survive |
| `ChatRoomSafety.FinishErrorKeeps` | packages/chat-room/src/chat-room.ts:850-871 | a reported failure, true or not, keeps every row and its content |
| `ChatRoomSafety.RestartKeeps` | packages/chat-room/src/chat-room.ts:110-111 | a reload from storage keeps the invariant, with an insert in flight or not |
| `ChatRoomSafety.ReloadLosesOnlyTheHandler` | packages/chat-room/src/chat-room.ts:92-113 | a reload changes nothing but the handler under way, whose reports are not heard any more, and has the alarm run again |
| `ChatRoomSafety.TakenIdIsNotStored` | packages/chat-room/src/chat-room.ts:836-856 | a run in which a row whose id another room has stored is broadcast, flushed and dropped without being in D1 |
| `ChatRoomSafety.SelectBatchIsSound` | packages/chat-room/src/chat-room.ts:811-816 | a batch holds at most 50 rows, all of them live rows of the buffer |
| `ChatRoomSafety.SelectBatchAscends` | packages/chat-room/src/chat-room.ts:811-816 | a batch is in ascending order of sequence number |
| `ChatRoomSafety.SelectBatchTakesTheLowest` | packages/chat-room/src/chat-room.ts:811-816 | a live row is left out of a batch only when the batch is full of lower numbers |
| `ChatRoomSafety.AlarmBeginDropsPoison` | packages/chat-room/src/chat-room.ts:824-833 | before the insert exactly the batch's rows without a channel leave the buffer |
| `ChatRoomRefinement.RunRefines` | packages/chat-room/src/chat-room.ts:572-610 | the room refines a plain append-only log with deduplication: buffer, alarms, failures and reloads are invisible in the rows allocated |
| `ChatRoomRefinement.SendRefines` | packages/chat-room/src/chat-room.ts:580-608 | a send gives the row and the answer the plain log would give |
| `ChatRoomRefinement.IdemTableIsTheSearch` | packages/chat-room/src/chat-room.ts:580-584 | the idempotency table answers what a search of the whole log for (sender, key) would |
| `ChatRoomRefinement.RunReadsBackThePlainLog` | packages/chat-room/src/chat-room.ts:806-877 | with channels set and ids unique, buffer and D1 together hold the plain log row for row |
| `ChatRoomRefinement.SeqsAreDenseAndKeysAreUnique` | packages/chat-room/src/chat-room.ts:326-352 | allocated numbers are exactly 1..next_seq in memory and storage, through reloads, and no (sender, key) allocates twice |
| `ChatRoomRefinement.ReplayReturnsTheOriginalSeq` | packages/chat-room/src/chat-room.ts:580-584 | a retry returns the first attempt's number and changes nothing, whatever happened in between |
| `ChatRoomProgress.RunsStayArmed` | packages/chat-room/src/chat-room.ts:798-804 | with channels set, outside a running alarm a live row always has an alarm coming |
| `ChatRoomProgress.FiringKeepsArmedExactlyWhen` | packages/chat-room/src/chat-room.ts:822-833 | with rows without channel in the buffer, firing the alarm keeps that promise exactly when the batch has a row with a channel or holds all that is live |
| `ChatRoomProgress.PoisonBatchStrandsALiveRow` | packages/chat-room/src/chat-room.ts:833 | for every n of at least 50 seeded rows without channel, a good row behind them is left live with no alarm |
| `ChatRoomProgress.RoundSpendsBudget` | packages/chat-room/src/chat-room.ts:806-877 | every alarm that finds a live row lowers the sum of attempts left, however its insert ends |
| `ChatRoomProgress.DrainingTerminates` | packages/chat-room/src/chat-room.ts:806-877 | with no new sends, as many alarms as attempts are left empty the buffer: each row is stored or dead-lettered |
| `ChatRoomProgress.DeadRowsStay` | packages/chat-room/src/chat-room.ts:808-816 | a dead-lettered row never leaves the buffer and is never live again |
| `ChatRoomProgress.RowsChangeExactlyByFlushes` | packages/chat-room/src/chat-room.ts:806-877 | a buffered row leaves exactly when a flush that had it is reported to succeed or, without a channel, when an alarm takes it; its attempts grow by one exactly when a flush that had it fails; nothing else changes it |
| `ChatRoomProgress.D1IsAPrefix` | packages/chat-room/src/chat-room.ts:806-877 | while nothing is dead-lettered, D1 holds exactly the rows 1..k for some k, however inserts fail, land late or go unreported |
| `ChatRoomObject.ChatRoom.Reload` | packages/chat-room/src/chat-room.ts:92-113 | a new instance over the same storage takes the reload step |
| `ChatRoomAlarm.AlarmIsOnlyHastened` | packages/chat-room/src/chat-room.ts:798-804 | no event but the alarm itself moves a set alarm later or clears it; an event that wants a flush leaves it set, no later than wanted and no later than before, at one of the two times |
| `ChatRoomAlarm.BufferedRowsAreDueInTime` | packages/chat-room/src/chat-room.ts:798-804 | over every run, from the moment a row is buffered until an alarm fires, however many rows follow, the alarm is at most 250 ms after that moment |
| `ChatRoomAlarm.FailedRowsAreDueInTime` | packages/chat-room/src/chat-room.ts:870 | likewise, after a failed insert the alarm is at most the back-off time away until it fires |
| `ChatRoomObject.ChatRoom.ScheduleFlush` | packages/chat-room/src/chat-room.ts:798-804 | afterwards the alarm is set, at most 250 ms away, not later than before, and at one of these two times |
| `ChatRoomObject.ChatRoom.ScheduleAlarm` | packages/chat-room/src/chat-room.ts:951-955 | the same for any time asked for: an earlier alarm is never overwritten |
| `ChatRoomObject.ChatRoom.HandleSend` | packages/chat-room/src/chat-room.ts:580-610 | the send handler takes the send step and gives its answer |
| `ChatRoomObject.ChatRoom.HandleSeed` | packages/chat-room/src/chat-room.ts:428-446 | the seed loop takes the seed step and returns the rows with consecutive numbers |
| `ChatRoomObject.ChatRoom.SelectLive` | packages/chat-room/src/chat-room.ts:811-816 | the query's result is the batch |
| `ChatRoomObject.ChatRoom.SplitPoison` | packages/chat-room/src/chat-room.ts:824-828 | the filter separates rows with and without channel |
| `ChatRoomObject.ChatRoom.BeginAlarm` | packages/chat-room/src/chat-room.ts:806-833 | the alarm up to its insert takes the first alarm step |
| `ChatRoomObject.ChatRoom.FlushSucceeded` | packages/chat-room/src/chat-room.ts:839-876 | the rest after success takes the finishing step |
| `ChatRoomObject.ChatRoom.FlushFailed` | packages/chat-room/src/chat-room.ts:850-871 | the rest after failure takes the failing step |
| `AgentQueue.SendsAreSerialAndOrdered` | packages/bridge-core/src/agent-manager.ts:326-378 | in every run whose risky events were harmless, only the current message's turn can be running, every other message started has been settled, each session is handed messages in acceptance order, and a non-empty queue means busy |
| `AgentQueue.HandedOnlyWhileCurrent` | packages/bridge-core/src/agent-manager.ts:345-351 | in such a run a message is handed to the mapped session only while it is current, and only after everything handed to that session before has been settled |
| `AgentQueue.MessagesAreConserved` | packages/bridge-core/src/agent-manager.ts:285-378 | in such a run each accepted message is in exactly one of awaiting spawn, queued, current and settled; when idle all are settled |
| `AgentQueue.StepKeeps` | packages/bridge-core/src/agent-manager.ts:285-612 | every step that is harmless keeps shape, conservation, order and the state of all activations |
| `AgentQueue.RiskyEventsKeepExactlyWhenHarmless` | packages/bridge-core/src/agent-manager.ts:352-588 | every step keeps the invariant exactly when it is harmless; only a turn_complete, the end of a failed send and a restart have a guard, and each breaks it exactly outside that guard |
| `AgentQueue.WaitersAreServedInOrder` | packages/bridge-core/src/agent-manager.ts:295-332 | the callers of a shared spawn are started or queued in the order they arrived |
| `AgentRestart.MessagesLeaveExactlyWhenDropped` | packages/bridge-core/src/agent-manager.ts:285-612 | over every run, harmless or not, a message is in at most one of waiters, carried queue, queue, runtime and settled, and the next event takes it out of all of them exactly when it is running at a restart, carried when the spawn fails, or running when another one is started over it |
| `AgentRestart.HeldUnlessDropped` | packages/bridge-core/src/agent-manager.ts:285-612 | over every run an accepted message that none of these four has dropped is in exactly one place |
| `AgentRestart.QueueSurvivesRestart` | packages/bridge-core/src/agent-manager.ts:552-582 | over every run a restart takes out at most the running message; after the next successful spawn, whatever came in between, the queued messages are the head of the new entry's queue, in order, and later ones follow, but for the first, which is running; if the agent was stopped meanwhile they are settled |
| `AgentRestart.SpawnKeepsOrderExactlyWhen` | packages/bridge-core/src/agent-manager.ts:295-332 | the new entry starts messages in acceptance order exactly when nobody waited for it or nothing was carried |
| `AgentRestart.TurnsSettleTheQueue` | packages/bridge-core/src/agent-manager.ts:339-376 | turns that complete one after the other settle all that an entry holds, in order, and leave it idle |
| `AgentRestart.SpawnServesEveryWaiter` | packages/bridge-core/src/agent-manager.ts:295-376 | after a spawn, turns that complete settle all who waited for it, in the order they came |
| `AgentQueueGaps.RestartDropsTheRunningMessage` | packages/bridge-core/src/agent-manager.ts:565-582 | a run in which a restart leaves the running message in no place, with no activation left to settle it |
| `AgentQueueGaps.RestartLetsTheNextOneOvertake` | packages/bridge-core/src/agent-manager.ts:579-581 | a run in which the queue a restart carried over lies in an idle entry, and the next message accepted is started before it |
| `AgentQueueGaps.FailedRespawnLosesTheQueue` | packages/bridge-core/src/agent-manager.ts:571-586 | a run in which a queued message is in no place after the spawn that follows a restart has failed |
| `AgentQueueGaps.LateRejectionOverlapsSends` | packages/bridge-core/src/agent-manager.ts:352-363 | a run in which a send rejected after its turn completed lets two turns run at once |
| `AgentQueueGaps.ZombieOverlapsSends` | packages/bridge-core/src/agent-manager.ts:362-376 | a run in which a failed send whose entry was restarted away drains the next entry under its running message |
| `AgentQueueGaps.RepeatedTurnCompleteReordersSends` | packages/bridge-core/src/agent-manager.ts:479-509 | a run in which a turn's end reported twice settles the next message before it is handed over, and messages reach the session out of order |
| `AgentManagerObject.AgentManager.SendNow` | packages/bridge-core/src/agent-manager.ts:339-346 | the head of a send starts its message |
| `AgentManagerObject.AgentManager.DrainQueue` | packages/bridge-core/src/agent-manager.ts:366-375 | drains the entry the map holds now |
| `AgentManagerObject.AgentManager.SendToAgent` | packages/bridge-core/src/agent-manager.ts:285-333 | accepting a message takes the accept step, also when the runtime is unavailable |
| `AgentManagerObject.AgentManager.SpawnDone` | packages/bridge-core/src/agent-manager.ts:304-332 | the shared spawn's end takes the spawn step for all waiters |
| `AgentManagerObject.AgentManager.Reported` | packages/bridge-core/src/agent-manager.ts:345-351 | after its "running" report a message goes to the session of the entry it was started on, mapped or not |
| `AgentManagerObject.AgentManager.TurnComplete` | packages/bridge-core/src/agent-manager.ts:479-509 | a turn_complete settles whatever message is current, in any phase, and drains |
| `AgentManagerObject.AgentManager.SendFailed` | packages/bridge-core/src/agent-manager.ts:352-363 | the end of a failed send takes the failure step, whether its entry still has the message, has moved on, or is gone |
| `AgentManagerObject.AgentManager.Exited` | packages/bridge-core/src/agent-manager.ts:439-456 | an exit settles, in order, exactly what the entry holds, and forgets the entry if it is the mapped one; of an entry no longer mapped it does nothing else |
| `AgentManagerObject.AgentManager.StopAgent` | packages/bridge-core/src/agent-manager.ts:590-612 | a stop settles all the entry holds for good |
| `AgentManagerObject.AgentManager.RestartForAgent` | packages/bridge-core/src/agent-manager.ts:552-588 | the entry leaves the map and its whole queue, in order, is held back for the next one |
| `DmRace.TheKeeperIsNeverDeleted` | apps/api/src/routes/channels.ts:1093-1099 | for any callers and interleaving, the first channel in (created_at, id) order ever inserted is never deleted |
| `DmRace.OneChannelRemains` | apps/api/src/routes/channels.ts:1081-1156 | once all callers are done, exactly that channel remains, whatever duplicates there were before |
| `DmRace.AnswersAreRightExactlyWhenSeen` | apps/api/src/routes/channels.ts:1155-1156 | a caller answers with the surviving channel exactly when it was inserted before its deciding lookup |
| `DmRace.AllAnswersAgreeWhenRanked` | apps/api/src/routes/channels.ts:1145-1156 | if channels are inserted in rank order, all callers answer with the same channel |
| `DmRace.AnswersCanDisagree` | apps/api/src/routes/channels.ts:1145-1156 | a run of two callers in which one answers with a channel the other deletes |
| `DmRace.ListingStartsWithKeeper` | apps/api/src/routes/channels.ts:1081-1091 | the ordered lookup starts with the first in rank |
| `DmRoute.ChannelsTable.FindPair` | apps/api/src/routes/channels.ts:1081-1091 | the lookup lists all of the pair's channels in rank order |
| `DmRoute.ChannelsTable.PruneLosers` | apps/api/src/routes/channels.ts:1093-1099 | exactly the rows after the first are deleted |
| `DmRoute.ChannelsTable.OpenDm` | apps/api/src/routes/channels.ts:1101-1173 | a request on its own answers with the pair's first channel and leaves only it, and creates one exactly when there was none |
| `Presence.RefCountsAgree` | packages/chat-room/src/user-gateway.ts:314-417 | after every run the gateway's count, the workspace's connection count and the number of subscribed tabs are one number, and the user is registered for updates exactly when it is positive |
| `Presence.ViewsShowWhoIsThere` | packages/chat-room/src/workspace-presence.ts:98-169 | every subscribed tab's snapshot, folded with the updates since, shows a user online exactly when some tab of that user is subscribed |
| `Presence.SubscribedTabsShowWhoSubscribed` | packages/chat-room/src/user-gateway.ts:314-417 | told from the events alone: a tab that has subscribed shows a user online exactly when a tab of that user is open and has subscribed |
| `Presence.UpdatesAlternate` | packages/chat-room/src/workspace-presence.ts:98-113 | the updates about one user alternate, online first, also across pruning |
| `Presence.StepKeeps` | packages/chat-room/src/user-gateway.ts:314-495 | subscribing, its rolled-back failure, unsubscribing, closing, gateway restart and pruning each keep counts, views and log in agreement |
| `PresenceObjects.WorkspacePresence.NoteConnection` | packages/chat-room/src/workspace-presence.ts:98-113 | counts a connection and announces exactly a change between none and some |
| `PresenceObjects.WorkspacePresence.Subscribe` | packages/chat-room/src/workspace-presence.ts:115-122 | registers the user and returns who is online |
| `Presence.ReleaseKeeps` | packages/chat-room/src/user-gateway.ts:399-410 | giving a tab up, with the unsubscribe of the last one, keeps counts, views and log in agreement |
| `PresenceObjects.WorkspacePresence.Alarm` | packages/chat-room/src/workspace-presence.ts:161-169 | forgets exactly the users offline for more than a minute |
| `Presence.PrunedExactlyWhenGone` | packages/chat-room/src/workspace-presence.ts:161-169 | over every run the alarm leaves listed, unchanged, exactly the users with a subscribed tab and those seen within the last minute |
| `Presence.LastSeenIsTheLastTouch` | packages/chat-room/src/workspace-presence.ts:98-113 | a user's last-seen time is that of the last subscription or release of a tab of theirs |
| `PresenceObjects.UserGateway.Rehydrate` | packages/chat-room/src/user-gateway.ts:74-88 | a restarted gateway's counts are the numbers of sockets listing each workspace |
| `PresenceObjects.UserGateway.Subscribed` | packages/chat-room/src/user-gateway.ts:357-365 | a first subscribe keeps every workspace's count equal to its sockets |
| `PresenceObjects.UserGateway.Decrement` | packages/chat-room/src/user-gateway.ts:478-494 | one socket less, a missing count being one, and the last one is recognised exactly |
| `PresenceObjects.UserGateway.CloseSocket` | packages/chat-room/src/user-gateway.ts:446-460 | closing a socket keeps all counts right and unregisters exactly where it was the last |
| `Leader.OneLeaderPerWorkspace` | packages/chat-room/src/user-gateway.ts:187-212 | each workspace with a live unrevoked bridge has exactly one elected socket, and of maximal connection time |
| `Leader.BroadcastLeaderStatus` | packages/chat-room/src/user-gateway.ts:187-220 | for every socket list, every unrevoked bridge socket is told whether it is the elected one, and nobody else is told anything |
| `Leader.GroupAndElect` | packages/chat-room/src/user-gateway.ts:192-212 | the loop groups the bridge sockets by workspace and finds each workspace's leader |
| `Leader.TellGroup` | packages/chat-room/src/user-gateway.ts:213-219 | every socket of a group is told the outcome of the election |
| `Leader.BridgeRunKeeps` | packages/bridge-core/src/bridge.ts:301-323 | in every run a bridge that knows its role buffers nothing, the buffer is at most 100, and what it dispatched, then what it buffers, is a subsequence of what it received, each message once |
| `BridgeDispatch.BufferIsTheFirstHundred` | packages/bridge-core/src/bridge.ts:301-323 | over every run the flags are the last role heard since the gateway was lost, and while there is none the buffer is exactly the first hundred human messages heard since |
| `BridgeDispatch.DispatchesExactlyThose` | packages/bridge-core/src/bridge.ts:301-413 | over every run a bridge passes on, in order, exactly the human messages heard while it led and the first hundred heard while it knew no role, if the next thing it learnt of its role is that it leads |
| `BridgeFleetTrace.EachBridgePassesOnExactlyThose` | packages/bridge-core/src/bridge.ts:274-413 | the same for each bridge of a fleet, in every run of connects, refreshes, closes, interleaved rounds and messages |
| `BridgeFleetTrace.SocketEndsExactlyWhen` | packages/bridge-core/src/bridge.ts:274-413 | a socket's bridge end is gone exactly after a close or a refresh, the gateway's after it has noticed or a round has found the bridge revoked |
| `BridgeFleetTrace.CurrentSocketExactlyWhen` | packages/bridge-core/src/bridge.ts:347-413 | the socket whose close makes a bridge forget its role is the one it opened last, until it closes or is replaced |
| `BridgeFleetSafety.OneLeaderExactlyWhenNeverBeside` | packages/bridge-core/src/bridge.ts:274-413 | over every run of connects, token refreshes, heartbeats, revocations, closes noticed in either order, interleaved rounds and messages, each workspace has at most one dispatching bridge at all times exactly when no round elects a bridge beside one that it does not reach and that still believes it leads |
| `BridgeFleetSafety.RoundLeavesOneDispatcher` | packages/chat-room/src/user-gateway.ts:213-219 | a round that reaches all bridges that believe they lead leaves the elected ones as the only dispatching bridges, one at most in each workspace, whatever there was before |
| `BridgeFleetGaps.SettledRoundLeavesOneLeader` | packages/chat-room/src/user-gateway.ts:187-220 | from every reachable state in which the bridges that believe they lead are connected and not revoked, a round with nothing in between ends with one dispatching bridge at most in each workspace |
| `BridgeFleetGaps.ElectableExactlyWhileHeardFrom` | packages/chat-room/src/user-gateway.ts:201-202 | a socket heard from at a time is a candidate for a round exactly within the next 45 seconds, however long ago it connected |
| `BridgeFleetGaps.RevokedIsCutOff` | packages/chat-room/src/user-gateway.ts:195-199 | a round after a revocation does not look at the revoked bridge's socket and closes it |
| `BridgeFleet.RoundDeliversTheElection` | packages/chat-room/src/user-gateway.ts:192-219 | a bridge with one socket hears from a round what the election over the sockets, as the round found them, tells that socket |
| `BridgeFleetSafety.DispatchedOnceExactlyWhenNoOverlap` | packages/bridge-core/src/bridge.ts:301-413 | over every run the bridges of each workspace together have dispatched every message at most once exactly when no round made leader a bridge that buffered a message another one had dispatched, and no message was heard by two that both believed they led |
| `BridgeFleetSafety.OnceThroughoutExactlyWhenRoundsAreClean` | packages/bridge-core/src/bridge.ts:301-413 | at every point of a run, and with any message sent there to any bridges, none is dispatched twice exactly when no round elected beside an unreached leader or over an already dispatched buffer |
| `BridgeFleetGaps.HandoverRepeatsTheBuffered` | packages/bridge-core/src/bridge.ts:395-399 | a run in which the old and the new leader both dispatch a message |
| `BridgeFleetGaps.RefreshLeavesTwoLeaders` | packages/bridge-core/src/bridge.ts:286-287 | a run in which a refreshing leader and the bridge elected meanwhile both dispatch a message, though no elected bridge ever buffered a dispatched one |
| `BridgeObject.GatewayBridge.ChannelMessage` | packages/bridge-core/src/bridge.ts:305-323 | the handler of a channel message buffers, drops or dispatches as the step does whose runs `BridgeDispatch` describes |
| `BridgeObject.GatewayBridge.LeaderStatusFrame` | packages/bridge-core/src/bridge.ts:387-403 | the handler of a leader status takes the status step, its loop dispatching the buffer in order |
| `BridgeObject.GatewayBridge.RefreshGateway` | packages/bridge-core/src/bridge.ts:286-287 | a refresh replaces the gateway socket by another one and keeps role and buffer |
| `BridgeObject.GatewayBridge.GatewayClosed` | packages/bridge-core/src/bridge.ts:405-413 | the close of the current gateway socket forgets role and buffer, the close of a replaced one changes nothing |
| `Visibility.ReadExactlyByRows` | packages/auth-core/src/policy.ts:152-264 | told from stored rows alone, the read policy accepts exactly who has a member row, owns a member agent, or is a member of a public channel's workspace, machines only within theirs, and bridges exactly for channels of their workspace with a member agent of theirs |
| `Visibility.ManageExactlyByRows` | packages/auth-core/src/policy.ts:477-483 | likewise the manage policy: members, owners of member agents, and bridges; no machine, and nobody who may not read |
| `Visibility.SetQueryIsThePolicyExactlyWhen` | apps/api/src/lib/visible-channels.ts:8-84 | the set query with archived channels included returns exactly what `channels.canRead` accepts, on every consistent database, for exactly the subjects that name their server and no empty agent id |
| `Visibility.DefaultLeavesOutArchived` | apps/api/src/lib/visible-channels.ts:20-22 | with default options it returns exactly the readable channels that are not archived |
| `Visibility.ListVisibleChannelIds` | apps/api/src/lib/visible-channels.ts:23-84 | on a consistent database the successive queries and loops give exactly the channels whose rows entitle the subject to read them |
| `Visibility.SameKeyExactlyWhen` | packages/auth-core/src/policy.ts:64-233 | two membership checks share a cache key exactly if they are the same check, or of one kind with two ids that read the same once joined |
| `Visibility.CachedAnswersAreRightExactlyWhen` | packages/auth-core/src/policy.ts:52-58 | over every sequence of checks, with any ids, the cached answers are the uncached ones exactly when no stored pair of ids can be cut into a pair that is not stored |
| `Visibility.PlainIdsAreUnambiguous` | packages/auth-core/src/policy.ts:176-233 | stored ids without a colon are enough for that |
| `Visibility.ColonsConfuseTheCache` | packages/auth-core/src/policy.ts:176-189 | with a colon in an agent id the cache answers one check with another's answer |
| `Visibility.AuthCtx.Ask` | packages/auth-core/src/policy.ts:52-58 | a memoized check gives the query's answer and keeps the cache sound |
| `Visibility.AuthCtx.AskRead` | packages/auth-core/src/policy.ts:341-347 | the read policy asked through the cache accepts exactly whom the stored rows entitle |
| `Visibility.AuthCtx.AskManage` | packages/auth-core/src/policy.ts:477-483 | the manage policy asked through the cache accepts exactly whom the stored rows entitle |
| `Visibility.AuthCtx.ListManageableChannelIds` | apps/api/src/routes/tasks.ts:288-298 | filtering the visible channels gives exactly the unarchived channels whose rows entitle the subject to manage them |
| `Schedules.JobsAreConserved` | packages/agent/src/raltic-agent.ts:163-174 | every job created is, once, in exactly one of stored, held by the alarm handler, run and removed, whatever history, todo and terminal writes fall in between |
| `Schedules.NothingRunsEarly` | packages/agent/src/raltic-agent.ts:910-938 | no job is handed to an invocation before its fire time |
| `Schedules.AlarmIsTheEarliest` | packages/agent/src/raltic-agent.ts:889-900 | while no locked section is open and no fired alarm waits for the lock, the alarm is the earliest stored fire time, and unset exactly when no job is stored |
| `Schedules.PopTakesAllThatIsDue` | packages/agent/src/raltic-agent.ts:910-923 | the pop takes exactly the due jobs and leaves exactly the others |
| `Schedules.NeverOverTheCap` | packages/agent/src/tools/scheduling.ts:55-68 | however tool calls interleave, at most 20 jobs are stored |
| `Schedules.CancelTakesExactlyThatJob` | packages/agent/src/tools/scheduling.ts:73-86 | over every run a cancel removes exactly the job with that id and leaves the others in their order |
| `Schedules.SchedulingStoresExactlyBelowTheCap` | packages/agent/src/tools/scheduling.ts:55-68 | over every run a job is stored behind the others, with an id no job ever had, exactly when there are fewer than 20 |
| `Schedules.AWakeUpRunsExactlyWhatIsDue` | packages/agent/src/raltic-agent.ts:910-938 | over every run, a wake-up that nothing comes in between runs the jobs due at its time, once each and in order, leaves the others and sets the alarm to the earliest of them |
| `Schedules.TheLockExcludes` | packages/agent/src/raltic-agent.ts:163-174 | no schedule is written between a write and the alarm refresh that goes with it, and the alarm changes only by firing or under the lock |
| `Schedules.DocsAreTheLastWritten` | packages/agent/src/raltic-agent.ts:163-174 | no schedule change or wake-up loses what was last written to history, todo list or terminal |
| `Schedules.RalticAgent.Refresh` | packages/agent/src/raltic-agent.ts:889-900 | the reduce loop sets the alarm to the minimum, or deletes it |
| `Schedules.RalticAgent.UpdateLocked` | packages/agent/src/raltic-agent.ts:163-174 | a locked update appends the new job below the cap, or leaves exactly the jobs with another id, in their order, and the alarm fits the new list |
| `Schedules.RalticAgent.PopLocked` | packages/agent/src/raltic-agent.ts:910-923 | the locked pop splits the jobs by the handler's time and leaves a fitting alarm |
| `Compaction.Truncate` | packages/agent/src/raltic-agent.ts:864-873 | the fallback loop leaves the newest turns, as many as fit in seven tenths of the budget, but never fewer than four |
| `Compaction.TruncationFitsExactlyWhenFourDo` | packages/agent/src/raltic-agent.ts:868 | it gets within seven tenths of the budget exactly when the newest four turns already are |
| `Compaction.EstimateOfOne` | packages/agent/src/raltic-agent.ts:829-831 | a turn counts with its own token count, or else with the least number of tokens that has room for its text at four characters each; `Compaction.EstimateOfConcat` adds turns up |
| `Compaction.CompactIfNeeded` | packages/agent/src/raltic-agent.ts:828-875 | a history under budget is untouched, a summary replaces the older half only, and the newest turn survives every outcome |
| `RateLimit.RefusedExactlyWhenFull` | apps/api/src/lib/rate-limit.ts:26-55 | on every trace with a clock that never goes back a request is refused exactly when `max` accepted ones lie in its window |
| `RateLimit.NoWindowOverflows` | apps/api/src/lib/rate-limit.ts:26-55 | no half-open interval of `windowSeconds`, wherever it starts, holds more than `max` accepted requests |
| `RateLimit.ExpiryChangesNothing` | apps/api/src/lib/rate-limit.ts:45-48 | an entry dropped after twice the window never changes an answer |
| `RateLimit.Limiter.RateLimit` | apps/api/src/lib/rate-limit.ts:26-55 | the filtering loop and the push take the decision the theorems are about |
| `Invites.UsesAreAccountedFor` | apps/api/src/routes/invites.ts:209-244 | over every interleaving, with writes that fail or commit unreported, `uses` is admitted plus in-flight claims plus lost slots, and with a limit it never exceeds it; members made exceed it at most by the inserts that committed, were reported failed and were rolled back |
| `Invites.LimitHoldsWhenInsertsReport` | apps/api/src/routes/invites.ts:229-244 | when every insert's report is true, an invite never makes more members than its limit |
| `Invites.UnreportedInsertOvershoots` | apps/api/src/routes/invites.ts:235-244 | for every limit, a run in which one insert that commits and is reported failed lets an invite make one member too many |
| `Invites.TurnedDownExactlyWhenFull` | apps/api/src/routes/invites.ts:209-228 | a claim is turned down exactly when the invite is revoked, expired, or all slots are so held |
| `Invites.NoClaimOnceExpired` | apps/api/src/routes/invites.ts:209-223 | every claim that took effect was made before the expiry |
| `Invites.RevokeStopsAdmissions` | apps/api/src/routes/invites.ts:209-223 | after a revoke no claim takes effect, and only callers whose slot was already claimed can still become members |
| `Invites.ReadsTurnAwayExactlyWhen` | apps/api/src/routes/invites.ts:156-207 | a caller is turned away before the claim exactly when the invite is revoked, expired, for another address or full, or they are a member, and told the first of these |
| `Invites.MembersAndSlotsMoveExactlyWhen` | apps/api/src/routes/invites.ts:209-244 | members come only by an insert of a caller that holds a slot and go only by leaving, slots are taken only by claims on a live, unrevoked invite with room and given back only by rollbacks |
| `Invites.PinnedInviteAdmitsItsEmail` | apps/api/src/routes/invites.ts:168-187 | an invite pinned to an address makes only that address a member |
| `Invites.NobodyIsAdmittedTwice` | apps/api/src/routes/invites.ts:229-234 | while nobody leaves, no user is made a member twice |
| `Invites.ClaimAgrees` | apps/api/src/routes/invites.ts:214-223 | a claim, reported or not, keeps `uses` equal to the slots held and within the limit |
| `Invites.InviteTables.Accept` | apps/api/src/routes/invites.ts:156-248 | a request on its own makes its caller a member exactly under the listed conditions, and only an admission or a failed rollback keeps a slot |
| `RunLedger.FinalRowsNeverChange` | apps/api/src/routes/agent-runs.ts:153-157 | once a run has ended nothing in its row changes, whatever is still under way |
| `RunLedger.OneTerminalWrite` | apps/api/src/routes/agent-runs.ts:153-157 | at most one terminal write takes effect |
| `RunLedger.StartIsNeverCleared` | apps/api/src/routes/agent-runs.ts:144-147 | a start time once set is never cleared, and an ended run has both times |
| `RunLedger.StartIsKeptOnceRead` | apps/api/src/routes/agent-runs.ts:144-147 | once every PATCH under way has read the start time, it stays what it is for good |
| `RunLedger.OutputIsAlwaysOwn` | apps/api/src/routes/agent-runs.ts:123-130 | in every run the output is a message the ownership check has accepted, whatever the PATCHes name |
| `RunLedger.AnswersAreHonest` | apps/api/src/routes/agent-runs.ts:158-163 | an accepted terminal PATCH has its status in the row for good and is shown the final row, be the output its own or not; a refusal as finalized is true |
| `RunLedger.TheEndingPatchIsKept` | apps/api/src/routes/agent-runs.ts:138-157 | exactly one PATCH ends a run, and the output and error it named stay in the row |
| `RunLedger.SecondCompletionIsAcceptedToo` | apps/api/src/routes/agent-runs.ts:158-163 | a run in which a second completion is accepted although the row keeps the first one's output |
| `RunLedger.CompletedHasNoError` | apps/api/src/routes/agent-runs.ts:150-151 | a completed run has no error |
| `RunLedger.CompletedHasItsOutputExactlyWhenHarmless` | apps/api/src/routes/agent-runs.ts:132-149 | every completed run made of given PATCH bodies has an output message exactly when the bodies do not set it early, clear it and complete without naming it |
| `RunLedger.HarmfulBodiesLoseIt` | apps/api/src/routes/agent-runs.ts:132-149 | for any three such bodies, a run that ends completed without an output |
| `RunLedger.AgentRunsTable.Update` | apps/api/src/routes/agent-runs.ts:138-157 | the patch object and the guarded update change the row as the model's write does |
| `RunLedger.AgentRunsTable.Patch` | apps/api/src/routes/agent-runs.ts:104-164 | a PATCH on its own is accepted exactly under the listed conditions and otherwise changes nothing |
| `TaskNumbers.NumbersAreExactlyOneToN` | apps/api/src/routes/tasks.ts:121-149 | over every interleaving a channel's task numbers are exactly 1..n, in insertion order |
| `TaskNumbers.NumbersAreOwned` | apps/api/src/routes/tasks.ts:121-149 | no two callers get the same number |
| `TaskNumbers.GivingUpMeansFiveOthersWon` | apps/api/src/routes/tasks.ts:125-146 | a caller whose five attempts all met a taken number was overtaken by at least five inserted tasks, none its own |
| `TaskNumbers.AttemptEndsExactlyAs` | apps/api/src/routes/tasks.ts:125-146 | in every run an attempt takes the number after the last task exactly when nobody inserted between its read and its insert and no fault comes up; otherwise the next attempt begins, up to the fifth, except after an error that is no constraint's, which is thrown |
| `TaskNumbers.TasksTable.ReadMaxNumber` | apps/api/src/routes/tasks.ts:126-128 | the reduce finds the largest number |
| `TaskNumbers.TasksTable.Allocate` | apps/api/src/routes/tasks.ts:125-149 | the loop succeeds exactly when some attempt is left alone, throws otherwise, and never reaches the answer after it |
| `MachineKeys.DecodingGivesTheValue` | packages/auth-core/src/machine-keys.ts:102-114 | decoding the text gives back the big-endian value of the bytes |
| `MachineKeys.DistinctBytesGiveDistinctKeys` | packages/auth-core/src/machine-keys.ts:102-114 | inputs of one length give the same text only if they are equal |
| `MachineKeys.KeysAreAcceptedExactlyWhenLarge` | packages/protocol/src/rest.ts:17 | a key of 24 bytes has at most 33 characters after its prefix and matches the connect pattern exactly when its value is at least 62^31 |
| `MachineKeys.TwentyFourBytesFit` | packages/auth-core/src/machine-keys.ts:6 | 62^31 lies below 256^24 by a factor between 171 and 172, and 256^24 below 62^33 |
| `MachineKeys.Base62` | packages/auth-core/src/machine-keys.ts:103-114 | the two loops compute the specified text |
| `LineReaders.ChunksDoNotMatter` | packages/agent-runtime/src/openclaw.ts:369-375 | however a text is cut into chunks, also between CR and LF, the lines put out and the rest kept are those of one pass |
| `LineReaders.LinesMakeUpTheText` | packages/agent-runtime/src/openclaw.ts:288-301 | the lines with their newlines and the rest make up the text again |
| `LineReaders.LinesAreUnique` | packages/agent-runtime/src/openclaw.ts:288-301 | no other newline-free lines and rest make it up |
| `LineReaders.EndingsDoNotMatter` | packages/agent-runtime/src/openclaw.ts:288-301 | lines written with LF or CR LF endings, mixed as they like, come out as they were |
| `LineReaders.LinesLoseOneReturn` | packages/agent-runtime/src/openclaw.ts:288-301 | a line put out is the raw line less exactly one carriage return at its end |
| `LineReaders.NonBlankKeepsExactlyThose` | packages/agent-runtime/src/claude.ts:112-119 | exactly the lines with something but white space are handed on, less the white space at both ends (`LineReaders.TrimTakesExactlyTheSpaces`) |
| `LineReaders.BothReadersAgree` | packages/agent-runtime/src/claude.ts:112-119 | the split-and-pop reader puts out the same non-blank trimmed lines, however the text is cut |
| `LineReaders.ConsumeLines` | packages/agent-runtime/src/openclaw.ts:288-301 | the index loop yields the lines and the rest of its buffer |
| `LineReaders.OpenClawReader.OnData` | packages/agent-runtime/src/openclaw.ts:369-375 | after each chunk the events are the lines of all text so far |
| `LineReaders.OpenClawReader.OnClose` | packages/agent-runtime/src/openclaw.ts:384-392 | at the end a last line without newline is an event too, unless blank |
| `LineReaders.ClaudeReader.OnData` | packages/agent-runtime/src/claude.ts:112-119 | after each chunk the events are the non-blank trimmed lines of all text so far |
| `Utf8Chunks.TextSurvivesExactlyWhenCutBetween` | packages/agent-runtime/src/openclaw.ts:369-370 | decoding a UTF-8 stream chunk by chunk gives back its text exactly when no chunk begins inside a character |
| `Utf8Chunks.NothingIsInvented` | packages/agent-runtime/src/openclaw.ts:369-370 | whatever the bytes, a character put out is the replacement character or its encoding is what stood there |
| `Utf8Chunks.CutBetweenReadsTheLines` | packages/agent-runtime/src/openclaw.ts:369-375 | a stream cut between characters, wherever, is read as the lines of its text |

## Left out

Whole parts of the repository: HTTP routing, tokens and hashing, email, logging, prompts and LLM calls,
child processes, the file system and the web client. The stale-run sweeper and cloud-agent run updates
write unconditionally and are outside the run ledger. Archive gates, edits, pins, reactions, attachments,
error classification and redaction tables would only add easy members.

What the models above abstract:

- Handlers as steps: within one step no storage call of an object's own SQLite fails, and a crash does not fall between a row's commit and the arming of its alarm.
- Chat room: D1 limits on parameters, search indexing, broadcast order, membership gates and later edits of stored rows are not modelled; other rooms matter only through message ids; an alarm whose handler is interrupted is run again by the platform.
- Agent manager: one agent; run ids stand for messages, so a message whose run could not be created is not told apart; a message counts as settled also when only its caller is told, as the queue a restart carried is when the agent was stopped meanwhile; callers waiting for a shared spawn go on in one step, and a stop settles all at once; a runtime reports the end of a turn only for messages it was handed; a stopped agent is not set up again.
- Direct messages: display names and their unique index are an insert that may fail; channel ids are numbers, since only their order matters.
- Presence: a gateway handler with its calls is one step, updates are delivered, no call fails but the second of a first subscribe, the workspace object does not lose its memory, and a closing socket's clean-ups run one after another.
- Leader election: what a round sends is heard at once, and a message reaches all bridges that hear it at once.
- Visibility: the options `types`, `serverId` and `includePublic`, and a database that changes during a request.
- Schedules: a crash between the state write and the alarm refresh, the delay limits of the scheduling tool, and the platform's retry of a failed alarm.
- Compaction: the text of the summary is a parameter, and a text's length is counted in characters.
- Rate limiter: stale reads and failures of the key-value store, on which the limiter lets requests through, and clocks that go back.
- Invites: the answer for a missing invite; addresses are compared as given, already in lower case.
- Run ledger: the scope checks before the first read, deletion of a run, `metadata` and `taskId`; error texts are taken as already sanitised.
- Task numbers: deletion of tasks, and the posting and back-filling of the chat message.
- Utf8Chunks: a code point is a `char`; the readers' UTF-16 strings are not modelled.
