# sgdevagent: a verified model

A Dafny model of the parts of the device agent (`sgdevagent_V01`) whose behaviour is
decided by its own code, with proofs of what they do over whole runs.

| file | models |
|---|---|
| `SgdevList.dfy` | the intrusive singly linked list: every operation of `sgdev_list.c` on real nodes, against the list's *spine* (the sequence of its nodes), with freed nodes marked so that no operation follows one |
| `ListRuns.dfy` | any sequence of list operations as plain sequence operations on the spine and on the data, and the runs of `list_iter` and `list_cycle` |
| `ListSharing.dfy` | what every operation on either of two lists that share nodes after `list_extend` does to both |
| `SeqSpec.dfy` | those plain sequence operations and their laws |
| `Detector.dfy` | the online/heartbeat failure detector as a state machine, one step per callback |
| `DetectorHistory.dfy` | what each flag of the detector and its pack queue say about the past of a run |
| `HeartbeatGlobals.dfy` | the globals and the functions that update them, proved to be those steps, singly and in any schedule |
| `HeartbeatSteps.dfy` | the heartbeat callback statement by statement, interleaved with any single write of any other thread |
| `HeartbeatRaces.dfy` | what another thread can still change while the callback runs, and what not |
| `Commands.dfy` | command strings, the chains of prefix tests, tags, the three executor switches, topics, and the queue and handler each command name stands for |
| `Pipeline.dfy` | the unpacker, three FIFO queues and three executors as a state machine: order, decoding, conservation, ownership of parameter buffers |
| `Agent.dfy` | the detector and the pipeline as one machine: unpacked responses set the detector's flags, the executors' gates read them |
| `Threads.dfy` | the unpack and executor functions over the detector's globals, proved to be those steps, singly and in any schedule |
| `Timers.dfy` | re-creation of periodic timers and the 32-bit period |
| `Expiry.dfy` | the expiry test of a running count |

Things the caller or the environment decides are parameters: whether a message could be
packed, whether a queue write succeeded, what the MQTT client library answers, clock
values, timer ids.

Two source files are not UTF-8 text, so the table below names their callers instead: the
MQTT flag, connecting and losing the connection (`HeartbeatGlobals`) follow
`upmqtt/mqtt_pub.c`, lines 78-84, 129-145 and 191-211, and the pushes follow
`commn/sgdev_queue.c`, lines 148-170 and 194-249, where a failed write frees the item or
the parameter.

## What the proofs found

- **`list_extend`** yields a list exactly when one list is empty or the two have no node
  in common; otherwise (extending twice by the same list, or a list by itself) it closes
  a cycle and no walk from its head ends. After an extend, a removal through either list
  leaves the other a list exactly when the removed node was not the shared part's first.
- **Offline verdicts** on a linked device follow exactly when four heartbeats went
  unanswered. With statements interleaved, that holds up to the moment the tick reads the
  reply flag: at the verdict a reply waits exactly when one landed since that read, and it
  does not stop the verdict (`WaitingReplyIsLate`; `VerdictCanRaceReply` is one such run).
- **A heartbeat can be pushed while the device is offline**, which whole callbacks never do:
  exactly when another thread takes the device offline after the tick's last test
  (`OfflinePushExactly`).
- **Silence is detected under every interleaving** of single statements, at the same
  limit test as with whole callbacks.
- **A fresh linkup grants no grace**: the count survives the loss of the link. Four more
  ticks survive a linkup exactly when no unanswered heartbeat was left over.
- **Heartbeats that never left count too**: the count grows even when the queue refuses
  the item, so "four heartbeats were queued" holds exactly when no write failed.
- **A lost connection** that the client library has not called back about leaves the
  device counted as online, whatever its ticks find, exactly until the loss callback, a
  connect or the clearing of the socket flag (`StaleUntilCut`).
- **The executors' gate is honest but not held**: no command is handled before the
  executor read a set link flag and, after that, an access flag set by an unpacked linkup
  response; the device may go offline between the gate and the handler, exactly when its
  link is lost, remade or cut or a tick gives it up (`GateIsNotHeld`,
  `HandlerCanRunOffline`).
- **Application install** travels under the container-log tag and still reaches the right
  handler, because the tag is read on another queue.
- **A message on no recognised topic** leaks its parameter string; no other message does.
- **Expiry** by truncating division is exact, except that a limit of zero also holds for
  a clock less than a millisecond behind.

Where the code and its comments differ, the model follows the code: in remote-manager mode
comments announce that the socket's link flag will be asked, but the insert, interaction
and executor threads ask the MQTT flag in both modes, and the socket flag only ever takes
the device offline; the tag declared for application install is never used.

## Model

| member | source | states |
|---|---|---|
| `SgdevList.ChainUnique` | sgdevagent_V01/commn/sgdev_list.c:10-17 | a NULL-terminated list has exactly one spine |
| `SgdevList.ChainIsDistinct` | sgdevagent_V01/commn/sgdev_list.c:10-17 | a NULL-terminated list is acyclic: no node occurs twice |
| `SgdevList.ChainsThatMeetEndTogether` | sgdevagent_V01/commn/sgdev_list.c:137-145 | two lists that share a node share everything from there on |
| `SgdevList.ChainSplits` | sgdevagent_V01/commn/sgdev_list.c:137-145 | a list splits at every node into a path and a list, and such parts make a list |
| `SgdevList.NoChainFromTrap` | sgdevagent_V01/commn/sgdev_list.c:28-34 | a walk that can leave a set of nodes only through a freed one never reaches NULL |
| `SgdevList.NoChainThroughCycle` | sgdevagent_V01/commn/sgdev_list.c:137-145 | splicing a list onto its own last node leaves no way to NULL |
| `SgdevList.List.Init` | sgdevagent_V01/commn/sgdev_list.c:5-8 | the empty list |
| `SgdevList.List.Len` | sgdevagent_V01/commn/sgdev_list.c:10-17 | the number of nodes of the spine |
| `SgdevList.List.GetIndexByNode` | sgdevagent_V01/commn/sgdev_list.c:28-34 | terminates on every node of the list and on NULL, with its position |
| `SgdevList.List.Append` | sgdevagent_V01/commn/sgdev_list.c:36-44 | the spine grows by one new last node; no other link or datum changes |
| `SgdevList.List.PopTail` | sgdevagent_V01/commn/sgdev_list.c:46-62 | fails exactly on the empty list; otherwise the last node alone is unlinked and freed |
| `SgdevList.List.Pop` | sgdevagent_V01/commn/sgdev_list.c:64-86 | succeeds exactly for 0 <= pos < len and then unlinks and frees exactly the node at pos |
| `SgdevList.List.Get` | sgdevagent_V01/commn/sgdev_list.c:109-121 | the datum at pos, or failure exactly when pos is out of range |
| `SgdevList.List.Set` | sgdevagent_V01/commn/sgdev_list.c:123-135 | changes the datum at pos and no other, or fails exactly when pos is out of range |
| `SgdevList.List.Index` | sgdevagent_V01/commn/sgdev_list.c:195-204 | the first position holding the datum, -1 exactly when there is none |
| `SgdevList.List.Extend` | sgdevagent_V01/commn/sgdev_list.c:137-145 | for any two lists: the concatenation, sharing the second list's nodes, exactly when one is empty or they are node-disjoint; otherwise no spine exists |
| `SgdevList.List.Swap` | sgdevagent_V01/commn/sgdev_list.c:147-186 | returns 1 exactly for two different positions in range; the spine is then the old one with those two nodes exchanged, whether or not one is the head or they are adjacent; otherwise nothing changes |
| `SgdevList.List.Relink` | sgdevagent_V01/commn/sgdev_list.c:169-184 | the three branches and the shared tail exchange the two nodes in every case |
| `SgdevList.List.Reverse` | sgdevagent_V01/commn/sgdev_list.c:188-193 | the same nodes in reversed order, data untouched |
| `SgdevList.List.FromArray` | sgdevagent_V01/commn/sgdev_list.c:218-229 | refused exactly on a non-empty list; else max(1, len) new nodes over the strided addresses |
| `ListRuns.PerformAll` | sgdevagent_V01/commn/sgdev_list.c:36-229 | whole-API refinement: any sequence of operations leaves a NULL-terminated list of distinct nodes; which node stands where, what each holds and every reply are those of the plain sequence operations; of all nodes there ever were exactly those still in the list are allocated |
| `ListRuns.Perform` | sgdevagent_V01/commn/sgdev_list.c:36-229 | one operation of that run, on the nodes and on the data |
| `ListRuns.PopTailUndoesAppend` | sgdevagent_V01/commn/sgdev_list.c:36-62 | popping the tail undoes an append at any point of any run, node by node |
| `ListRuns.ReverseUndoesReverse` | sgdevagent_V01/commn/sgdev_list.c:188-193 | reversing twice changes nothing at any point of any run, node by node |
| `ListRuns.SwapUndoesSwap` | sgdevagent_V01/commn/sgdev_list.c:147-186 | swapping twice changes nothing at any point of any run, node by node |
| `ListRuns.PopTailIsPop` | sgdevagent_V01/commn/sgdev_list.c:46-86 | popping the tail is popping the last position: the same node goes, the same reply comes |
| `ListRuns.ReverseAfterExtend` | sgdevagent_V01/commn/sgdev_list.c:137-193 | reverse(A ++ B) = reverse(B) ++ reverse(A) at any point of any run, on nodes and data, where B is freshly built |
| `ListRuns.RepliesTell` | sgdevagent_V01/commn/sgdev_list.c:10-204 | the replies of length, get and index determine the contents, and agree with one another |
| `ListRuns.LaterReads` | sgdevagent_V01/commn/sgdev_list.c:36-193 | what a get at any position answers after each change of the list, from what it answered before |
| `ListRuns.CodesTell` | sgdevagent_V01/commn/sgdev_list.c:46-186 | each operation answers 1 exactly when it can do what it is asked, and changes nothing when it answers 0 |
| `ListRuns.Cursors.Iter` | sgdevagent_V01/commn/sgdev_list.c:88-107 | the next datum and its position, or failure and reset exactly at the end |
| `ListRuns.Cursors.Cycle` | sgdevagent_V01/commn/sgdev_list.c:207-216 | the datum and position under the cursor, which then moves on cyclically |
| `ListRuns.Cursors.IterRun` | sgdevagent_V01/commn/sgdev_list.c:88-107 | any number of calls from the reset state: n data in order, one failure, and again from the start |
| `ListRuns.Cursors.CycleRun` | sgdevagent_V01/commn/sgdev_list.c:207-216 | call k delivers datum and position k mod n, for every k |
| `ListSharing.SetThroughSecond` | sgdevagent_V01/commn/sgdev_list.c:123-145 | after an extend, a write through the second list at i is a write to the first at len + i, and to nothing else |
| `ListSharing.SetThroughFirst` | sgdevagent_V01/commn/sgdev_list.c:123-135 | ... and a write through the first at k is one to the second at k - len, if it gets that far |
| `ListSharing.AppendThroughFirst` | sgdevagent_V01/commn/sgdev_list.c:36-44 | an append to the first list appends the same node to the second unless that was empty |
| `ListSharing.AppendThroughSecond` | sgdevagent_V01/commn/sgdev_list.c:36-44 | an append to the second list appends the same node to the first unless the second was empty |
| `ListSharing.PopThroughSecond` | sgdevagent_V01/commn/sgdev_list.c:64-86 | a removal through the second list leaves the first a list exactly when it is not the shared part's first node |
| `ListSharing.PopThroughFirst` | sgdevagent_V01/commn/sgdev_list.c:64-86 | ... and so does one through the first for the second, which loses the node only if it is shared |
| `ListSharing.PopTailThroughSecond` | sgdevagent_V01/commn/sgdev_list.c:46-62 | popping the second list's tail leaves the first a list exactly when the second had not just one node |
| `ListSharing.PopTailThroughFirst` | sgdevagent_V01/commn/sgdev_list.c:46-62 | ... and so does popping the first list's for the second |
| `ListSharing.SwapThroughSecond` | sgdevagent_V01/commn/sgdev_list.c:147-186 | exchanging two nodes through the second list: the first enters the exchanged list where the shared part's first node now stands |
| `ListSharing.SwapThroughFirst` | sgdevagent_V01/commn/sgdev_list.c:147-186 | ... and so does the second after an exchange through the first |
| `ListSharing.ReverseThroughSecond` | sgdevagent_V01/commn/sgdev_list.c:188-193 | reversing the second list cuts the first off behind the shared part's first node |
| `ListSharing.ReverseThroughFirst` | sgdevagent_V01/commn/sgdev_list.c:188-193 | reversing the first list makes the second run from the shared part's first node back through the first's own nodes |
| `SeqSpec.ReversedTwice` | sgdevagent_V01/commn/sgdev_list.c:188-193 | reversal is its own inverse |
| `SeqSpec.ReversedConcat` | sgdevagent_V01/commn/sgdev_list.c:188-193 | reversal of a concatenation |
| `SeqSpec.ExchangeTwice` | sgdevagent_V01/commn/sgdev_list.c:147-186 | exchanging two positions is symmetric, its own inverse and a permutation |
| `SeqSpec.ExchangeMeans` | sgdevagent_V01/commn/sgdev_list.c:147-186 | position by position, an exchange moves those two and no other |
| `SeqSpec.RemoveAtMeans` | sgdevagent_V01/commn/sgdev_list.c:64-86 | position by position, a removal closes the gap it leaves |
| `SeqSpec.FirstIndex` | sgdevagent_V01/commn/sgdev_list.c:195-204 | the first occurrence |
| `Detector.CountInRange` | sgdevagent_V01/maintask/timer_pack.c:53-81 | over every run the count stays within 0..4 |
| `Detector.CountIsBeats` | sgdevagent_V01/maintask/timer_pack.c:53-81 | over every run a positive count is the number of heartbeats pushed since it was last zero |
| `Detector.CountIsUnanswered` | sgdevagent_V01/maintask/timer_pack.c:53-81 | ... and none of those is answered unless a reply still waits in the flag |
| `Detector.OfflineIsJustified` | sgdevagent_V01/maintask/timer_pack.c:53-64 | whenever a tick takes the device offline, exactly four heartbeats were pushed since the count was last zero and no reply arrived after the first of them |
| `Detector.OfflineExactly` | sgdevagent_V01/maintask/timer_pack.c:45-64 | ... and on a linked online device a tick takes it offline exactly then |
| `Detector.AnsweredStaysOnline` | sgdevagent_V01/maintask/timer_pack.c:53-64 | a run with a reply between every tick and the fourth tick after it is never taken offline by a tick |
| `Detector.SilenceIsDetected` | sgdevagent_V01/maintask/timer_pack.c:39-84 | with no further reply, a linked online device is offline exactly from the first tick that finds four unanswered heartbeats, whatever fails to pack |
| `Detector.SilenceTakesFiveTicks` | sgdevagent_V01/maintask/timer_pack.c:39-84 | if all messages pack, offline exactly from tick number 5 - c, c being the heartbeats unanswered at the start |
| `Detector.LinkupGivesNoGrace` | sgdevagent_V01/maintask/timer_pack.c:53-64 | a run in which the first tick after a fresh linkup takes the device offline |
| `Detector.LinkupGrace` | sgdevagent_V01/maintask/timer_pack.c:53-64 | whatever happens quietly in between, four more ticks survive a linkup exactly when the count is zero or a reply is waiting |
| `Detector.GraceAfterVerdict` | sgdevagent_V01/maintask/timer_pack.c:57-68 | a tick that takes the device offline pushes nothing and clears the count, so that the next linkup survives four more ticks of every quiet run |
| `Detector.QueuedUnlessDropped` | sgdevagent_V01/maintask/timer_pack.c:80-81 | the heartbeats pushed in a stretch of a run were all queued exactly when none of their writes failed |
| `Detector.OfflineWithNothingQueued` | sgdevagent_V01/maintask/timer_pack.c:80-81 | a run that ends offline without one heartbeat having been queued |
| `Detector.OnlineNeedsLinkup` | sgdevagent_V01/maintask/thread_interact.c:220-234 | a device counted as online was linked up, and since then neither was its link lost, remade or cut nor did it go offline |
| `Detector.OfflineKeepsAsking` | sgdevagent_V01/maintask/thread_dev_insert.c:81-115 | linked but offline, the insert thread asks once per round and no heartbeat is pushed |
| `Detector.OnlineUntilCutOrVerdict` | sgdevagent_V01/maintask/timer_pack.c:45-64 | while no linkup response comes, an online device stays online exactly until its link is lost, remade or cut or a tick finds four unanswered heartbeats |
| `Detector.StaleUntilCut` | sgdevagent_V01/maintask/timer_pack.c:45-51 | once the client has lost its connection, and until a linkup response, an online device stays counted as online exactly until the loss callback, a connect or the clearing of the socket flag |
| `Detector.StaleOnlineHappens` | sgdevagent_V01/maintask/timer_pack.c:45-51 | a run in which a getter notices the loss and the device stays counted as online |
| `DetectorHistory.PushesAreExact` | sgdevagent_V01/maintask/timer_pack.c:45-81 | over every run the pack queue was handed a heartbeat by each tick on a linked online device that packs and does not give it up, a linkup request by each insert round on a linked offline device, with the outcome of its own write, and nothing else |
| `DetectorHistory.AsksOnlyOffline` | sgdevagent_V01/maintask/thread_dev_insert.c:81-115 | no linkup request is pushed while the device is online or without a link |
| `DetectorHistory.OnlineAsksNothing` | sgdevagent_V01/maintask/thread_dev_insert.c:93-113 | none is pushed from a linkup response on for as long as the device stays online |
| `DetectorHistory.LinkIsLastWord` | sgdevagent_V01/maintask/timer_pack.c:45-51 | the link flag is set exactly from a successful connect or subscription until the link is lost, a connect fails or a getter finds the client gone |
| `DetectorHistory.FailedConnectUnlinks` | sgdevagent_V01/maintask/timer_pack.c:45-51 | after a failed connect or a lost link the flag stays clear until the next successful connect or subscription |
| `DetectorHistory.WaitingIsUnread` | sgdevagent_V01/maintask/timer_pack.c:53-56 | a reply waits exactly when one came that no tick of a linked online device has read |
| `DetectorHistory.OnlineIsLastWord` | sgdevagent_V01/maintask/thread_interact.c:223-225 | from boot, the device is online exactly from a linkup response, whatever the link, until the next cut or verdict |
| `DetectorHistory.OthersAreLastWord` | sgdevagent_V01/maintask/thread_manage.c:229-235 | the socket flag is what was last set, and the client connected as it last said |
| `HeartbeatGlobals.Globals.HeartCallback` | sgdevagent_V01/maintask/timer_pack.c:39-84 | the callback is one detector step, and reports success exactly when it pushed |
| `HeartbeatGlobals.Globals.GetMqttConnectFlag` | sgdevagent_V01/maintask/timer_pack.c:45-51 | the flag, cleared on the way if the client is gone |
| `HeartbeatGlobals.Globals.SetRpcConnectFlag` | sgdevagent_V01/maintask/thread_manage.c:229-235 | clearing the flag takes the device offline |
| `HeartbeatGlobals.Globals.SetDevInsFlag` | sgdevagent_V01/maintask/thread_dev_insert.c:146-150 | sets the access flag |
| `HeartbeatGlobals.Globals.SetDevHeartFlag` | sgdevagent_V01/maintask/timer_pack.c:325-328 | sets the reply flag |
| `HeartbeatGlobals.Globals.PushPackItem` | sgdevagent_V01/maintask/timer_pack.c:80-81 | one more item handed to the pack queue, stored or not |
| `HeartbeatGlobals.Globals.InsertRound` | sgdevagent_V01/maintask/thread_dev_insert.c:81-115 | one round of the insert thread is one detector step |
| `HeartbeatGlobals.Globals.HandleAll` | sgdevagent_V01/maintask/timer_pack.c:39-84 | any schedule of these functions carries out the detector's run |
| `HeartbeatSteps.AlwaysSane` | sgdevagent_V01/maintask/timer_pack.c:53-81 | under every interleaving the count stays within 0..4 and is at most 3 from the last gate to the increment |
| `HeartbeatSteps.CountIsPushes` | sgdevagent_V01/maintask/timer_pack.c:53-81 | under every interleaving the count is the heartbeats pushed since nothing was counted, less one pushed but not yet counted |
| `HeartbeatSteps.ReplyIsReadOrLostInReset` | sgdevagent_V01/maintask/timer_pack.c:53-56 | the next read after a reply sees it exactly when some reply since did not land in the two statements that reset count and flag |
| `HeartbeatSteps.ResetTickForgives` | sgdevagent_V01/maintask/timer_pack.c:53-57 | a tick in which a reply can be lost reaches the limit test with the count at zero |
| `HeartbeatSteps.CountIsSilent` | sgdevagent_V01/maintask/timer_pack.c:53-81 | under every interleaving what is counted is unanswered unless a reply waits in the flag |
| `HeartbeatSteps.VerdictHasRead` | sgdevagent_V01/maintask/timer_pack.c:53-58 | a tick about to set the device offline read an empty reply flag, and count and pushes have not moved since |
| `HeartbeatSteps.VerdictIsJustified` | sgdevagent_V01/maintask/timer_pack.c:53-58 | under every interleaving, the device is set offline only after exactly four counted heartbeats with no reply from the first of them to this tick's read of the flag |
| `HeartbeatSteps.CallbackIsBeat` | sgdevagent_V01/maintask/timer_pack.c:39-84 | undisturbed, the statements of the callback amount to the detector's one step |
| `HeartbeatSteps.WholeCallbacksAreInterleavings` | sgdevagent_V01/maintask/timer_pack.c:39-84 | every run of whole callbacks is one of the interleavings |
| `HeartbeatSteps.WaitingReplyIsLate` | sgdevagent_V01/maintask/timer_pack.c:53-58 | from the read of an empty reply flag to the verdict, a reply waits exactly when one landed after that read |
| `HeartbeatSteps.VerdictCanRaceReply` | sgdevagent_V01/maintask/timer_pack.c:53-64 | an interleaving that sets the device offline while a reply waits in the flag |
| `HeartbeatSteps.AnsweredIsNeverSetOffline` | sgdevagent_V01/maintask/timer_pack.c:53-58 | under every interleaving, a device with a reply between every push of a heartbeat and the fourth read of the flag after it is never set offline |
| `HeartbeatSteps.SilenceIsDetectedAnyhow` | sgdevagent_V01/maintask/timer_pack.c:39-84 | under every interleaving without reply or link loss, the device is set offline exactly by the first limit test that finds four unanswered heartbeats, whatever fails to pack |
| `HeartbeatSteps.SilenceTakesFiveTests` | sgdevagent_V01/maintask/timer_pack.c:39-84 | ... and if all messages pack, exactly by limit test number 5 - c, c being the heartbeats unanswered at the start |
| `HeartbeatRaces.LinkWasTested` | sgdevagent_V01/maintask/timer_pack.c:45-51 | under every interleaving, whatever a tick does behind its link test it read a set link flag for, in that tick |
| `HeartbeatRaces.AccessWasTested` | sgdevagent_V01/maintask/timer_pack.c:66-68 | ... and it pushes only after its last test read a set access flag |
| `HeartbeatRaces.OfflinePushExactly` | sgdevagent_V01/maintask/timer_pack.c:66-81 | a heartbeat is pushed while the device is offline exactly when another thread's last write to the access flag since that test cleared it |
| `HeartbeatRaces.PushedOffline` | sgdevagent_V01/maintask/timer_pack.c:66-81 | from every machine at its last test there is such a run |
| `HeartbeatRaces.LinkBackInTime` | sgdevagent_V01/maintask/timer_pack.c:45-46 | a tick that found the link flag clear or stale goes on if it is set before the getter returns it |
| `HeartbeatRaces.LinkLostTooLate` | sgdevagent_V01/maintask/timer_pack.c:45-53 | a link lost behind the test no longer stops the tick |
| `HeartbeatRaces.ReplyLostInReset` | sgdevagent_V01/maintask/timer_pack.c:53-56 | a reply between the two statements of the reset is lost |
| `HeartbeatRaces.LinkupInVerdict` | sgdevagent_V01/maintask/timer_pack.c:57-68 | a device linked up between the verdict and the last test is sent a heartbeat by that tick |
| `Commands.AtMostOneMatches` | sgdevagent_V01/maintask/thread_interact.c:179-209 | in each chain of prefix tests at most one name is a prefix of any given string |
| `Commands.OrderIsIrrelevant` | sgdevagent_V01/maintask/thread_interact.c:236-336 | every permutation of a chain finds the same row for every string |
| `Commands.RowDecides` | sgdevagent_V01/maintask/thread_interact.c:179-332 | whatever row matches decides, wherever it stands |
| `Commands.DeviceCommandsRun` | sgdevagent_V01/maintask/thread_interact.c:194-209 | each device command, for every string that begins with its name, is queued for the device executor, whose switch runs the handler named here for it |
| `Commands.ContainerCommandsRun` | sgdevagent_V01/maintask/thread_interact.c:238-263 | the same for the container commands; the two queries go to the device executor |
| `Commands.AppCommandsRun` | sgdevagent_V01/maintask/thread_interact.c:305-334 | the same for the application commands, install among them; the two queries go to the device executor |
| `Commands.NoDeadCase` | sgdevagent_V01/maintask/thread_task_exe.c:412-517 | every case of the three switches serves some command |
| `Commands.TaskAsNamed` | sgdevagent_V01/maintask/thread_interact.c:194-332 | the task state is set by the five install and upgrade commands and no other string, each to its own state |
| `Commands.DecodeAgrees` | sgdevagent_V01/maintask/thread_task_exe.c:412-517 | for every string queued, the queue and the handler its switch runs are those its name stands for, and none for a string that begins with no command name |
| `Commands.CommandsAreTheRest` | sgdevagent_V01/maintask/thread_interact.c:168-372 | on a command topic a status query is answered and everything else is queued; only an unrecognised topic forgets its parameter |
| `Commands.RepliesAreSignals` | sgdevagent_V01/maintask/thread_interact.c:220-234 | only a linkup or heartbeat response reaches the detector, and as what its name says |
| `Commands.TopicsAreApart` | sgdevagent_V01/maintask/thread_interact.c:424-432 | for every version and device id the four topic tests exclude one another |
| `Commands.TopicsAreNamed` | sgdevagent_V01/maintask/thread_interact.c:424-432 | ... and they recognise these four endings |
| `Commands.FirstMatch` | sgdevagent_V01/maintask/thread_interact.c:194-209 | the row found matches, and none is found only if none does |
| `Pipeline.AlwaysInOrder` | sgdevagent_V01/maintask/thread_task_exe.c:606-619 | under every interleaving, what ran, what is in hand and what waits in a queue are the accepted commands for it in order of arrival |
| `Pipeline.AlwaysDecided` | sgdevagent_V01/maintask/thread_interact.c:424-438 | what is recorded as decided for a message is the route of its topic and type string |
| `Pipeline.HandledAsMeant` | sgdevagent_V01/maintask/thread_task_exe.c:606-619 | the k-th handler an executor runs is for the k-th message accepted for its queue, a command whose queue write succeeded; handler and queue are those its name stands for, id and parameter those it came with |
| `Pipeline.QueuesHoldCommands` | sgdevagent_V01/maintask/thread_interact.c:168-372 | at every step of every run, what the three queues ran, hold in hand and hold waiting is together, as a multiset, the commands unpacked on a command topic that were not status queries and whose write succeeded |
| `Pipeline.CommandsAreConserved` | sgdevagent_V01/maintask/thread_interact.c:168-506 | at every step of every run, each command received was taken by a queue, was refused by a full one, or is being unpacked |
| `Pipeline.LogIsStream` | sgdevagent_V01/maintask/thread_interact.c:476-506 | the messages unpacked are those received, in order, but for the one in hand |
| `Pipeline.LogIsExact` | sgdevagent_V01/maintask/thread_interact.c:413-438 | over every run, each message unpacked is logged once and in order, with the outcome of its own queue write, its route, its id, and a buffer exactly when it has a parameter, numbered by the parameters before it; likewise the message in hand |
| `Pipeline.TakenExactly` | sgdevagent_V01/maintask/thread_interact.c:168-372 | the commands taken by the queues, and the commands refused, are exactly those whose queue write succeeded, and failed, in order of arrival |
| `Pipeline.NoneRefused` | sgdevagent_V01/maintask/thread_interact.c:211 | while no queue write fails no command is refused |
| `Pipeline.OneTaskPerPass` | sgdevagent_V01/maintask/thread_task_exe.c:581-620 | an executor takes one command in hand for each pass of its two tests |
| `Pipeline.PassForTask` | sgdevagent_V01/maintask/thread_task_exe.c:581-620 | the command it takes in hand after k others had its own pass, when those k were done with |
| `Pipeline.LinkWasSeen` | sgdevagent_V01/maintask/thread_task_exe.c:588-597 | an executor about to read the access flag read a set link flag and has not read the access flag since: a failed test sends it back |
| `Pipeline.OthersKeepOff` | sgdevagent_V01/maintask/thread_task_exe.c:571-710 | executors leave one another and their queues alone; the unpacker only lengthens a queue |
| `Pipeline.AlwaysFollowsLog` | sgdevagent_V01/maintask/thread_interact.c:194-332 | the detector hears the responses in order, and the task state is that of the last install or upgrade command, whether or not a queue took it |
| `Pipeline.OneDestination` | sgdevagent_V01/maintask/thread_interact.c:168-372 | an unpacked parameter goes to exactly one place |
| `Pipeline.ExactlyOnePlace` | sgdevagent_V01/maintask/thread_task_exe.c:606-619 | at all times every allocated parameter buffer is in exactly one place: being unpacked, in a queue, being handled, freed once, or forgotten |
| `Pipeline.DrainedFreesAll` | sgdevagent_V01/maintask/thread_task_exe.c:608-614 | once all is drained every buffer was freed exactly once, except exactly those of messages on no recognised topic |
| `Pipeline.LostAreForgotten` | sgdevagent_V01/maintask/thread_interact.c:424-438 | the buffers no one holds are those of messages on no recognised topic |
| `Agent.HalvesAreRuns` | sgdevagent_V01/maintask/thread_interact.c:220-234 | every run of the agent is a run of the detector beside a run of the pipeline, so all their properties carry over |
| `Agent.LinkTest` | sgdevagent_V01/maintask/thread_task_exe.c:582-592 | an executor's first test goes on exactly when the link flag is set and the client connected, and leaves no stale flag set |
| `Agent.AccessTest` | sgdevagent_V01/maintask/thread_task_exe.c:594-597 | its second goes on exactly when the device is online, and back to the first otherwise |
| `Agent.HalvesKeepOff` | sgdevagent_V01/maintask/thread_task_exe.c:571-620 | apart from responses and the first test, pipeline and detector leave one another alone |
| `Agent.LogIsReceived` | sgdevagent_V01/maintask/thread_interact.c:476-506 | over every run of the agent, log, message in hand and buffers are those of the messages it received and the outcomes of their queue writes |
| `Agent.RepliesAreUnpacked` | sgdevagent_V01/maintask/thread_interact.c:220-228 | the detector hears a reply exactly when a response of that name is unpacked |
| `Agent.SignalsAreHeard` | sgdevagent_V01/maintask/thread_interact.c:398-438 | over every run the detector hears what the unpacker signals, all of it and in order |
| `Agent.VerdictMeansNoResponse` | sgdevagent_V01/maintask/timer_pack.c:45-64 | a tick takes a linked online device offline exactly when four heartbeats were pushed since the count was last zero and no heartbeat response was unpacked after the first |
| `Agent.GateIsHonest` | sgdevagent_V01/maintask/thread_task_exe.c:581-597 | an executor passes its gate only after a read of a set link flag with the client connected, in the same round of its loop, and only on a device that an unpacked linkup response put online and nothing took offline since |
| `Agent.HandledOnceOnline` | sgdevagent_V01/maintask/thread_task_exe.c:581-620 | each command an executor handles had its own such pass after the commands before it; none is handled before a linkup response was unpacked |
| `Agent.HandledEndToEnd` | sgdevagent_V01/maintask/thread_task_exe.c:581-620 | each handler run is the one its message's name stands for, on the right queue, in order of arrival, with its id and parameter, after a pass of its own on a device that a linkup response had put online |
| `Agent.GateIsNotHeld` | sgdevagent_V01/maintask/thread_task_exe.c:588-609 | after a pass, and until a linkup response, the device is online exactly while its link is neither lost, remade nor cut and no tick gives it up |
| `Agent.HandlerCanRunOffline` | sgdevagent_V01/maintask/thread_task_exe.c:588-613 | wherever an executor can pass with a command waiting, there is a run that handles the command after the link was lost |
| `Threads.Workers.PushItem` | sgdevagent_V01/maintask/thread_interact.c:211 | the task joins its queue, or the write fails and the parameter is freed |
| `Threads.Workers.ClassifyDevice` | sgdevagent_V01/maintask/thread_interact.c:194-209 | the chain of tests finds the routed tag and task state |
| `Threads.Workers.ClassifyContainer` | sgdevagent_V01/maintask/thread_interact.c:245-261 | the chain of tests finds the routed tag and task state |
| `Threads.Workers.ClassifyApp` | sgdevagent_V01/maintask/thread_interact.c:312-332 | the chain of tests finds the routed tag and task state |
| `Threads.Workers.ChooseContainer` | sgdevagent_V01/maintask/thread_interact.c:238-263 | the two container queries go to the device queue, the rest to the container queue |
| `Threads.Workers.ChooseApp` | sgdevagent_V01/maintask/thread_interact.c:305-334 | the two application queries go to the device queue, the rest to the application queue |
| `Threads.Workers.AnswerStatusQuery` | sgdevagent_V01/maintask/thread_interact.c:277-293 | a status query frees its parameter, if it has one |
| `Threads.Workers.DevComDataUnpack` | sgdevagent_V01/maintask/thread_interact.c:168-218 | unpacking a device command has the effect of its route |
| `Threads.Workers.DevResDataUnpack` | sgdevagent_V01/maintask/thread_interact.c:220-234 | a linkup or heartbeat response sets the detector's flag of that name and the parameter is freed |
| `Threads.Workers.PackContainerParamItem` | sgdevagent_V01/maintask/thread_interact.c:236-265 | queueing a container command has the effect of its route |
| `Threads.Workers.ContainerComDataUnpack` | sgdevagent_V01/maintask/thread_interact.c:267-301 | unpacking a container command has the effect of its route |
| `Threads.Workers.PackAppParamItem` | sgdevagent_V01/maintask/thread_interact.c:303-336 | queueing an application command has the effect of its route |
| `Threads.Workers.AppComDataUnpack` | sgdevagent_V01/maintask/thread_interact.c:338-372 | unpacking an application command has the effect of its route |
| `Threads.Workers.Read` | sgdevagent_V01/maintask/thread_interact.c:413-424 | a message is taken up when none is in hand, its topic recognised, its parameter in a new buffer |
| `Threads.Workers.TopicDataUnpack` | sgdevagent_V01/maintask/thread_interact.c:424-438 | unpacking by topic has the effect of the route on the queues, the parameter and the detector's globals |
| `Threads.Workers.FinishMessage` | sgdevagent_V01/maintask/thread_interact.c:476-506 | unpacking the message in hand is one step of the agent |
| `Threads.Workers.CheckLink` | sgdevagent_V01/maintask/thread_task_exe.c:582-592 | the first gate reads the MQTT flag, clearing a stale one on the way, and is one step of the agent |
| `Threads.Workers.CheckAccess` | sgdevagent_V01/maintask/thread_task_exe.c:594-597 | the second gate reads the access flag and is one step of the agent |
| `Threads.Workers.ReadQueue` | sgdevagent_V01/maintask/thread_task_exe.c:606-609 | the blocking read is one pipeline step |
| `Threads.Workers.HandleTask` | sgdevagent_V01/maintask/thread_task_exe.c:610-613 | handling a task and freeing its parameter is one pipeline step |
| `Threads.Workers.RunSchedule` | sgdevagent_V01/maintask/thread_task_exe.c:571-620 | whatever the order in which the threads take their turns, these functions carry out a run of the agent |
| `Timers.PeriodIsExact` | sgdevagent_V01/maintask/timer_pack.c:197-200 | the period is 1000 times the timeout exactly up to 4294967 seconds, and congruent to it modulo 2^32 always |
| `Timers.AlwaysBounded` | sgdevagent_V01/maintask/timer_pack.c:197-216 | over every sequence of calls, the running timers that the id variable does not name are no more than the failed deletions that creates ignored |
| `Timers.LiveTimers` | sgdevagent_V01/maintask/timer_pack.c:197-216 | over every sequence of calls at most 1 + (ignored failed deletions) timers of a kind run |
| `Timers.CreateLeavesOne` | sgdevagent_V01/maintask/timer_pack.c:197-216 | with no deletion ignored, a successful create leaves exactly its own timer, with its period |
| `Timers.RunsUntilStopped` | sgdevagent_V01/maintask/timer_pack.c:197-291 | over every sequence of calls a timer runs exactly from the create that made it to the first successful deletion, by itself or by a create, while the id variable names it |
| `Timers.KeepsPeriod` | sgdevagent_V01/maintask/timer_pack.c:197-216 | all that time with the period it was made with |
| `Timers.FailuresAreCounted` | sgdevagent_V01/maintask/timer_pack.c:202-208 | the failures counted are the deletions that creates ignored |
| `Timers.IdIsLastMade` | sgdevagent_V01/maintask/timer_pack.c:202-216 | the id variable names the timer made last, unless a create that then failed deleted it |
| `Timers.Timer.Recreate` | sgdevagent_V01/maintask/timer_pack.c:197-216 | re-creation is the model's create, and succeeds exactly when the service makes a timer |
| `Timers.Timer.Remove` | sgdevagent_V01/maintask/timer_pack.c:284-291 | deletion leaves the id variable as it is |
| `Expiry.OverIsExact` | sgdevagent_V01/maintask/thread_dev_insert.c:164-178 | the truncating division decides as exact arithmetic does, for every clock value, apart from a limit of zero |
| `Expiry.StaysOver` | sgdevagent_V01/maintask/thread_dev_insert.c:152-178 | once over, a count stays over at every later clock value until stopped or started again |
| `Expiry.RunsFromStart` | sgdevagent_V01/maintask/thread_dev_insert.c:152-162 | over every run a count is valid exactly since a start not followed by a stop, and counts from the clock of the last start |
| `Expiry.OverSinceStart` | sgdevagent_V01/maintask/thread_dev_insert.c:152-178 | over every run a count is over exactly when its limit has passed since its last start; a stopped count never is |
| `Expiry.TimeCount.IsOver` | sgdevagent_V01/maintask/thread_dev_insert.c:164-178 | the test computes exactly that |
| `Expiry.TimeCount.StartCount` | sgdevagent_V01/maintask/thread_dev_insert.c:152-157 | starting a count |
| `Expiry.TimeCount.StopCount` | sgdevagent_V01/maintask/thread_dev_insert.c:159-162 | stopping a count |

## Left out

- Status-query replies: only that the query bypasses the queues and its parameter is freed, whether or not it parses.
- JSON and header parsing: the pipeline starts from topic, type string, message id and whether there is a parameter; the tag starts as the null tag, as the callers of the packing functions declare it.
- The bodies of the handlers, and the section branch of the device executor: the section getter clears the reboot reason before returning it, so the branch is never taken.
- The gate and the unpack queue in front of the interaction thread: a message may be read at any time, which includes every schedule the gate allows.
- `sg_get_json_content_heaser` (thread_interact.c:374-396) takes the parameter pointer by value, so as written its caller never sees a parameter; whether a message brings one is free here, which includes that.
- The consumer of the pack queue and the queue's depth: whether a push is stored is free, so a full queue is one case of a failed write.
- The device, container and application report timers: they appear only as polls of the MQTT flag.
- The three executor loops differ only in their queue and switch, so they are one set of methods with the queue as parameter.
- The end of the insert thread when its allocation or topic formatting fails: it simply takes no further rounds.
- Failure of `malloc` in `new_node`, and in the heartbeat callback: the source does not test for it.
- Use of a cursor after its node was removed, `list_iter` on another list in mid-run and `list_cycle` on an empty list: the source leaves them undefined, so they are preconditions.
- SgdevList.List.FromArray: says nothing of the return value on success, because the source falls off the end of the function.
- Expiry.OverIsExact: does not model overflow of the tick difference times 1000, which is undefined in C.
- `Agent.dfy` takes each callback of the detector whole; `HeartbeatSteps.dfy` alone interleaves its statements.
- Timers.LiveTimers: a timer whose deletion fails is taken to go on running.
- HeartbeatSteps.VerdictIsJustified: shared flags are read and written in one piece each, and in one order seen by all threads; weaker memory orders are not modelled.
- `sg_get_continue_send`, frame packing, sockets, the MQTT client, curl, MD5, files, logging, signals, thread creation, mutex wrappers and `simplessl.c`: I/O or thin wrappers.
