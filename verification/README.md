# Verified model of the frontier-htsim transport, traffic generator and queues

Two programs of the repository carry its hard promises, and this project models both.

**The EQDS transport** (`sim/eqds.cpp`). A sender keeps outstanding records and a retransmit queue; a sink tracks
receipt in a 4096-slot modular bitmap and answers with 64-bit selective acknowledgements; a receiver-side pacer hands
out pulls. The modules `EqdsSource`, `EqdsSink` and `PullPacer` give each handler as a function on states;
`EqdsSrcObject`, `EqdsSinkObject` and `PullPacerObject` are the objects that update their fields in place, each method
proved to do what its function says. `EqdsSystem` puts sender and sink on a network that may lose, reorder, duplicate
and trim packets, and proves what holds in every run. `EqdsSending` and `EqdsAnswers` prove on the messages themselves
what goes out, in which order and when, and what is answered; `EqdsRecovery` proves that whatever is lost, timeouts and
retransmissions finish the flow; `EqdsWindow` runs the same flow on the bitmap's raw slots, inside the window and out
of it, and `EqdsStranded` follows what a false acknowledgement does to the flow; `EqdsNack` looks at NACKs on a network
that delivers nothing twice.
Credit, the NIC and the timers are nondeterministic choices.

**The traffic-matrix generator** (`htsim_runner.py`). It compiles a collective into flows and triggers.
`TriggerProgram` gives such a program its meaning (a flow starts at time 0 or when its trigger fires; a running flow may
finish at any moment; a barrier fires after `count` activations) and proves that well-formed programs run to completion
in any order. `AllToAll`, `Servers`, `Transfers`, `Schedules`, `ChunkPipeline`, `Collectives`, `PipelinePhases`,
`Rings`, `RingMatrix`, `RequestShape` and `ZigzagOrder` prove that what the generator emits for all groups together is
well formed, covers exactly the right pairs in the right order, carries the right bytes in flows of the right size,
keeps its phases apart and keeps to its in-flight cap; `TrafficMatrix` is the generator itself, its loops appending to
two lists. `RingData` gives the flows of a ring the parts they carry and proves that every member ends with what the
collective promises; `RingBound` proves that no schedule on a ring needs fewer steps. `Layout` and `Destinations` cover rank placement, groups and the permuted train-to-gen destinations. `Matrix`
joins layout, groups and generator: from the sizes asked for to the bytes between any two nodes.

**Shared structures.** `CircularBuffers`, `EventLists` with `EventOrder`, `Pipes`, `CompositeQueues` with
`CompositeOrder`, `FairQueues`, `PrioQueues`, `NdpReassembly` and `PathChoice` do the same for the ring buffer, the event list, the pipe, the trimming queue, the
pull queues, the NDP receiver and the choice of the next path.

The window assumption of the bitmap is a precondition of delivery in `EqdsSystem` (`InWindow`): what is delivered lies
below the expected number plus 4096; and where the answer takes the delivered number as its reference, that number plus
63 lies there too, and everything received lies below it plus 4096.

## What was found

- The finish test of `checkFinished` passes exactly when everything has been handed out and the cumulative
  acknowledgement covers every number handed out, RTS numbers included (`EqdsSource.FinishTestIff`,
  `EqdsSystem.AckFinishesIff`). An RTS sent after the last data packet therefore holds the flow open until it is
  acknowledged too.
- The abort in `processNack` is reachable, even if no message is delivered twice: a NACK is in flight while the record
  times out (`EqdsNack.LateNackIsReachable`). Without duplication it takes a timeout of that very number
  (`EqdsNack.NackFindsRecord`).
- Outside the window the bitmap can mislead. A SACK can acknowledge a packet that never arrived: with only packets 1
  and 4090 there, the answer to 4090 claims 4097 (`EqdsSink.SackCanLie`). And for every flow of at least 4098 one-byte
  packets there is a run at whose end the sender is done although packet 1 was never delivered, because 4097 set its
  slot (the network repeats 4097; `EqdsWindow.WindowIsNeeded`). The bitmap tracks receipt exactly as long as arrivals
  stay below the expected number plus 4096, and no longer (`EqdsWindow.ReceiveExact`). A bit is right exactly when its
  slot is not aliased (`EqdsSink.HonestIff`); the base the sink computes itself is safe.
- One such false acknowledgement can strand a flow for good: the sender drops its record of 4097, and if what is under
  way is then lost, nothing sends 4097 again and the flow is never done, unless number 8193 is handed out and
  sets the same slot (`EqdsStranded.LieStrands`). Inside the window every loss is recovered from
  (`EqdsRecovery.RecoversFromLoss`).
- If what was handed out fits the window, no choice of the timer can hinder recovery (`EqdsRecovery.AnyTimer`). If it
  does not, a timer that always picks the same packet can hinder it for ever (`EqdsRecovery.TimerCanStarve`).
- The sink counts accepted bytes in 16 bits. What it leaves unanswered never exceeds its threshold of 16384 bytes, for
  flows of more than two packets, if and only if a full packet is smaller than 65536 bytes or leaves more than the
  threshold modulo that (`EqdsAnswers.ThresholdIff`).
- The steps the generator emits for a ring collective are exactly as many as it takes: they complete it
  (`RingData.CollectiveCompletes`), and no schedule with fewer does (`RingBound.StepsAreLeast`).
- The pull pacer can go quiet while a sink still wants credit: a pull target raised while a retransmission is pending
  puts the sink on no list (`PullPacer.DemandCanBeForgotten`). `PullPacer.ServedIff` says exactly when demand is met, and
  it is met after every run without such an arrival (`PullPacer.DemandIsMet`).
- A timeout leaves the lost packet's bytes in `_in_flight`. In every run that count is the sum of the outstanding records
  plus all bytes that timed out minus a header per RTS (`EqdsSystem.InFlightIs`); it is the sum of the records if and only
  if every timeout was that of an RTS and sent another (`EqdsSystem.InFlightExactIff`, `EqdsSystem.TimeoutLeavesBytes`).
- A flow of zero bytes never finishes: a flow can finish if and only if it is not empty (`EqdsRecovery.FinishableIff`).
- In pipeline mode the phases of an all-to-all are strictly separated if and only if one chunk per pair is in flight at a
  time (`PipelinePhases.SeparatedIff`). With two or more, the whole program can finish around a pair's last but one chunk
  (`PipelinePhases.ChunkCanLag`), because only the last chunk reports to the barrier.
- The two-level all-to-all emits nothing at all for a group whose servers have differently many members
  (`Collectives.NcclMoves`).
- The composite queue's data side can exceed its size limit by the difference between the largest and the smallest data
  packet, and by no more (`CompositeQueues.LowStaysWithin`, `CompositeQueues.BoundIsReached`). Its drop counter counts
  the packets refused on arrival and misses those dropped after being trimmed for another: one for every arrival that
  takes the place of a data packet while the header side is full (`CompositeQueues.DropsAreRefusals`,
  `CompositeQueues.DropGoesUncounted`). The assertion after trimming fails exactly
  when a data packet larger than the queue is spared by the draw and finds no data packet waiting
  (`CompositeQueues.FailsIff`).

## Checking

`dafny verify dfyconfig.toml` checks the whole project.

## Model

| member | source | states |
|---|---|---|
| EqdsSource.FinishTestIff | sim/eqds.cpp:458-480 | the finish test, although it subtracts RTS numbers, passes if and only if nothing is unsent and every number handed out is covered |
| EqdsSource.SendNewAsserts | sim/eqds.cpp:843-889 | the assertions of sendNewPacket cannot fail while something is unsent |
| EqdsSource.AckedInv | sim/eqds.cpp:482-519 | an ACK's cumulative and selective parts and the finish test keep the sender's invariant, and finishing leaves nothing outstanding |
| EqdsSource.ProcessNackInv | sim/eqds.cpp:521-576 | a NACK moves a record to the retransmit queue and keeps the invariant |
| EqdsSource.TimerExpiredInv | sim/eqds.cpp:1058-1127 | a timeout keeps the invariant in all its branches, with bytes in flight still covering the records |
| EqdsSource.HandleSackFrame | sim/eqds.cpp:491-500 | a selective acknowledgement only removes records, and takes exactly their bytes out of flight |
| EqdsSrcObject.EqdsSrc.StartFlow | sim/eqds.cpp:607-642 | the initial backlog is the flow plus one header per packet, and the invariant holds |
| EqdsSrcObject.EqdsSrc.HandleAckno | sim/eqds.cpp:393-412 | removes one record and its bytes, and nothing if there is no record |
| EqdsSrcObject.EqdsSrc.HandleCumulativeAck | sim/eqds.cpp:414-448 | the two loops leave exactly the entries at or above the acknowledgement, and take exactly the erased bytes out of flight |
| EqdsSrcObject.EqdsSrc.CheckFinished | sim/eqds.cpp:458-480 | sets done exactly when the finish test passes |
| EqdsSrcObject.EqdsSrc.ProcessAck | sim/eqds.cpp:482-519 | the bit loop acknowledges exactly the numbers marked in the bitmap; the whole new state and what is sent |
| EqdsSrcObject.EqdsSrc.ProcessNack | sim/eqds.cpp:521-576 | the whole new state and what is sent, for a record that exists |
| EqdsSrcObject.EqdsSrc.RtxTimerExpired | sim/eqds.cpp:1058-1127 | the whole new state and what is sent, for every outcome of credit, NIC and RTS limit |
| EqdsSrcObject.EqdsSrc.SendNewPacket | sim/eqds.cpp:843-889 | the packet, marked if it empties the backlog, its record and the new counters; its assertions hold |
| EqdsSrcObject.EqdsSrc.SendRtxPacket | sim/eqds.cpp:891-919 | the least queued number is sent and becomes outstanding again |
| EqdsSrcObject.EqdsSrc.SendRTS | sim/eqds.cpp:921-943 | an RTS takes a sequence number and a record |
| EqdsSrcObject.EqdsSrc.QueueForRtx | sim/eqds.cpp:953-957 | queues a number that is neither outstanding nor queued, then sends if permitted |
| EqdsSrcObject.EqdsSrc.SendIfPermitted | sim/eqds.cpp:694-754 | the packet sent and the new state, for any permission: the rule whose laws are EqdsSending.RetransmissionsFirst and EqdsSending.LeaveIsUsed |
| EqdsSink.HonestIff | sim/eqds.cpp:1495-1515 | a SACK bit tells whether its number was received out of order if and only if its slot is not aliased |
| EqdsSink.WindowMakesSackExact | sim/eqds.cpp:1495-1515 | under the window assumption all 64 bits are right |
| EqdsSink.BitmapBaseIsSafe | sim/eqds.cpp:1470-1472 | the base the sink computes always gives an exact SACK |
| EqdsSink.SackCanLie | sim/eqds.h:20-33 | a data packet outside the window is answered by a SACK that acknowledges a packet that never arrived |
| EqdsWindow.ReceiveExact | sim/eqds.cpp:1206-1280 | after an arrival the raw slots stand for exactly the numbers received if and only if it lies below the expected number plus 4096 |
| EqdsWindow.BitmapRefines | sim/eqds.cpp:1206-1408 | every run inside the window goes the same on the raw bitmap: same sender, same messages, same expected number and bytes |
| EqdsWindow.WindowIsNeeded | sim/eqds.h:20-33 | for every flow of at least 4098 one-byte packets: a run on the raw bitmap after which the sender is done although packet 1 was never delivered |
| EqdsStranded.LieStrands | sim/eqds.cpp:482-519 | for every flow of 4098 to 8193 one-byte packets: a run that releases a packet that never arrived, after which, if the network loses what is under way, no continuation finishes the flow without handing out number 8193 |
| EqdsStranded.RunStranded | sim/eqds.cpp:1206-1408 | every run from a stranded state stays stranded while number 8193 is not handed out |
| EqdsSink.AcceptInv | sim/eqds.cpp:1206-1293 | accepting a number keeps the expected number the least one not received, with all others inside the window |
| EqdsSinkObject.EqdsSink.BuildSackBitmap | sim/eqds.cpp:1495-1515 | the shifting loop over the modular bitmap builds the word of the set of received numbers |
| EqdsSinkObject.EqdsSink.AdvanceExpected | sim/eqds.cpp:1264-1269 | the loop over set slots stops at the least number not received, clears what it passes, and keeps bitmap and count exact |
| EqdsSinkObject.EqdsSink.MarkOutOfOrder | sim/eqds.cpp:1277-1280 | marks one slot and counts it; the bitmap still stands for the received set |
| EqdsSinkObject.EqdsSink.ProcessData | sim/eqds.cpp:1206-1293 | duplicates, in-order and out-of-order data: new state and the ACK sent, read from and written to the bitmap; the answer is the one whose law is EqdsAnswers.UnansweredIff |
| EqdsSinkObject.EqdsSink.ProcessTrimmed | sim/eqds.cpp:1295-1333 | a trimmed packet is answered by an ACK if its data is there and a NACK if not |
| EqdsSinkObject.EqdsSink.ProcessRts | sim/eqds.cpp:1335-1408 | an RTS is received like a packet without payload and always acknowledged |
| EqdsSystem.StepInv | sim/eqds.cpp:356-391 | every step of sender, sink and network keeps the global invariant |
| EqdsSystem.RunAccounting | sim/eqds.cpp:393-448 | in every run the records and the retransmit queue are disjoint, a number in neither has arrived, and bytes in flight cover the records |
| EqdsSystem.InFlightIs | sim/eqds.cpp:1058-1127 | in every run bytes in flight are the outstanding records plus all bytes timed out minus a header per RTS |
| EqdsSystem.InFlightExactIff | sim/eqds.cpp:1058-1127 | bytes in flight are the sum of the outstanding records if and only if every timeout was that of an RTS and sent an RTS |
| EqdsSystem.TimeoutLeavesBytes | sim/eqds.cpp:1058-1127 | a run after which nothing is outstanding and 65 bytes are in flight |
| EqdsSystem.DoneMeansDelivered | sim/eqds.cpp:458-480 | in every run, once the sender says done, the sink has every number and exactly the flow's bytes |
| EqdsSystem.AckFinishesIff | sim/eqds.cpp:482-519 | an ACK finishes the flow if and only if everything was handed out and the ACK covers all of it |
| EqdsSystem.DoneIsFinal | sim/eqds.cpp:458-462 | after done, no message still in the network changes the sender or what was received, a NACK apart: it finds no record and the code aborts (sim/eqds.cpp:531-546) |
| EqdsSending.RetransmissionsFirst | sim/eqds.cpp:694-762 | in every run, when data goes out everything still queued for retransmission has a larger number, so new data goes out only when nothing is queued; and only full packets not sent before go out without asking for an ACK |
| EqdsSending.NewDataWaits | sim/eqds.cpp:694-762 | in every run a step that sends new data leaves the retransmit queue empty |
| EqdsSending.LeastIsSent | sim/eqds.cpp:891-919 | a turn to send with packets queued sends the one with the least number and no other |
| EqdsSending.LeaveIsUsed | sim/eqds.cpp:694-754 | a step sends at most as many packets as it has leave for, and with leave it sends one unless nothing waits |
| EqdsSending.TimeoutAnswers | sim/eqds.cpp:1058-1127 | a timeout with nothing else queued, credit and leave sends that packet again at once; an RTS goes out exactly if the packet has to wait and the limit allows it |
| EqdsSending.AckReleases | sim/eqds.cpp:393-519 | an ACK releases exactly the records below its cumulative number and those it marks, and the queued packets below its cumulative number |
| EqdsSending.PacketsAreFull | sim/eqds.cpp:843-889 | in every run each new packet is full except the last of the flow, and the last asked for an ACK |
| EqdsAnswers.DataAnswers | sim/eqds.cpp:1206-1293 | data is answered by at most one ACK, which covers the packet and marks the 64 numbers from it on if asked for, else those up to it |
| EqdsAnswers.RtsIsAnswered | sim/eqds.cpp:1335-1408 | every RTS is answered by one ACK that covers it |
| EqdsAnswers.TrimmedIsAnswered | sim/eqds.cpp:1295-1333 | every trimmed packet is answered, by an ACK that covers it if its data is there and by a NACK of it if not |
| EqdsAnswers.UnansweredIff | sim/eqds.cpp:1206-1293 | in every run data goes unanswered if and only if it is new, unasked, unmarked, not the first payload, keeps the unanswered bytes within 16384, and does not close the last hole while a request is pending |
| EqdsAnswers.ThresholdIff | sim/eqds.cpp:1466-1468 | the unanswered data stays within the threshold in every run if and only if the 16-bit count cannot hide a full packet |
| EqdsRecovery.RunAnchored | sim/eqds.cpp:393-519 | every run keeps: no SACK marks a number that any ACK gave as expected, and above the largest one processed the sender has released only marked numbers |
| EqdsRecovery.NeverStranded | sim/eqds.cpp:393-480 | in every run, while the flow is not done and nothing is unsent, the sender still holds a number that the sink has not gone past |
| EqdsRecovery.RecoversFromLoss | sim/eqds.cpp:1058-1127 | from every reachable state of a non-empty flow, with any or all messages lost, timeouts and retransmissions finish it |
| EqdsRecovery.AnyTimer | sim/eqds.cpp:1058-1127 | if everything is sent and the numbers handed out fit the window, the flow can be finished in at most as many rounds as there are outstanding records, each round holding a single timeout, of a record chosen against the flow, and no other action of the sender's own |
| EqdsRecovery.TimerCanStarve | sim/eqds.cpp:1058-1127 | for every flow of more than 4096 one-byte packets: a run that sends everything, after whose loss such a choice hinders the flow for any number of rounds |
| EqdsRecovery.FinishableIff | sim/eqds.cpp:458-480 | a flow has a run that finishes it if and only if it is not empty |
| EqdsNack.LateNackIsReachable | sim/eqds.cpp:531-546 | the abort on a NACK without a record is reachable from the start of a flow, with every message delivered at most once |
| EqdsNack.NackFindsRecord | sim/eqds.cpp:521-576 | in every run that delivers no message twice, a NACK finds its record unless that number has timed out |
| EqdsSystem.AckedCustody | sim/eqds.cpp:414-448 | no number is released by an ACK before the sink has it |
| EqdsSystem.SackRemovesMarked | sim/eqds.cpp:491-500 | a record disappears under a SACK if and only if its own bit is set, and no other record changes |
| PullPacer.ArrivalInv | sim/eqds.cpp:1295-1358 | trimmed packets and RTS keep list membership equal to the sinks' flags |
| PullPacer.HandlePullTargetInv | sim/eqds.cpp:1191-1200 | so does the pull target of a data packet, the only thing a data arrival tells the pacer |
| PullPacer.TickInv | sim/eqds.cpp:1558-1621 | every event keeps: on the active list once iff in_pull, on the retransmit list once iff retx_backlog > 0, one event pending iff active, any non-empty list implies active |
| PullPacer.TickFalls | sim/eqds.cpp:1558-1621 | every event lowers the measure (retransmissions, demand, slow-credit allowance, pending event) |
| PullPacer.DrainIsQuiet | sim/eqds.cpp:1558-1621 | without arrivals the pacer goes quiet, with empty lists and no retransmission owed |
| PullPacer.ServedIff | sim/eqds.cpp:1191-1200 | when the pacer has gone quiet a sink's demand is met if and only if it was on the active list or the pulls owed covered it |
| PullPacer.After | sim/eqds.cpp:1191-1621 | in every run of data packets, trimmed packets, RTS and events, in any order, that invariant holds and no sink is lost |
| PullPacer.TargetIsLargest | sim/eqds.cpp:1191-1200 | after every run a sink's recorded target is the largest that arrived for it, or the initial one |
| PullPacer.DemandIsMet | sim/eqds.cpp:1191-1621 | after every run in which no arrival raises a sink's target while it is retransmitting and unlisted, every target that arrived for it is granted by the time the pacer goes quiet |
| PullPacer.RetransmissionsAreGranted | sim/eqds.cpp:1295-1464 | after every run, by the time the pacer goes quiet a sink has had at least the credit its trimmed packets and RTS asked to have sent again |
| PullPacer.SlowCreditIsGiven | sim/eqds.cpp:1590-1621 | by the time the pacer goes quiet every sink that was on the active list has its slow credit up to its limit |
| PullPacer.SlowCreditStops | sim/eqds.cpp:1590-1621 | an idle sink's turn keeps it on the list exactly while its demand is met and its slow credit below the limit |
| PullPacer.RtsLists | sim/eqds.cpp:1335-1358 | an RTS leaves its sink on the retransmit list and, unless it was retransmitting, on the active list |
| PullPacer.RetransmittersFirst | sim/eqds.cpp:1558-1621 | an event grants one sink one pull, and never passes over a retransmitting sink for another, nor an active one for an idle one |
| PullPacer.TurnComes | sim/eqds.cpp:1558-1621 | whatever arrives, the sink at place k of the retransmit list has had a pull after k + 1 events, and of the active list after k + 1 events that find nobody retransmitting |
| PullPacer.DemandCanBeForgotten | sim/eqds.cpp:1191-1200 | a reachable state in which demand is never served |
| PullPacerObject.EqdsPullPacer.RequestPull | sim/eqds.cpp:1648-1661 | puts the sink on the active list and wakes the pacer; its assertion holds |
| PullPacerObject.EqdsPullPacer.RequestRetransmit | sim/eqds.cpp:1663-1674 | puts the sink on the retransmit list and wakes the pacer; its assertion holds |
| PullPacerObject.EqdsPullPacer.HandlePullTarget | sim/eqds.cpp:1191-1200 | the target is raised and recorded, and pulls asked for only when neither retransmitting nor listed (law: PullPacer.TargetIsLargest) |
| PullPacerObject.EqdsPullPacer.ProcessTrimmed | sim/eqds.cpp:1295-1333 | the pull side of a trimmed packet |
| PullPacerObject.EqdsPullPacer.ProcessRts | sim/eqds.cpp:1335-1358 | the pull side of an RTS |
| PullPacerObject.EqdsPullPacer.Pull | sim/eqds.cpp:1444-1464 | one pull lowers the retransmission backlog by the credit, down to zero, and raises the latest pull |
| PullPacerObject.EqdsPullPacer.DoNextEvent | sim/eqds.cpp:1558-1621 | retransmissions before active sinks before idle ones; the whole new state |
| SackWord.BitOfWord | sim/eqds.cpp:1495-1515 | the bits of a word are the bits it was built from |
| SackWord.WordInjective | sim/eqds.cpp:1495-1515 | different bit lists of one length give different words |
| PathChoice.SeekEnds | sim/eqds.cpp:818-841 | the search for a path ends after at most as many steps as there are penalties; it passes over exactly the paths with a penalty |
| PathChoice.FullPass | sim/eqds.cpp:818-841 | a full pass offers every path once, each used or one penalty lower |
| PathChoice.EntropyNamesPath | sim/eqds.cpp:808-841 | masking the entropy value gives back the chosen path, its upper bits are the sender's random ones, and a penalty for it charges that path, by exactly the penalty up to the cap, and no other |
| PathChoice.PenaltyIs | sim/eqds.cpp:808-816 | for any value: the named path is raised by the penalty, in eight bits and up to the cap, and no other path changes |
| PathChoice.PenaltyIsPaid | sim/eqds.cpp:818-841 | after k full passes a path's penalty is k lower, or used up |
| PathChoice.EqdsPaths.NextEntropyValue | sim/eqds.cpp:818-841 | the loop terminates and yields the path and state of the search |
| PathChoice.EqdsPaths.PenalizePath | sim/eqds.cpp:808-816 | one path's penalty is raised, in eight bits, up to the maximum |
| TriggerProgram.ActivationsAreOk | sim/trigger.cpp:22-31 | the assertions of the triggers cannot fail in a well-formed program |
| TriggerProgram.FinishInv | sim/trigger.cpp:59-73 | finishing any running flow keeps: what a trigger still needs is the number of its unfinished feeders |
| TriggerProgram.FirstUnfinishedRuns | htsim_runner.py:431-454 | no deadlock: the first unfinished flow of the list is always running |
| TriggerProgram.RunsFinishEverything | htsim_runner.py:431-454 | a run can always be continued until every flow has finished, and ends after one step per flow, in any order of completions |
| TriggerProgram.AllBut | sim/trigger.cpp:59-73 | only what depends on a flow waits for it: for any set closed under starting others, a run finishes exactly the flows outside it |
| TriggerProgram.StartedMeansFed | sim/trigger.cpp:59-73 | a flow that has started proves that everything feeding its trigger has finished |
| TriggerProgram.Beside | htsim_runner.py:576-597 | independent pieces of a program make a well-formed program |
| TriggerProgram.InSequence | htsim_runner.py:780-807 | two pieces joined by a barrier of the right count make a well-formed program |
| AllToAll.PairwiseCoverage | htsim_runner.py:754-778 | for every batch width each ordered pair of distinct members that is not left out is emitted exactly once, and no other |
| AllToAll.PairwiseFanOut | htsim_runner.py:754-778 | in each phase a member sends to and hears from at most K members |
| AllToAll.DeltaOrderIsPermutation | htsim_runner.py:415-428 | for every number of servers the order is a permutation of 1..S-1 |
| ZigzagOrder.DeltaOrderIsByRank | htsim_runner.py:415-428 | the distances come in the order of how near they are to nothing or to half way round, then by side |
| ZigzagOrder.RoundHolds | htsim_runner.py:719-737 | round k * G + sub holds exactly the pairs whose servers are the k-th distance apart and whose lanes differ by sub |
| AllToAll.NcclCoverage | htsim_runner.py:715-737 | each ordered pair on different servers is scheduled exactly once, none within a server |
| AllToAll.NcclBalanced | htsim_runner.py:715-737 | (S-1)*G micro-rounds, in each of which every node sends once and hears once |
| Transfers.PairWeighs | htsim_runner.py:598-626 | whatever the chunk size, each occurrence of a pair carries all its bytes, in as many chunks as it takes |
| Transfers.ChunkedLength | htsim_runner.py:790-793 | the product the barrier is sized by is the number of chunks of the phase |
| Chunking.PiecesAddUp | htsim_runner.py:598-626 | the chunks add up to the whole, none is empty or too large, and all but the last are full |
| Schedules.CompileWellFormed | htsim_runner.py:431-454 | barrier-chained phases make a well-formed program |
| Schedules.PhasesAreSeparated | htsim_runner.py:431-454 | in every run no flow of a phase starts before all flows of all earlier phases of its chain have finished |
| Schedules.ChainIsSteps | htsim_runner.py:431-454 | allocating all barriers first and emitting steps afterwards gives the same program as chaining phases |
| Schedules.RingStepBalanced | htsim_runner.py:483-506 | in a ring step every member sends once, to its successor, and hears once, from its predecessor |
| Servers.GroupByServer | htsim_runner.py:405-412 | the loop files every member under its server; servers and members come in increasing order |
| Servers.EvenIsRacked | htsim_runner.py:715-720 | a group on equally large servers is what the two-level schedule needs: every row full, all nodes different, every row a server of its own |
| Rings.ChannelRingsAreRings | htsim_runner.py:457-477 | for any group, servers and number of channels, the ring of every channel goes through every member once and through no other node |
| Rings.ChannelRail | htsim_runner.py:457-477 | for equally large servers, the emitted ring of channel k enters every server at member k mod G, passes its members in order, and crosses to the next server from member k - 1 |
| Rings.PlainRing | htsim_runner.py:457-477 | for servers of different sizes every channel's ring goes server by server and member by member in increasing order |
| Rings.RingProgramWellFormed | htsim_runner.py:817-912 | ring collectives over any groups, with any number of channels, cannot deadlock |
| Rings.RingStepsAreSeparated | htsim_runner.py:431-454 | in every run, for every group and channel, no member starts a step before every member has finished every earlier one |
| Rings.MembersMove | htsim_runner.py:483-506 | for any groups, over all channels and steps: a member sends, and hears, one flow per step of every channel, a part or one token byte inside a server; other nodes nothing |
| Rings.MembersShareAlike | htsim_runner.py:817-912 | conservation: if no pair is left out every member of a group of n sends exactly, and hears exactly, 2(n-1) * channels * size bytes in an all-reduce, with the smallest size of which n * channels cover the tensor, and (n-1) * channels * size in an all-gather or reduce-scatter, with the smallest size of which `channels` cover it |
| RingData.CollectiveCompletes | htsim_runner.py:817-912 | in the emitted chain of every channel of every group, each member ends with the sum of all contributions to every part (all-reduce), with every block (all-gather), with the full sum for its part (reduce-scatter), each contribution once |
| RingBound.StepsAreLeast | htsim_runner.py:840-885 | whatever part each member passes on in each step, fewer steps than emitted do not complete the collective |
| RingMatrix.RingProgramCarries | htsim_runner.py:817-912 | between any two nodes exactly one part (or one token byte) per step for every channel in which the second follows the first; otherwise nothing |
| RingMatrix.ServerProgramCarries | htsim_runner.py:509-529 | between any two nodes the tensor once per step if the second is the first's counterpart on the next server of its group (on a single server: follows it in the ring), otherwise nothing |
| Rings.ServerRingsWellFormed | htsim_runner.py:509-529 | rings of servers over any groups cannot deadlock, even with differently many members per server |
| Rings.ServerStepsAreSeparated | htsim_runner.py:509-529 | in every run, for every group, no flow of a step starts before all flows of all earlier steps of that group have finished |
| ChunkPipeline.PairPiece | htsim_runner.py:628-714 | a pair's chunks release each other and contribute exactly one activation to the phase barrier |
| ChunkPipeline.PhasesPiece | htsim_runner.py:780-807 | pipelined phases with barriers of one activation per pair are a well-formed piece of a program |
| ChunkPipeline.InflightBounded | htsim_runner.py:628-714 | at most the allowed number of a pair's chunks run at once |
| Collectives.CompileWellFormed | htsim_runner.py:576-807 | any list of plans, pipelined or not, compiles to a well-formed program |
| Collectives.PairwiseTimes | htsim_runner.py:754-778 | for any two nodes at all, a group emits the pair once if they exchange data and never if not |
| Collectives.PairwiseMoves | htsim_runner.py:576-807 | over all groups: between any two nodes exactly max(ceil(T/n), 1) bytes if they exchange data in a group of n, otherwise nothing |
| RequestShape.PairwiseSplits | htsim_runner.py:589-626 | between two nodes that exchange P bytes: if the chunk size asked for is positive and at most P, no flow is larger and there are just enough; otherwise there is one flow |
| RequestShape.ChannelsAreWidth | htsim_runner.py:754-778 | with nothing left out, a group of n takes (n-1)/channels phases, rounded up, and phase p holds exactly the pairs at distance p * channels + 1 to (p+1) * channels |
| RequestShape.CapIsReached | htsim_runner.py:628-714 | at the start, between nodes of the first phase, exactly as many flows run as the cap allows, or all there are |
| Collectives.PairIsCapped | htsim_runner.py:628-714 | in every reachable state of any list of plans, at most `inflight` flows run between two nodes that one pipelined plan pairs once |
| Collectives.PairwiseIsCapped | htsim_runner.py:628-714 | over all groups, in every reachable state and between any two nodes, at most `inflight` flows are running |
| Collectives.UnpipelinedIsChains | htsim_runner.py:780-807 | without pipelining the program is the chains of the groups one after the other |
| Collectives.PhasesAreSeparated | htsim_runner.py:780-807 | for every group outside pipeline mode, whatever the other groups do, no flow of a phase starts before every flow of every earlier phase has finished |
| PipelinePhases.LastChunksAreDone | htsim_runner.py:780-807 | in pipeline mode, once a chunk of a phase has started, the last chunk of every pair of every earlier phase has finished, with every chunk a multiple of the cap before it |
| PipelinePhases.ChunkCanLag | htsim_runner.py:697-703 | with a cap of two or more there is a run that finishes every flow of the program except a pair's last but one chunk |
| PipelinePhases.SeparatedIff | htsim_runner.py:780-807 | in pipeline mode phases are strictly separated in every run if and only if the cap is one |
| Collectives.NcclRoundsAreSeparated | htsim_runner.py:738-753 | the same for the micro-rounds of every group of a two-level all-to-all |
| Collectives.NcclTimes | htsim_runner.py:715-737 | for any two nodes at all, a group schedules the pair once if they are members on different, equally large servers, and never if not |
| Collectives.AllToAllWellFormed | htsim_runner.py:576-807 | both all-to-alls, over any groups, are well formed: no run deadlocks |
| Collectives.NcclMoves | htsim_runner.py:715-753 | over all groups: between any two nodes exactly the bytes per peer if one group schedules them, otherwise nothing |
| TrafficMatrix.NcclDeltaOrder | htsim_runner.py:415-428 | the loop over candidates with its visited set computes the order |
| TrafficMatrix.BuildPairPhases | htsim_runner.py:754-778 | the loops over batches, members and offsets build the pairwise phases |
| TrafficMatrix.BuildMicroRounds | htsim_runner.py:719-737 | the loops build the micro-rounds; the intra-server filter never drops a pair |
| TrafficMatrix.ChunkPair | htsim_runner.py:598-626 | the countdown loop emits the chunks of a pair |
| TrafficMatrix.Generator.MakeStepBarriers | htsim_runner.py:431-454 | the barriers allocated and the start and done triggers of every step |
| TrafficMatrix.Generator.EmitRings | htsim_runner.py:841-856 | rings with their own barriers append one chain each |
| TrafficMatrix.Generator.EmitRingCollective | htsim_runner.py:817-912 | all groups and channels: the emitted lists are the ring program, which completes its collective (RingData.CollectiveCompletes), and well formed |
| TrafficMatrix.Generator.EmitRingSteps | htsim_runner.py:483-506 | the flows of all steps of a ring |
| TrafficMatrix.Generator.EmitServerRing | htsim_runner.py:509-529 | S-1 chained steps, striped member by member, with barriers sized by the flows of a step |
| TrafficMatrix.Generator.EmitServerRings | htsim_runner.py:868-912 | all groups: rings of servers, or of members on a single server; the emitted lists are the compiled chains and well formed |
| TrafficMatrix.Generator.EmitChain | htsim_runner.py:780-807 | phases with barriers allocated on the way form a chain |
| TrafficMatrix.Generator.EmitPipelined | htsim_runner.py:628-714 | start triggers, release triggers and sizes of a pair's chunks |
| TrafficMatrix.Generator.EmitPipelinePhases | htsim_runner.py:780-807 | pipelined phases with a barrier of one activation per pair |
| TrafficMatrix.Generator.EmitPairwise | htsim_runner.py:576-807 | one group: bytes per peer, chunk size, pipelined or not, as the plan whose laws are RequestShape.PairwiseSplits and RequestShape.ChannelsAreWidth |
| TrafficMatrix.Generator.EmitAllToAll | htsim_runner.py:576-807 | all groups: the emitted lists are the compiled program and well formed |
| TrafficMatrix.Generator.EmitNccl | htsim_runner.py:715-753 | a group's micro-rounds, chained; nothing for unequally large servers |
| TrafficMatrix.Generator.EmitNcclAll | htsim_runner.py:576-753 | all groups: the emitted lists are the compiled two-level program and well formed |
| Matrix.GroupsAreApart | htsim_runner.py:289-315 | the groups of a domain have no node in common and no node twice |
| Matrix.PairwiseMatrix | htsim_runner.py:531-807 | between any two nodes of the cluster: the bytes per peer if they differ, agree outside the domain and are not left out, otherwise nothing |
| Matrix.NcclMatrix | htsim_runner.py:531-753 | the same for the two-level all-to-all |
| Matrix.PlaceGroups | htsim_runner.py:531-575 | layout and groups, or an error exactly when the sizes do not fit |
| Matrix.GenerateAllToAll | htsim_runner.py:531-807 | an error exactly when the sizes do not fit; otherwise a program that terminates and moves exactly the matrix, in flows of the size asked for |
| Matrix.GenerateNccl | htsim_runner.py:531-753 | the same for the two-level all-to-all and its matrix |
| Matrix.GenerateRings | htsim_runner.py:817-912 | the same for ring collectives: the ring matrix, and nothing between nodes that disagree outside the domain |
| Matrix.GenerateServerRings | htsim_runner.py:868-912 | the same for rings of servers and their matrix |
| Layout.PlaceOf | htsim_runner.py:224-241 | the coordinate with mixed-radix number x, first dimension fastest, stands at place x |
| Layout.NumberAt | htsim_runner.py:224-241 | place x holds a coordinate of the space whose number is x |
| Layout.IterCoords | htsim_runner.py:224-241 | the recursion that updates one coordinate in place enumerates all coordinates in that order |
| Layout.NormalizeDimOrder | htsim_runner.py:244-253 | every dimension once, in the order first named, missing ones last |
| Layout.DedupKeepsOrder | htsim_runner.py:244-253 | dimensions come in the order in which they are first named |
| Layout.SpanOfFull | htsim_runner.py:270-271 | whatever the order there are tp*cp*dp*ep coordinates, so the internal check cannot fail |
| Layout.LayoutIsBijection | htsim_runner.py:256-286 | every node has exactly one coordinate and every coordinate one node |
| Layout.BuildLayout | htsim_runner.py:256-286 | the layout, or an error exactly when the sizes do not multiply up |
| Layout.GroupsPartition | htsim_runner.py:289-315 | every node stands in exactly one group, at exactly one place |
| Layout.SameGroupIff | htsim_runner.py:289-315 | two nodes share a group if and only if they agree on every dimension outside the domain |
| Layout.GroupsForDomain | htsim_runner.py:289-315 | the nested loops build those groups |
| Destinations.Fill | htsim_runner.py:1065-1080 | the fill loop terminates and lists every gen node once |
| Destinations.PermutedDestinations | htsim_runner.py:1024-1080 | no destination twice; the first ones on every server, local ids going round; one per server suffices for the sender groups, or all gen nodes are listed |
| Destinations.UniqueUntilExhausted | htsim_runner.py:1087-1095 | sender groups closer together than the list is long get different destinations |
| CircularBuffers.WindowGrow | sim/circular_buffer.h:37-52 | growth keeps the items between the indices, wrapped or not |
| CircularBuffers.CircularBuffer.Push | sim/circular_buffer.h:33-57 | appends, growing when needed |
| CircularBuffers.CircularBuffer.Pop | sim/circular_buffer.h:59-67 | takes the oldest item |
| CircularBuffers.CircularBuffer.PopFront | sim/circular_buffer.h:69-77 | takes the newest item back |
| CircularBuffers.CircularBuffer.Grow | sim/circular_buffer.h:37-52 | doubles the vector and moves the wrapped part without changing the contents |
| EventLists.NextInv | sim/eventlist.cpp:42-63 | time never goes backwards |
| EventOrder.EventsFireOnce | sim/eventlist.cpp:42-100 | in every run what was scheduled before the end is pending, or fired at its time, or was cancelled, each once, and events fire in order of time |
| EventOrder.InsertStands | sim/eventlist.cpp:67-72 | events of one time fire in the order in which they were scheduled |
| EventOrder.NextIs | sim/eventlist.cpp:42-63 | triggers go before events and take no time; the next event is the earliest |
| EventLists.CancelDue | sim/eventlist.cpp:91-100 | cancelling takes a source's earliest event and nothing of any other source |
| EventLists.InsertDue | sim/eventlist.cpp:67-72 | scheduling leaves other sources' events alone |
| EventLists.EventList.DoNextEvent | sim/eventlist.cpp:42-63 | triggers first, then the earliest event; its assertion holds |
| EventLists.EventList.SourceIsPending | sim/eventlist.cpp:67-72 | ordered insertion, unless past the end time |
| EventLists.EventList.CancelPendingSource | sim/eventlist.cpp:91-100 | the search loop removes the first event of the source |
| EventLists.EventList.ReschedulePendingSource | sim/eventlist.cpp:130-134 | the earliest event of the source gives way to one at the new time; the list stays ordered |
| Pipes.PipeIsADelayLine | sim/pipe.cpp:20-74 | in every run, with or without an end time, packets leave in order of arrival exactly the delay later, none is overdue, and one event is pending iff the first packet in flight is due before the end |
| Pipes.FiresOnTime | sim/pipe.cpp:53-74 | when the pipe's event fires, its first packet is due at that moment |
| Pipes.Pipe.ReceivePacket | sim/pipe.cpp:20-49 | schedules an event only when idle; appends the packet |
| Pipes.Pipe.DoNextEvent | sim/pipe.cpp:53-74 | releases the first packet and schedules the next |
| CompositeQueues.ReceiveInv | sim/compositequeue.cpp:135-267 | byte counters, limits and idleness are kept for every arrival and either outcome of the draw; its assertions hold |
| CompositeQueues.CompleteInv | sim/compositequeue.cpp:79-128 | and for every service |
| CompositeQueues.LowBounded | sim/compositequeue.cpp:141-217 | the data queue passes the limit only by its last packet, so stays within twice the limit if no packet is larger |
| CompositeQueues.LowStaysWithin | sim/compositequeue.cpp:141-217 | if data sizes lie between lo and hi, the data queue passes its limit by at most hi - lo in every run; with one size, never |
| CompositeQueues.BoundIsReached | sim/compositequeue.cpp:141-217 | a run that reaches that bound |
| CompositeQueues.FailsIff | sim/compositequeue.cpp:141-192 | the assertion fails exactly when a data packet larger than the queue is spared and no data packet is waiting |
| CompositeQueues.DropsAreRefusals | sim/compositequeue.cpp:137-217 | in every run the drop counter is the number of packets refused on arrival; it falls short of all packets dropped by the arrivals that displace a data packet whose header finds no room and cannot be returned |
| CompositeQueues.DropGoesUncounted | sim/compositequeue.cpp:193-217 | a run that drops a packet without counting it |
| CompositeQueues.PacketsAreConserved | sim/compositequeue.cpp:79-267 | in every run each packet that arrived waits, or was sent, bounced or dropped once |
| CompositeOrder.DataInOrder | sim/compositequeue.cpp:79-267 | in every run the data packets sent and waiting stand in the order of arrival |
| CompositeOrder.HeadersInOrder | sim/compositequeue.cpp:79-267 | in every run headers leave in the order in which they joined |
| CompositeOrder.TrimsAreCounted | sim/compositequeue.cpp:141-192 | in every run one packet is trimmed, and counted, for every data packet that arrived without fitting |
| CompositeOrder.DataArrival | sim/compositequeue.cpp:141-192 | a data packet that fits joins; one that does not costs itself, or the last one waiting, its payload |
| CompositeOrder.HeaderArrival | sim/compositequeue.cpp:193-267 | a header without room goes back to its sender if that is wanted, possible and the first time, otherwise it is dropped |
| CompositeQueues.ServiceRatio | sim/compositequeue.cpp:35-52 | among any ratio_high + ratio_low consecutive contended choices exactly ratio_low serve data |
| CompositeQueues.ChoiceIsServed | sim/compositequeue.cpp:79-115 | a choice stands until it is served, from the queue chosen |
| CompositeQueueObject.CompositeQueue.ReceivePacket | sim/compositequeue.cpp:135-267 | the new queue and the packet that leaves, on two ring buffers |
| CompositeQueueObject.CompositeQueue.CompleteService | sim/compositequeue.cpp:79-128 | the packet sent and the new queue |
| CompositeQueueObject.CompositeQueue.BeginService | sim/compositequeue.cpp:35-64 | which queue is served next |
| FairQueues.WaitingFlowIsServed | sim/fairpullqueue.cpp:92-127 | a waiting flow is served within as many dequeues as there are flows, plus one per queue created meanwhile, whatever else is enqueued or flushed |
| FairQueues.FlowIsFifo | sim/fairpullqueue.cpp:77-109 | within a flow packets leave in the order they were enqueued, none lost |
| FairQueues.FlushTakes | sim/fairpullqueue.cpp:113-127 | flushing a flow takes all its packets and none of any other flow |
| FairQueues.FairPullQueue.EnqueuePacket | sim/fairpullqueue.cpp:77-88 | appends to the flow's queue, created if absent; the count stays exact |
| FairQueues.FairPullQueue.DequeuePacket | sim/fairpullqueue.cpp:92-109 | the endless loop terminates at the first busy flow from the cursor |
| FairQueues.FairPullQueue.FlushFlow | sim/fairpullqueue.cpp:113-127 | removes the flow; the cursor stays valid |
| PrioQueues.LevelIsAFairQueue | sim/priopullqueue.cpp:43-117 | each priority level behaves as a fair queue of its own |
| PrioQueues.WaitingFlowIsServed | sim/priopullqueue.cpp:43-76 | a waiting flow is served within as many dequeues of its level as the level has flows, plus queues created there |
| PrioQueues.FlowIsFifo | sim/priopullqueue.cpp:13-76 | within a flow of a level, the packets dequeues return come in the order they were enqueued, none lost |
| PrioQueues.PrioPullQueue.DequeuePacket | sim/priopullqueue.cpp:43-86 | serves the lowest level with work; the abort is unreachable |
| PrioQueues.PrioPullQueue.EnqueuePacket | sim/priopullqueue.cpp:13-28 | the packet joins its flow's queue at its level; all counts stay exact |
| PrioQueues.PrioPullQueue.FlushFlow | sim/priopullqueue.cpp:89-117 | removes the flow from its level; cursor and counts stay valid |
| NdpReassembly.ReceiveRep | sim/ndp.cpp:1573-1608 | the cumulative acknowledgement is the longest received prefix and the list the rest, strictly increasing, after any arrival |
| NdpReassembly.OrderIsImmaterial | sim/ndp.cpp:1573-1608 | the state depends only on the set of segments that arrived |
| NdpReassembly.CompleteIff | sim/ndp.cpp:1615-1620 | the flow is seen as complete exactly when every segment up to the last has arrived |
| NdpReassembly.NdpSink.ReceivePacket | sim/ndp.cpp:1552-1620 | the state keeps standing for the set of arrived segments; the new state for in-order, old, duplicate, appended and hole-filling segments |

## Left out

- EqdsSrcObject.EqdsSrc.ProcessNack: requires the record to exist, because the code aborts otherwise; EqdsNack.LateNackIsReachable shows that this can happen.
- EqdsRecovery.RecoversFromLoss: says that such a continuation exists from every reachable state, with credit and an idle NIC when the timer fires; not that a network delivers often enough for it.
- EqdsSystem.DoneMeansDelivered: holds under the window assumption on delivered packets; the network is a growing set of messages, so it also covers duplication.
- EqdsSrcObject.EqdsSrc.SendIfPermitted: credit (speculative and committed), the NIC and the congestion window are one nondeterministic permission.
- EqdsSrcObject.EqdsSrc.RtxTimerExpired: any outstanding packet may time out; send times and the scheduling of the timer are not modelled, nor is the once-per-RTT limit on RTS beyond being a choice.
- EqdsSinkObject.EqdsSink.BuildSackBitmap: the statistics of the reorder buffer and the unused ideal base are not modelled; sequence numbers are unbounded.
- PullPacerObject.EqdsPullPacer.DoNextEvent: sinks are records in a sequence, addressed by number, so aliasing of sink objects is not captured; the time of the next event is not modelled.
- PathChoice.EqdsPaths.NextEntropyValue: the draws of rand() are an arbitrary sequence; path counts are powers of two, as the source demands, and the 16-bit width is not modelled because no value exceeds it.
- TriggerProgram.RunsFinishEverything: triggers are activated by completed flows only, each once; multi-shot triggers are not generated and not modelled.
- TrafficMatrix.Generator.EmitRingCollective: without barriers (single-ring models with triggers switched off) every flow starts at time 0 and nothing is claimed.
- TrafficMatrix.Generator.EmitPipelined: the fallback for a transfer that does not split is not modelled, because its only caller has already excluded it.
- Matrix.PlaceGroups: an explicit list of participating ranks, which replaces the groups by one, is covered by Collectives.PairwiseMoves and its counterparts but not by the four methods built on this one.
- EqdsStranded.LieStrands: for longer flows packet 8193 itself sets the slot of 4097 again, as in EqdsWindow.WindowIsNeeded.
- RingData.CollectiveCompletes: the flows carry sizes only; which part a member passes on in a step is the standard ring rule, not something the generator emits.
- AllToAll.NcclCoverage: pairs inside a server and servers with differently many members are not scheduled by the code.
- Full-mesh, hierarchical, streaming and point-to-point patterns, which emit flows without triggers.
- Destinations.PermutedDestinations: shuffles are arbitrary permutations; building the sender groups and emitting the flows is not modelled.
- Layout.BuildLayout: parsing of dimension names and of placement strings.
- EventLists.EventList.CancelPendingSource: cancelling by handle or by time, which the same list would serve.
- CompositeQueueObject.CompositeQueue.ReceivePacket: requires that the source's assertion does not fail (CompositeQueues.FailsIff says when it does); ECN marks, logging, per-type counters and drain times are not modelled.
- FairQueues.FairPullQueue.DequeuePacket: per-flow queues are sequences of packet numbers (the ring buffer is proved to be one); the preferred-flow and FIFO variants are left out.
- PrioQueues.PrioPullQueue.FlushFlow: the loop that frees the flow's packets one by one is one removal.
- NdpReassembly.NdpSink.ReceivePacket: segments of equal size, as the source's own comment assumes; pulls, path history and congestion control are not modelled.
- NDP and EQDS packet classes, loggers, routes, topologies, congestion control in floating point, process launching and log parsing.
