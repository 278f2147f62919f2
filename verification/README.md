# Verification of ptp_client's protocol engines

Four connected pieces of the repository are modelled here and proved about.

- **The layer-2 grandmaster** (`ptp/l2master`). `DelayMachine` is the path from Delay_Req to Delay_Resp as a
  transition system: the receive thread, the responding thread, the drain of `stop()`, concurrent runtime updates,
  frames that arrive and sends that succeed or fail, each step one access to what the threads share. `TxMachine` is
  the transmit loop in the same manner. A run is a sequence of states and steps; what holds of every run is in
  `DelayRuns`, `DelaySessions`, `TxRuns`, `TxFate`, `TxGrid`, `TxDoubles`, `TxSchedules` and
  `RuntimeUpdate`. `Master` is the object itself, whose methods
  are proved to do, uninterrupted, what the threads' steps do (`DelayAlone`, `TxAlone`). `Session`, `SessionRuns`
  and `TokenBucket` are the slave table, `Scheduler` the grid of absolute deadlines, `Config` the configuration.
- **The unicast request port** (`g82752_unicast.py` over the buffer of `client.py`). `Buffer` and `Client` are the
  buffer that a receiver thread fills while the manager waits on it, `Unicast` the negotiation, `Renewal` the
  argument that no contract lapses, over the log of checks that the session keeps. The clock is any function from readings to times that does not go back and
  passes every moment; what arrives between two readings is arbitrary.
- **The wire codecs**: `Octets`, `Timestamp`, `Header`, `Messages`, `Signaling`, `Transport`, `Checksum`.
- **The JSONC comment stripper**: `Jsonc`.

Times are real numbers. Fields that only keep a record of the run, such as the trace of what was sent, say so.

Five things came out that a reader of the source may want to know. A configuration that `validate()` accepts can
end the transmit thread, at its first Announce or, by a gap longer than the platform can wait for, after its first
Sync (`TxFate.DiesIffNotHarmless` says exactly which can). A frame cut off inside a VLAN tag ends the receive thread
(`DelayRuns.ReceiverDiesOfShortTaggedFrame`). An interval changed while the transmit thread starts can go unnoticed
until the next update (`TxSchedules.SchedulesFollowConfigIff` says exactly when). And of two overlapping runtime
updates one can be lost, although absent keys are said to keep their current value
(`RuntimeUpdate.AbsentKeysAreKeptIff` says exactly when they do). When the clock goes back a slot of the grid can be
served twice, not only after a lost Follow_Up but after any runtime update, since each of them rebuilds the schedules
(`TxDoubles.RebuildCanDouble`; `TxGrid.AtMostOneSendPerSlot` and `TxDoubles.ClockMustHold` say what the clock must
not do).

## Model

| member | source | states |
|---|---|---|
| DelayRuns.AnswersBelongToRequests | src/ptp_client/ptp/l2master/master.py:427-553 | over every interleaving of the receive thread, the responding thread, the drain of stop() and runtime updates: each Delay_Resp sent belongs to one accepted Delay_Req, echoes its sequenceId, its source PortIdentity and its receive time, and no two belong to the same one |
| DelayRuns.AnswersLeaveInOrder | src/ptp_client/ptp/l2master/master.py:480-516 | until stop() begins to drain, Delay_Resps leave in the order in which the requests were received |
| DelayRuns.RequestsAreConserved | src/ptp_client/ptp/l2master/master.py:468-486 | in every reachable state delay_req_recv is sent + dropped + queued + in hand + abandoned for want of a transport; session_overflow stays 0, the queue holds at most 1024, and delay_resp_sent is the number of frames that went out but for those about to be counted |
| DelayRuns.FramesAreClassified | src/ptp_client/ptp/l2master/master.py:411-466 | each of the counters of parse errors, bad version, other domain, other type and delay_req_recv counts exactly the frames of its class, failed receives counting as parse errors; with those silently ignored as our own or a foreign Announce they are all the frames, and each was classified by what was in force at the time |
| DelayRuns.DropsHaveCauses | src/ptp_client/ptp/l2master/master.py:472-546 | in every reachable state the requests dropped are those the table refused, those that found the queue full and those whose answer failed to be sent, and resp_queue_full and tx_errors count the latter two, but for those just about to be counted |
| DelayRuns.JudgedByWhatWasInForce | src/ptp_client/ptp/l2master/master.py:428-446 | a frame is classified by the configuration in force when it was received and the port identity in force when that was read |
| DelayRuns.StopEndsReceiving | src/ptp_client/ptp/l2master/master.py:414-425 | once stop() is called at most one more frame is handled, the one a receive under way brings |
| DelayRuns.RespondersNeverCrash | src/ptp_client/ptp/l2master/master.py:518-542 | whatever updates come between the three separate reads of the configuration, building and framing an answer never fails, and the configuration stays valid |
| DelayRuns.ReceiverDiesOfShortTaggedFrame | src/ptp_client/ptp/l2master/transport.py:219-233 | in any run the receive thread, while it lives, dies of exactly one thing: receiving a VLAN-tagged frame of 16 or 17 octets, whose second type field cannot be unpacked |
| DelayRuns.AnswerIsTakenByItsRequester | src/ptp_client/ptp/client.py:635-647 | of the waiting clients in the answer's domain, exactly the one that sent the request takes it |
| DelayMachine.StepConserves | src/ptp_client/ptp/l2master/master.py:244-246 | every step of every thread keeps the three balances of counters, queue and wire |
| DelayMachine.WorkerConserves | src/ptp_client/ptp/l2master/master.py:499-544 | a responding thread's step moves a request between in hand, sent, dropped and abandoned without losing or doubling it |
| DelayMachine.StepKeepsOrder | src/ptp_client/ptp/l2master/master.py:480-516 | every step keeps the queue in order of arrival and apart from what is held and what was answered |
| DelayMachine.WorkerEffect | src/ptp_client/ptp/l2master/master.py:499-543 | a responding thread's step takes the head of the queue, sends the one answer in its hand, or touches neither queue nor wire |
| DelayMachine.StepKeepsContents | src/ptp_client/ptp/l2master/master.py:427-553 | every step keeps queue items equal to what was received and answers on the wire equal to what was asked |
| DelayMachine.PrepareAnswers | src/ptp_client/ptp/l2master/master.py:522-535 | from any two valid configurations an answer builds, echoes its request and goes to the requester's address in unicast mode and to the effective destination otherwise |
| DelayMachine.FramingAnswers | src/ptp_client/ptp/l2master/master.py:320-329 | a framed answer has that destination and our own source, and parses back to that answer |
| DelayMachine.StepNeverOverflows | src/ptp_client/ptp/l2master/master.py:472-475 | no step makes the session table overflow |
| Loopback.ClassesInOctets | src/ptp_client/ptp/l2master/master.py:427-466 | which octets of a frame put it into which class, both ways for each of the six |
| Loopback.OwnMessagesAreHeard | src/ptp_client/ptp/l2master/master.py:437-464 | an Announce, Sync or Follow_Up of the master's that comes back to it, padded or not and whatever updates came in between, is in another domain, ignored or of another type, by the domains and clock identities in force then; it is never a parse error or a request |
| Loopback.OwnMessagesAreIgnored | src/ptp_client/ptp/l2master/master.py:445-451 | so while nothing has been updated since it was built it is ignored |
| Loopback.OwnDelayRespIsHeard | src/ptp_client/ptp/l2master/master.py:437-464 | the same for its Delay_Resps, whatever updates came in between |
| Loopback.OwnDelayRespIsIgnored | src/ptp_client/ptp/l2master/master.py:445-451 | and they are ignored while nothing has been updated |
| Loopback.DelayReqIsRequest | src/ptp_client/ptp/l2master/master.py:438-466 | a well-formed Delay_Req is taken for a request exactly when its domain is one of the effective ones and its clock identity is not ours |
| DelayAlone.HandledIsTheThreadAlone | src/ptp_client/ptp/l2master/master.py:427-486 | _handle_frame run without interruption is the receive thread's steps |
| DelayAlone.RespondedIsTheThreadAlone | src/ptp_client/ptp/l2master/master.py:518-544 | _send_delay_resp run without interruption is a responding thread's steps |
| DelayAlone.RespondedAnswers | src/ptp_client/ptp/l2master/master.py:536-544 | answering one item adds one fitting, rightly addressed frame and one to the sent count, or, when the send fails, nothing and one to the dropped count |
| DelayAlone.DrainAnswersInOrder | src/ptp_client/ptp/l2master/master.py:507-516 | draining n items takes them from the head of the queue, accounts for each as sent or dropped, and, while sends succeed, the k-th frame answers the k-th item |
| Master.PtpL2Master.constructor | src/ptp_client/ptp/l2master/master.py:104-148 | the started master has its port identity from the configuration or from the MAC address, a session table of the configured size, rate and timeout, zero counters and an empty queue |
| Master.PtpL2Master.HandleFrame | src/ptp_client/ptp/l2master/master.py:427-486 | the object afterwards is exactly the state Handled gives |
| Master.PtpL2Master.Answer | src/ptp_client/ptp/l2master/master.py:468-486 | registering, counting, queueing or dropping a request leaves exactly the state Requested gives |
| Master.PtpL2Master.SendDelayResp | src/ptp_client/ptp/l2master/master.py:518-544 | the object afterwards is exactly the state Responded gives |
| Master.PtpL2Master.DrainRespQueue | src/ptp_client/ptp/l2master/master.py:507-516 | the loop leaves exactly the state Drained gives |
| Master.PtpL2Master.ApplyRuntimeUpdate | src/ptp_client/ptp/l2master/master.py:202-229 | the patch is applied whole exactly when it is not empty, names no restart-only or unknown field and validates; otherwise nothing changes |
| Master.PtpL2Master.SendAnnounce | src/ptp_client/ptp/l2master/master.py:331-360 | an Announce takes the next sequence number and leaves the state Transmitted gives |
| Master.PtpL2Master.SendSyncPair | src/ptp_client/ptp/l2master/master.py:364-407 | a Sync and its Follow_Up leave exactly the state SyncPair gives |
| TxRuns.FollowUpsFollowTheirSync | src/ptp_client/ptp/l2master/master.py:364-407 | over every run with send failures, stops and updates, each Follow_Up attempt comes directly after a Sync that went out, and on the wire both carry the same sequenceId and the Sync has the two-step bit set |
| TxRuns.SequenceIdsCountAttempts | src/ptp_client/ptp/l2master/master.py:335-336 | the n-th Announce attempt carries n modulo 2^16 on the wire, and so does the n-th Sync attempt (lines 367-368) |
| TxRuns.CountersCountSends | src/ptp_client/ptp/l2master/master.py:358-406 | follow_up_sent never exceeds sync_sent; between iterations the three counters are the numbers of messages that went out; the backoff is 1, 2, 4, 8, 16, 30 seconds by the number of faults without a fault-free iteration between them |
| TxRuns.ThreadDiesOfTwoThings | src/ptp_client/ptp/l2master/master.py:331-393 | in any run the transmit thread, while it lives, dies of exactly two things: building an Announce from a configuration whose six unchecked fields do not fit the wire, and waiting, no stop having been requested, for a gap that is longer than an event can be waited for |
| TxFate.HarmlessConfigurationsKeepItAlive | src/ptp_client/ptp/l2master/master.py:258-308 | whatever else happens, the thread lives while every configuration in force has those six fields in range and, in two-step mode, a gap that can be waited for |
| TxFate.DiesIffNotHarmless | src/ptp_client/ptp/l2master/master.py:258-308 | left alone with one valid configuration the thread can die exactly when that is not such a configuration |
| TxFate.ValidDoesNotMeanHarmless | src/ptp_client/ptp/l2master/config.py:135-136 | a valid configuration in two-step mode with a gap a second beyond what can be waited for is still valid |
| TxRuns.StopEndsSending | src/ptp_client/ptp/l2master/master.py:272-303 | once stop() is called at most one attempt of each kind, Announce, Sync and Follow_Up, is still made |
| TxRuns.StepKeeps | src/ptp_client/ptp/l2master/master.py:258-308 | every step keeps pairing, numbering, counting and backoff |
| TxRuns.LoopIsQuiet | src/ptp_client/ptp/l2master/master.py:272-307 | outside a send nothing is sent or counted, and a send begins with the next sequence number or, for a Follow_Up, with its Sync's context |
| TxMachine.BuildReads | src/ptp_client/ptp/l2master/master.py:337-403 | a message builds exactly unless it is an Announce with unfit fields, and then reads as its type with its sequenceId |
| TxMachine.FramingReads | src/ptp_client/ptp/l2master/master.py:320-329 | framing never fails and the frame reads as the message |
| TxMachine.StepKeepsContents | src/ptp_client/ptp/l2master/master.py:258-308 | every step keeps all configurations in use valid and all frames sent readable |
| TxGrid.AtMostOneSendPerSlot | src/ptp_client/ptp/l2master/scheduler.py:12-46 | over whole runs of the loop with faults, realignments, lost Follow_Ups and schedules rebuilt by updates, no two Announces and no two Syncs that went out at one interval share a slot of its grid, and later ones lie in later slots, as long as the clock has not gone back behind a slot already served when the schedules are rebuilt or, after a lost Follow_Up, realigned |
| TxGrid.AtMostOneSendPerSlotForward | src/ptp_client/ptp/l2master/scheduler.py:12-46 | in particular with a clock that never goes back |
| TxDoubles.ClockMustHold | src/ptp_client/ptp/l2master/master.py:273-307 | conversely, at any step of any run where the clock fails to hold for the first time, if the Announces of the configuration in force can be built the thread left alone can go on to send two messages of one kind in one slot |
| TxDoubles.RebuildCanDouble | src/ptp_client/ptp/l2master/master.py:221-227 | from any configuration that cannot end the thread there is such a run in which only priority1 is updated, the clock goes back, and every send succeeds |
| TxDoubles.LostFollowUpCanDouble | src/ptp_client/ptp/l2master/master.py:304-307 | and, in two-step mode, one with no update, in which a Follow_Up fails and the clock goes back |
| TxDoubles.LostFollowUpRepeatsIff | src/ptp_client/ptp/l2master/master.py:304-307 | a Sync whose Follow_Up failed is due again in its slot after the realignment exactly when that has reached an earlier slot only |
| TxDoubles.RebuiltRepeatsIff | src/ptp_client/ptp/l2master/master.py:273-280 | rebuilt schedules are due again at an earlier time exactly when it lies in a later slot than the time of the rebuilding |
| TxGrid.StepKeepsGrid | src/ptp_client/ptp/l2master/master.py:286-307 | every step keeps both schedulers on the grid and what has gone out behind their deadlines |
| TxGrid.OnwardPays | src/ptp_client/ptp/l2master/scheduler.py:35-46 | advancing moves the deadline strictly on, past now, and covers everything sent up to now |
| TxSchedules.SchedulesFollowConfigIff | src/ptp_client/ptp/l2master/master.py:266-280 | from the moment the thread first reads the generation on, its schedules run at the configured intervals whenever it has noticed the latest generation and no update holds the lock, in any run, exactly if at that moment both intervals are still those it built or an update holds the lock |
| TxSchedules.MissedUntilNextUpdate | src/ptp_client/ptp/l2master/master.py:266-280 | otherwise it goes on with the intervals it built, as if up to date, until the next update is completed, and follows the configuration from then on |
| TxSchedules.OnlyIntervalsAreMissed | src/ptp_client/ptp/l2master/master.py:266-269 | updates that keep both intervals are never missed, wherever they fall |
| TxSchedules.UpdateDuringStartIsMissed | src/ptp_client/ptp/l2master/master.py:266-269 | a call that sets the sync interval from 1/8 to 1/16 second between the two is missed |
| TxAlone.TransmittedIsTheThreadAlone | src/ptp_client/ptp/l2master/master.py:310-329 | a send without interruption is the transmit thread's steps |
| TxAlone.SyncPairOnTheWire | src/ptp_client/ptp/l2master/master.py:364-407 | with a valid configuration a pair puts one Sync on the wire, and a Follow_Up with the same sequenceId exactly when the Sync went out in two-step mode, no stop cut the gap short and the gap can be waited for; it faults exactly when a send fails, and kills the thread exactly when it comes to a gap that cannot be waited for |
| RuntimeUpdate.ConfigStaysValid | src/ptp_client/ptp/l2master/master.py:202-229 | however concurrent updates interleave, the configuration satisfies validate() and its restart-only fields are those the master started with |
| RuntimeUpdate.StepKeepsSound | src/ptp_client/ptp/l2master/master.py:215-227 | every step of an update keeps that, for the stored and for the staged configurations |
| RuntimeUpdate.OnlyCheckedIsStored | src/ptp_client/ptp/l2master/master.py:218-227 | only a validated configuration is ever stored, the port identity that goes with it always exists and carries its port number, and a configuration that does not validate leaves no trace |
| RuntimeUpdate.CallAppliesOrRejects | src/ptp_client/ptp/l2master/master.py:202-229 | an update no other overlaps applies its patch whole or changes nothing |
| RuntimeUpdate.AbsentKeysAreKeptIff | src/ptp_client/ptp/l2master/master.py:210-222 | in any run a call applies its patch to the configuration in force exactly when every field it does not name is still what it was when the call read it; a field it does not name is set to the value read, one it names to the last value given |
| RuntimeUpdate.AbsentKeysAreKeptUndisturbed | src/ptp_client/ptp/l2master/master.py:210-222 | so it does whenever no other caller stores in between |
| RuntimeUpdate.PatchSetsItsFields | src/ptp_client/ptp/l2master/master.py:219 | a patch sets each field it names to the last value given, and no other field |
| RuntimeUpdate.OverlappingCallsLoseOne | src/ptp_client/ptp/l2master/master.py:218-222 | of two callers who read the same configuration the later one, who names priority1 only, undoes the earlier one's priority2 |
| RuntimeUpdate.PatchKeepsRestartFields | src/ptp_client/ptp/l2master/master.py:55-59 | no allowed patch changes a restart-only field |
| RuntimeUpdate.SharedSettingShows | src/ptp_client/ptp/l2master/master.py:210-219 | setting a shared header or framing field shows in that field of every message type that does not override it, and nowhere else |
| Config.EffectiveValuesFit | src/ptp_client/ptp/l2master/config.py:96-178 | linked or not, every effective header and framing value of a valid configuration fits its field on the wire |
| Config.OverridesStayApart | src/ptp_client/ptp/l2master/config.py:96-105 | the overrides of a message type act on that type alone and in unlinked mode only, each field taking its override or else the shared value; all other effective values stay what they were |
| Config.SourceAlwaysBuilds | src/ptp_client/ptp/l2master/master.py:310-318 | _source_for never fails on a valid configuration, and gives the effective port number with the effective clock identity or else our own |
| Config.FrameAlwaysBuilds | src/ptp_client/ptp/l2master/master.py:320-329 | framing never fails on a valid configuration, and the frame has the effective destination and gives back its source and its payload |
| Config.SyncAlwaysBuilds | src/ptp_client/ptp/l2master/master.py:371-380 | a Sync builds from every valid configuration and reads back with its sequenceId, its source, its time, its effective domain, and the configured flags with the two-step bit forced |
| Config.FollowUpAlwaysBuilds | src/ptp_client/ptp/l2master/master.py:395-403 | the same for a Follow_Up |
| Config.DelayRespAlwaysBuilds | src/ptp_client/ptp/l2master/master.py:525-534 | the same for a Delay_Resp and the request it echoes |
| Config.AnnounceReadsBack | src/ptp_client/ptp/l2master/master.py:337-357 | an Announce that builds reads back with the configured fields in their places and the effective domain and transportSpecific |
| Config.AnnounceBuildsIffFieldsFit | src/ptp_client/ptp/l2master/config.py:107-149 | an Announce builds from a valid configuration exactly when the six fields validate() does not look at fit the wire |
| Config.ValidDoesNotMeanAnnounceable | src/ptp_client/ptp/l2master/config.py:107-149 | a valid configuration whose priority1 is 256 is still valid and cannot be announced |
| TokenBucket.BucketDecidesWindow | src/ptp_client/ptp/l2master/session.py:28-46 | the bucket admits a request exactly when, for every earlier request of the session, the requests admitted from that one on and this one are at most max(1, rate) plus rate times the time between; and it goes on holding what the tightest window has left |
| TokenBucket.RateIsBounded | src/ptp_client/ptp/l2master/session.py:28-46 | between any two requests no more are admitted than the capacity and the time allow |
| TokenBucket.SpacedRequestsAreAdmitted | src/ptp_client/ptp/l2master/session.py:28-46 | a slave that spaces its requests by at least 1/rate is never refused |
| TokenBucket.TimeZeroIsNeverLimited | src/ptp_client/ptp/l2master/session.py:38 | after a request stamped zero, whatever came before, the next one finds a full bucket and is admitted: zero marks a session not yet charged |
| SessionRuns.RunIsValid | src/ptp_client/ptp/l2master/session.py:66-91 | over every run the table holds at most max_slaves sessions with distinct identities, and overflow_count stays 0: eviction always makes room |
| SessionRuns.SessionAccountsForItsLife | src/ptp_client/ptp/l2master/session.py:66-91 | over every run a session's request count, drop count, last_seen and bucket are those of its own requests since it was created, and every answer it was given was the windows' |
| SessionRuns.VerdictIsTheWindows | src/ptp_client/ptp/l2master/session.py:66-91 | so every verdict of a run is the sliding windows' over the life of the requester's session |
| DelaySessions.TableRuns | src/ptp_client/ptp/l2master/master.py:468-544 | what the receive and responding threads do to the table in any run is a run of the table alone |
| DelaySessions.RequestsAreJudgedByWindows | src/ptp_client/ptp/l2master/master.py:468-486 | so whether the master queues or drops a request is what the sliding windows say over the life of the requester's session |
| SessionRuns.RecentlySeenIsPresent | src/ptp_client/ptp/l2master/session.py:66-116 | under a strictly increasing clock an identity whose last request is within the timeout and was followed by requests of fewer than max_slaves others is in the table, last seen at that request |
| SessionRuns.SparedByEviction | src/ptp_client/ptp/l2master/session.py:93-101 | making room spares a session that has not aged unless too many others came after it |
| Session.RegisteredIsValid | src/ptp_client/ptp/l2master/session.py:66-91 | registering keeps the bound and the keys distinct and never overflows |
| Session.RegisteredLookup | src/ptp_client/ptp/l2master/session.py:66-91 | afterwards the requester is there, charged for its request, and any other identity is as before or was evicted |
| Session.EvictionMakesRoom | src/ptp_client/ptp/l2master/session.py:93-101 | eviction leaves strictly fewer sessions |
| Session.AgedOutLookup | src/ptp_client/ptp/l2master/session.py:110-116 | age_out removes exactly the sessions not seen within the timeout |
| Session.MarkedLookup | src/ptp_client/ptp/l2master/session.py:103-108 | mark_resp_sent adds one to the sent count of that identity and changes nothing else |
| Session.SessionTable.constructor | src/ptp_client/ptp/l2master/session.py:52-64 | an empty table for at least one slave |
| Session.SessionTable.RegisterOrTouch | src/ptp_client/ptp/l2master/session.py:66-91 | the object afterwards is exactly the table Registered gives, and the verdict is never overflow |
| Session.SessionTable.EvictOldest | src/ptp_client/ptp/l2master/session.py:93-101 | the loop over the aged keys, or the first least recently seen session, leaves exactly the sessions Evicted gives |
| Session.SessionTable.LeastRecentlySeen | src/ptp_client/ptp/l2master/session.py:100 | the loop finds the first session with the least last_seen |
| Session.SessionTable.MarkRespSent | src/ptp_client/ptp/l2master/session.py:103-108 | the object afterwards is exactly the table Marked gives |
| Session.SessionTable.AgeOut | src/ptp_client/ptp/l2master/session.py:110-116 | the object afterwards is exactly the table AgedOut gives, and the result counts the sessions removed |
| Scheduler.AdvanceOnGrid | src/ptp_client/ptp/l2master/scheduler.py:32-46 | deadlines stay multiples of the interval, strictly increase and exceed now; a due advance is next_boundary(now), at most an interval ahead; and the catch-up branch is dead |
| Scheduler.RunStaysOnGrid | src/ptp_client/ptp/l2master/scheduler.py:27-46 | over every run of polls, failed polls and realignments the deadline starts the slot after those reached |
| Scheduler.SendsMoveForward | src/ptp_client/ptp/l2master/scheduler.py:32-46 | at most one send falls in a slot, and sends move forward, whatever the clock does |
| Scheduler.SendsExactlyInNewSlots | src/ptp_client/ptp/l2master/scheduler.py:32-46 | without faults a poll sends exactly when neither the start nor an earlier poll lay in its slot or a later one |
| Scheduler.PeriodicScheduler.Advance | src/ptp_client/ptp/l2master/scheduler.py:35-46 | the object afterwards is exactly what Advanced gives, and the result tells whether the tick was skipped |
| Scheduler.WaitEndsWhenDue | src/ptp_client/ptp/l2master/scheduler.py:48-50 | waiting for wait_timeout, and no shorter, makes the scheduler due |
| Client.PtpClient.Ingest | src/ptp_client/ptp/client.py:385-440 | a datagram is buffered, cut to its announced length, exactly when it holds a header and that many octets; the oldest entry goes when the buffer is full |
| Client.PtpClient.PopMatching | src/ptp_client/ptp/client.py:466-490 | returns the oldest match and consumes it alone, or raises a timeout after the deadline and consumes nothing, whatever arrives meanwhile |
| Client.PtpClient.DeleteEntries | src/ptp_client/ptp/g82752_unicast.py:210-211 | deleting by descending index leaves exactly the other entries, in order |
| Client.PtpClient.TrySyncSampleFollowUpLed | src/ptp_client/ptp/client.py:513-596 | a sample led by a Follow_Up pairs the domain's Sync and Follow_Up of one sequenceId; the Follow_Up is another clock's only if one of the Sync's own clock with that sequenceId was evicted during the wait |
| Client.PtpClient.WaitSyncSample | src/ptp_client/ptp/client.py:676-762 | every two-step sample, on the direct, the Follow_Up-led and the degraded path and for any arrivals, has headers of one sequenceId in the client's domain, was received, and takes t1 from its Follow_Up; both are from one clock unless a Follow_Up of the Sync's own clock with that sequenceId was evicted during the wait |
| Client.PtpClient.ExchangeDelay | src/ptp_client/ptp/client.py:598-674 | the Delay_Resp returned answers this very Delay_Req and is the oldest in the buffer that does |
| Client.OwnFollowUpIsTaken | src/ptp_client/ptp/client.py:551-577 | the Follow_Up taken after the wait is the one it began with exactly if that was not evicted |
| Client.PtpClient.TakeOwnFollowUp | src/ptp_client/ptp/client.py:551-577 | otherwise it is the oldest one left with that sequenceId in the domain, whatever clock it is from |
| Buffer.AppendedIsValid | src/ptp_client/ptp/client.py:399-400 | ingesting keeps every datagram in exactly one of buffered, consumed and evicted, the buffered ones in order of arrival and after all evicted ones |
| Buffer.TakenIsValid | src/ptp_client/ptp/client.py:474-478 | taking an entry keeps that |
| Buffer.DescendingDeletionFilters | src/ptp_client/ptp/g82752_unicast.py:210-211 | deleting ascending indices from the last one down is filtering |
| Buffer.PaddingIsCut | src/ptp_client/ptp/client.py:390-396 | whatever follows a message of the announced length is cut off |
| Buffer.TruncatedIsRefused | src/ptp_client/ptp/client.py:390-396 | a datagram that ends before its announced length is not taken |
| Buffer.ShortAnnouncedIsCut | src/ptp_client/ptp/client.py:390-396 | a datagram with a whole header that announces fewer octets than that is taken, cut off inside its header, and no other is |
| Unicast.UnicastSession.CollectGrants | src/ptp_client/ptp/g82752_unicast.py:174-241 | a successful collection lists exactly the expected types in order, each with a positive duration and read from received Signalling of the domain; otherwise it raises, ValueError only when Signalling of the domain cut off inside its header is in the buffer |
| Unicast.UnicastSession.ScanBuffer | src/ptp_client/ptp/g82752_unicast.py:190-209 | a look through the buffer always raises when such a message is in it, ValueError or a denial, and raises ValueError only then |
| Unicast.UnicastSession.FileGrants | src/ptp_client/ptp/g82752_unicast.py:198-209 | a relevant grant is filed under its type; one of zero duration is counted as a denial and raises at once, and nothing else is |
| Unicast.UnicastSession.ExpectGrantsOk | src/ptp_client/ptp/g82752_unicast.py:279-287 | never fails after a successful collection, and then counts no denial |
| Unicast.UnicastSession.NegotiateWithRetries | src/ptp_client/ptp/g82752_unicast.py:289-323 | sends at most three requests, all with the given TLVs, and exactly three before it times out; gives up as stopped only if a stop was requested; and returns only what a collection delivered |
| Unicast.UnicastSession.WaitFirstAnnounce | src/ptp_client/ptp/g82752_unicast.py:348-374 | asks at most twice more, and returns the source of a received Announce of the domain |
| Unicast.UnicastSession.Negotiate | src/ptp_client/ptp/g82752_unicast.py:325-420 | the state is set only on success, then with positive grants read from received Signalling for exactly Announce, Sync and any requested Delay_Resp, and with the source of a received Announce as grandmaster; all Announce REQUESTs precede all Sync REQUESTs, at most eleven are sent; any failure leaves state and contract as they were |
| Unicast.UnicastSession.DoRenewNow | src/ptp_client/ptp/g82752_unicast.py:632-688 | a failed renewal leaves the grants as they were; a successful one only adds or replaces positive grants |
| Unicast.UnicastSession.RenewIfDue | src/ptp_client/ptp/g82752_unicast.py:134-156 | a check that is due or forced attempts a renewal, sending requests for all services unless a stop was requested; any other sends nothing and takes one reading of the clock; the contract is restarted exactly by a successful renewal, a failed one changing neither state nor contract; ValueError comes through only from an unreadable message in the buffer; and the log of checks stays true |
| Unicast.UnicastSession.AttemptRenewal | src/ptp_client/ptp/g82752_unicast.py:146-156 | an attempt that succeeds restarts the contract with the grants received; one that fails leaves it; either is logged |
| Unicast.UnicastSession.SleepUntilNextOrDeadline | src/ptp_client/ptp/g82752_unicast.py:605-630 | the loop of checks keeps the log true, and ends only at its time, at the deadline or on a stop |
| Unicast.UnicastSession.NothingLapses | src/ptp_client/ptp/g82752_unicast.py:121-156 | so whatever calls of these were made, at no instant since the last check has the contract lapsed for any message type, under the conditions of NoContractLapses |
| Unicast.UnicastSession.SendSignaling | src/ptp_client/ptp/g82752_unicast.py:161-172 | the datagram sent is Signalling from our port to the target, in our domain, with the next sequenceId and exactly the given TLVs |
| Unicast.DeliveredIsContracted | src/ptp_client/ptp/g82752_unicast.py:407-410 | the grants of a successful collection make a contract for exactly the types asked for |
| Renewal.NoContractLapses | src/ptp_client/ptp/g82752_unicast.py:121-132 | over any log of checks, forced ones included: while at most k attempts fail in a row once due, no less is granted than asked for, and k+1 times the wait between checks plus the work of a renewal, plus the time by which the grants precede our mark, is less than the duration and the margin max(10, duration/4), every instant lies inside the contract in force for every message type |
| Renewal.NoContractLapsesWithoutFailures | src/ptp_client/ptp/g82752_unicast.py:121-156 | in particular when every due or forced check renews |
| Signaling.IterTlvs | src/ptp_client/ptp/signaling.py:87-96 | the loop yields exactly the TLVs TlvsFrom gives |
| Signaling.TlvsRoundTrip | src/ptp_client/ptp/signaling.py:87-96 | iterating over any concatenated TLVs returns that list, then whatever the rest holds |
| Signaling.TlvsSplitData | src/ptp_client/ptp/signaling.py:87-96 | over any octets the TLVs found encode to a prefix whose remainder starts no whole TLV |
| Signaling.TlvsFromIsTheOnlyReading | src/ptp_client/ptp/signaling.py:87-96 | so iterating computes the one way to read octets as TLVs and a remainder |
| Signaling.GrantValueRoundTrip | src/ptp_client/ptp/signaling.py:40-74 | REQUEST and GRANT values give back the fields they were built from |
| Signaling.BuiltRequestReadsBack | src/ptp_client/ptp/signaling.py:40-50 | a REQUEST builds exactly for a period that is a signed octet, and is one TLV that reads back as what was asked |
| Signaling.BuiltGrantReadsBack | src/ptp_client/ptp/signaling.py:53-72 | the same for a GRANT |
| Signaling.ExtractGrantsFromSignalingUdp | src/ptp_client/ptp/signaling.py:132-158 | the two loops compute ExtractGrants |
| Signaling.BuiltGrantsAreExtracted | src/ptp_client/ptp/signaling.py:132-158 | a built message yields exactly its GRANTs of at least six octets, in order, when it has any; when it has none, exactly unless some octets of its body look like one |
| Signaling.ScanCanInventAGrant | src/ptp_client/ptp/signaling.py:146-158 | a message without a GRANT TLV yields one when a GRANT stands inside the value of another TLV |
| Signaling.SignalingReadable | src/ptp_client/ptp/signaling.py:246-274 | a built Signalling message reads back, header and TLVs |
| Header.HeaderRoundTrip | src/ptp_client/ptp/header.py:59-110 | a packed header followed by anything unpacks to its fields masked to their widths |
| Header.HeaderSurvivesIffCanonical | src/ptp_client/ptp/header.py:59-110 | a header survives the wire exactly when every field is in range |
| Header.HeaderReadBack | src/ptp_client/ptp/header.py:59-110 | any 34 octets unpack to a header in range, which packs to the same octets with the reserved ones cleared |
| Header.PackedHeaderIsLaidOut | src/ptp_client/ptp/header.py:87-110 | a header in range is packed field by field where clause 13.3.1 of IEEE 1588-2008 puts them |
| Header.IdentityRoundTrip | src/ptp_client/ptp/header.py:22-29 | a PortIdentity is read back wherever it stands |
| Timestamp.TimestampRoundTrip | src/ptp_client/ptp/timestamp.py:27-40 | a timestamp is read back wherever it stands |
| Timestamp.TimestampReadBack | src/ptp_client/ptp/timestamp.py:34-40 | reading fails exactly when octets are missing or nanoseconds reach a billion, and what is read packs to the same octets |
| Timestamp.NanosecondsAreKept | src/ptp_client/ptp/l2master/clock.py:34-36 | nanoseconds become the timestamp that says as much, exactly while 48 bits hold the seconds |
| Messages.SyncReadable | src/ptp_client/ptp/l2master/messages.py:140-164 | a Sync, padded or not, reads back, with the two-step bit forced |
| Messages.FollowUpReadable | src/ptp_client/ptp/l2master/messages.py:167-190 | a Follow_Up reads back, always with the two-step bit |
| Messages.DelayRespReadable | src/ptp_client/ptp/packet.py:59-65 | a Delay_Resp (messages.py:214-240) reads back, with the unicast bit forced |
| Messages.DelayRespTakenByItsRequester | src/ptp_client/ptp/client.py:635-647 | the client takes a Delay_Resp exactly for the domain, sequenceId and PortIdentity it answers |
| Messages.AnnounceReadable | src/ptp_client/ptp/l2master/messages.py:56-85 | an Announce reads back whole exactly when its UTC offset is 0 to 65535 |
| Transport.FrameRoundTrip | src/ptp_client/ptp/l2master/transport.py:29-46 | a frame builds exactly for six-octet addresses and a VLAN id that fits, and then parses (lines 219-240) to its source and payload, whatever the link appended |
| Transport.FrameIsLaidOut | src/ptp_client/ptp/l2master/transport.py:38-46 | destination, source, tag if any, type and payload stand where Ethernet puts them |
| Transport.TagHoldsPriorityAndId | src/ptp_client/ptp/l2master/transport.py:41-45 | the 802.1Q tag carries the priority, a clear DEI bit and the VLAN id |
| Checksum.DatagramPassesBothChecks | src/ptp_client/ntp/pcap.py:38-82 | for every payload that fits in IPv4 the header, and the UDP segment with its pseudo-header, sum to 0xFFFF in one's complement |
| Checksum.DatagramIsLaidOut | src/ptp_client/ntp/pcap.py:48-82 | the two headers say the lengths, the identification, the protocol, the addresses and the ports given |
| Checksum.TwoFoldsSuffice | src/ptp_client/ntp/pcap.py:13-18 | below 2^32 two folds of the raw sum give the one's-complement sum |
| Jsonc.StripJsoncComments | src/ptp_client/ptp/l2master/config.py:192-224 | the scanner computes Strip |
| Jsonc.TokensAreTheText | src/ptp_client/ptp/l2master/config.py:192-224 | the tokens of a text, put together again, are the text |
| Jsonc.TokensOfStripped | src/ptp_client/ptp/l2master/config.py:192-224 | the tokens of the output are the tokens of the input but for the comments |
| Jsonc.StripIsIdempotent | src/ptp_client/ptp/l2master/config.py:192-224 | stripping is idempotent and its output holds no comment outside a string |
| Jsonc.StripIsIdentityIffNoComment | src/ptp_client/ptp/l2master/config.py:192-224 | stripping changes nothing exactly when there is no comment |
| Jsonc.LiteralsSurvive | src/ptp_client/ptp/l2master/config.py:192-224 | every string literal is copied as it is, escapes included |

## Left out

- Sockets, raw IP, Npcap and AF_PACKET, interface and MAC probing, thread scheduling and the implementation of locks: a frame arrives, a send succeeds or fails, a stop is requested.
- The web application, the event stream, JavaScript, scripts, command line, logging, debug dumps and printed diagnostics.
- The NTP codec and client, the pcap writer around the datagram, and the offset and delay formula, which are straight-line arithmetic.
- Removing trailing commas after comments: the regular expression ignores string boundaries and is not idempotent.
- Reading a configuration from a dictionary, with its key maps, hexadecimal strings and profile defaults; a non-dictionary entry in the override table.
- Floating-point rounding of times, rates and token counts, and values that are not numbers.
- How long an event can be waited for is a parameter, half a minute at least; on common platforms it is weeks or centuries.
- The clock is taken to be within the 48 bits of seconds a PTP timestamp holds.
- Dotted addresses given to the checksum functions are taken as their four octets.
- `SlaveSession` objects are values here: that `register_or_touch` hands out the object itself, and that `snapshot` copies it, is not captured.
- The two memory accesses of a single lock-protected counter update are one step, and so are the assignments of `source_port` and `_interval_gen` under the lock.
- One life of a master, from `start()` to `stop()`; a second `start()` is not modelled.
- Threads joined by `stop()` may go on after the time limit of the join; the model lets them at any rate.
- The observer called for each frame.
- Cancelling a contract and waiting for its acknowledgement, and collecting grants without expected types.
- The measuring loop of `measure_acr` around the exchanges and checks, and `renew_now()`; the longest wait between two checks is a parameter of the result about lapsing.
- Whether a grant answers this very request: the code does not compare sequence numbers, and when a grant was received is not recorded.
- How the delay_resp_sent and delay_req_count of one session relate.
- TxDoubles.ClockMustHold: assumes that the Announces of the configuration in force can be built; otherwise the thread may die first.
- Unicast.UnicastSession.constructor: requires the domain of the client to agree, where the source raises.
- Master.PtpL2Master.constructor: requires a valid configuration, where the source raises.
