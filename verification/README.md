# AutoRuntime: verified model of its concurrent cores

AutoRuntime is a C++20 robot runtime. Its hard parts are small state machines guarded by mutexes and two binary formats.
This project models five of them in Dafny and proves what they promise.

* **Record and replay** (`Bytes`, `Crc32`, `TraceFormat`, `Replayer`, `Recorder`, `RecorderCounters`): the little-endian record
  codec, the bitwise CRC-32, the streaming replayer with its sticky end, and the bounded asynchronous recorder. The main
  theorems go end to end: for every interleaving of `Record` calls, writer steps and `Stop`, the replay of the file is exactly what was
  accepted; a crash or a cut leaves exactly the whole records before it; and a change of up to four consecutive bytes is
  always refused.
* **Executor and node** (`Tasks`, `JobQueue`, `PeriodicRelease`, `Subscription`, `Runtime`, `Mailbox`, `TaskCounters`,
  `Service`, `ServiceOutcomes`, `ServiceWakeups`): the group queues, the reservations, the deadline policies, the periodic grid, and the `scheduled`
  flag that turns a capacity-one event task into a serial mailbox. Whether a subscription or a service can lose a wakeup is
  settled by an if-and-only-if: never, in any run, exactly when the group's queue has room for the capacities of all its
  tasks.
* **DDS requests** (`RpcChannel`, `RpcWire`, `RpcClient`, `RpcEngine`): any number of engines over a network that loses,
  repeats and reorders samples, with service names that may share a topic.
* **Discovery** (`Membership`, `DiscoveryTables`, `DiscoveryPacket`): leases, generation fences with bounded memory and
  eviction, and the datagram codec.
* **Health** (`ComponentHealth`, `HealthRuns`, `HealthGuarantees`, `HealthReports`, `HealthMonitor`): reports, evaluations
  and recoveries whose hooks run outside the lock.

How the models are built. A concurrent core is a `State`, an `Action` per region of a mutex (or per unlocked call between
two of them), `Enabled` and `Apply`, and `Legal`/`After` for runs; a theorem about every run is an invariant kept by every
step. The objects the source updates in place are classes (`Replayer`, `Recorder`, `Subscriber`, `TaskState`, `GroupQueue`,
`ServiceState`, `ClientChannel`, `Tables`, `Monitor`) whose methods, with the source's loops, are proved to do exactly what
the step functions say. Fields marked as history exist only to state properties. What a step function means is then said
without it: in numbers and byte positions for one step, and over whole runs by folds over the actions alone (what was
reported, announced, offered, taken or counted), to which the state is proved equal.

Clocks, callbacks, hooks, probes, the outcome of system calls, the order in which a hash table is walked and the choice
among equally old fences are parameters of the steps, so every theorem holds for all of them.

Where the code does not do what one would expect, the model follows the code:

* A re-arm that finds the group's queue full is ignored by `ProcessOne` of subscriptions and services alike, so a wakeup can
  be lost for ever (`Mailbox.LoseWakeup`, `Mailbox.LostForEver`); `Mailbox.WakeupsAreSafeIffCapacityFits` says for which
  groups no run loses one.
* In a service two kinds of refused Notify strand the calls that are queued: that of a caller who withdraws its call while
  others arrived meanwhile, and that at the end of `ProcessOne` (`ServiceWakeups.CallsGetStranded`,
  `ServiceWakeups.RearmGetsLost`, `ServiceWakeups.StrandedForEver`). `ServiceWakeups.StrandedIffBroken` says that a run
  strands calls exactly if it contains one of the two.
* Byte 7 of a discovery datagram is never read, so what the reader accepts is not only what the writer builds
  (`DiscoveryPacket.BuildOfParse`).
* `Recover` can leave a process it started behind (`HealthGuarantees.OrphanHappens`);
  `HealthGuarantees.OrphanedIffOvertaken` says which runs do.
* A subscriber callback that throws is counted both as dropped and as delivered (`Subscription.Books`).

## Model

| member | source | states |
|---|---|---|
| Bytes.NumberOfLittleEndian | record_replay/src/record_replay.cpp:52-126 | reading back a number that was appended gives the number, at every width |
| Bytes.LittleEndianOfNumber | record_replay/src/record_replay.cpp:52-126 | appending a number that was read gives the bytes, so decoding is injective |
| Bytes.Append | record_replay/src/record_replay.cpp:52-72 | the shifting loops of AppendU16, AppendU32 and AppendU64 add the little-endian bytes and nothing else |
| Bytes.Read | record_replay/src/record_replay.cpp:80-126 | the reading loops succeed exactly when enough bytes are left, and then give their number and move past them |
| Bytes.DecodeOfEncode | record_replay/src/record_replay.cpp:175-224 | a table of numbers that fit their widths is decoded from its encoding |
| Bytes.EncodeOfDecode | record_replay/src/record_replay.cpp:863-960 | any bytes of the right length are the encoding of what they decode to |
| Crc32.Compute | record_replay/src/record_replay.cpp:128-140 | the nested loop with the mask trick computes the reflected CRC-32 |
| Crc32.BitStepLinear | record_replay/src/record_replay.cpp:133-137 | one bit step is linear over exclusive or |
| Crc32.UndoBitStep | record_replay/src/record_replay.cpp:133-137 | one bit step has an inverse, so it is a bijection of the 32-bit states |
| Crc32.StepsInjective | record_replay/src/record_replay.cpp:133-137 | any number of bit steps never merges two registers |
| Crc32.RegisterOfWord | record_replay/src/record_replay.cpp:128-140 | feeding four bytes is exclusive-oring one word into the register and stepping 32 times |
| Crc32.BurstDetected | record_replay/src/record_replay.cpp:128-140 | any change confined to four consecutive bytes changes the register, whatever surrounds it |
| Crc32.ChecksumIsResidue | record_replay/src/record_replay.cpp:128-140 | a body is followed by its own checksum exactly when the register over both ends in one fixed residue |
| Crc32.CheckValue | record_replay/src/record_replay.cpp:128-140 | the check value of CRC-32: the digits 1 to 9 give 0xcbf43926, and nothing gives 0 |
| TraceFormat.SerializeRecord | record_replay/src/record_replay.cpp:175-224 | the field-by-field writer gives the serialized record, and fails exactly when the size overflows 64 bits |
| TraceFormat.ParseOfSerialize | record_replay/src/record_replay.cpp:831-1033 | whatever follows it, a serialized record within the limits parses to itself, its checksum and its own length |
| TraceFormat.SerializeOfParse | record_replay/src/record_replay.cpp:831-1033 | whenever the parser accepts a record, the bytes consumed are exactly its serialization |
| TraceFormat.ParseOfCut | record_replay/src/record_replay.cpp:831-968 | a record cut at any byte is reported as truncated, in its header or in its body, and as nothing else |
| TraceFormat.GoodHasResidue | record_replay/src/record_replay.cpp:970-987 | an accepted record has a consistent length and the fixed CRC residue |
| TraceFormat.ParseOfBurst | record_replay/src/record_replay.cpp:831-990 | changing up to four consecutive bytes anywhere in a record, its checksum included, makes the parser refuse it |
| TraceFormat.FrameLayout | record_replay/src/record_replay.cpp:186-197 | the frame of a record byte by byte: magic number, version, flags, total, number, offset, envelope version, two zeros and the priority in two's complement, each at its place |
| TraceFormat.EnvelopeLayout | record_replay/src/record_replay.cpp:198-204 | the seven identifiers and times of the envelope at bytes 40, 48, 56, 64, 72, 80 and 88 |
| TraceFormat.SizesLayout | record_replay/src/record_replay.cpp:205-213 | the three sizes at bytes 96, 100 and 104 |
| TraceFormat.TextsLayout | record_replay/src/record_replay.cpp:214-223 | channel, message type and payload follow from byte 112 on, and then the checksum of all before it |
| TraceFormat.FirstErrorIsReported | record_replay/src/record_replay.cpp:863-990 | which error the parser gives, from the bytes in place and in the order of the source: each error if and only if its own condition is the first to hold, and a record if none does |
| TraceReplay.OpenedIffBuilt | record_replay/src/record_replay.cpp:790-829 | a file opens with given clocks if and only if it begins with the header built from them |
| TraceReplay.HeaderLayout | record_replay/src/record_replay.cpp:152-165 | the 40 bytes of the file header, each field at its place |
| TraceReplay.EndIsSticky | record_replay/src/record_replay.cpp:831-850 | once Next has failed or finished it repeats that answer and the replayer no longer changes, whatever becomes of the file |
| TraceReplay.Replayer.constructor | record_replay/src/record_replay.cpp:790-829 | a replayer starts after the header, expecting sequence 1 and offset 0 |
| TraceReplay.Replayer.Next | record_replay/src/record_replay.cpp:831-1033 | one call moves the position, the expected sequence, the last offset and the terminal error as specified |
| TraceReplay.Replayer.Reset | record_replay/src/record_replay.cpp:1088-1103 | back to the first record, with the end and the error forgotten |
| TraceReplay.Replayer.Replay | record_replay/src/record_replay.cpp:1105-1214 | the callback gets exactly the records the file promises, up to the first it refuses |
| TraceReplay.NextFeeds | record_replay/src/record_replay.cpp:831-1033 | calling Next until it delivers no more gives exactly what the bytes left promise |
| TraceReplay.FeedFirst | record_replay/src/record_replay.cpp:831-1033 | a whole record in front of any bytes is delivered first, and the rest is replayed as if it stood alone |
| TraceReplay.ReplayOfTrace | record_replay/src/record_replay.cpp:831-1033 | an undamaged trace is delivered whole and in order, then ends cleanly |
| TraceReplay.ReplayOfCut | record_replay/src/record_replay.cpp:831-968 | a trace cut at any byte delivers exactly the records wholly inside, then ends cleanly on a boundary and with one truncation error elsewhere |
| TraceReplay.DeliveredIsSerialized | record_replay/src/record_replay.cpp:831-1033 | whatever the file holds, what is delivered serializes to a front part of it, and to all of it after a clean end |
| TraceReplay.ReplayOfBurst | record_replay/src/record_replay.cpp:831-990 | overwriting up to four consecutive bytes of a trace stops the replay with an error at the first record touched, with all earlier ones delivered unchanged |
| TraceReplay.DeliveredInOrder | record_replay/src/record_replay.cpp:989-1027 | whatever a file holds, the records delivered are numbered without a gap and their offsets do not fall, except that number 1 may start afresh |
| TraceReplay.OutOfOrderIsRefused | record_replay/src/record_replay.cpp:989-1027 | a gap, a repetition or a falling offset after any good records delivers those and ends with a sequence error |
| TraceReplay.ErrorsAreCounted | record_replay/src/record_replay.cpp:831-1033 | each call counts one record with its payload or one fault, under truncation, checksum, sequence or format |
| TraceRecorder.StepKeeps | record_replay/src/record_replay.cpp:372-461 | every step of callers, writer and Stop keeps numbering, file contents, ledger and phases |
| TraceRecorder.LedgerBalances | record_replay/src/record_replay.cpp:530-616 | accepted plus refused equals written plus dropped plus queued plus in flight, and the queue keeps to its bound, at every moment of every run |
| TraceRecorder.RunAccepts | record_replay/src/record_replay.cpp:530-616 | the accepted records are exactly the offers whose Record call returned Ok, in that order |
| TraceRecorder.RunOffsets | record_replay/src/record_replay.cpp:598-616 | over any run the offsets of the accepted records are, from the capture times of the accepted calls alone, the running maximum of the times since the start |
| TraceRecorder.RecordAnswers | record_replay/src/record_replay.cpp:530-616 | what Record answers at any moment of any run, from the sizes, the room, the policy and whether the run has stopped or failed the recorder |
| RecorderCounters.CountersAreEvents | record_replay/src/record_replay.cpp:372-616 | every statistic of the recorder is the sum of the events of the run, and the high watermark is the longest its queue has been |
| TraceRecorder.RecordThenReplay | record_replay/src/record_replay.cpp:372-647 | for every interleaving, after an Ok stop the file opens and replays exactly the accepted messages, numbered from 1, the offset of each being the latest time since the start at which it or an earlier accepted one was captured, then a clean end |
| TraceRecorder.CrashThenReplay | record_replay/src/record_replay.cpp:386-461 | a crash at any moment, even inside a write and with part of the tail lost, replays a front part of what was accepted, then a clean end or one truncation error |
| TraceRecorder.WriteAll | record_replay/src/record_replay.cpp:283-307 | the retry loop over partial and interrupted writes appends all the bytes, or a proper front part and fails |
| TraceRecorder.Recorder.constructor | record_replay/src/record_replay.cpp:152-165 | a new recorder has written its header and nothing else |
| TraceRecorder.Recorder.Push | record_replay/src/record_replay.cpp:598-616 | the accepted record is numbered, given the capture time since the start or the last offset if that is later, queued and counted; TraceRecorder.RunOffsets says what that makes of the offsets of a whole run |
| TraceRecorder.Recorder.Record | record_replay/src/record_replay.cpp:530-616 | refuses, waits or accepts as the step function says; a message that cannot be copied is refused as an internal error without effect |
| TraceRecorder.Recorder.Resume | record_replay/src/record_replay.cpp:577-616 | a waiting call that finds its condition true proceeds as the step function says |
| TraceRecorder.Recorder.TakeOne | record_replay/src/record_replay.cpp:386-404 | the writer takes the oldest record |
| TraceRecorder.Recorder.WriteHeld | record_replay/src/record_replay.cpp:406-413 | the record in hand is appended to the file |
| TraceRecorder.Recorder.FailWriter | record_replay/src/record_replay.cpp:372-384 | a failure is recorded once, the queue is dropped and counted, and the recorder is stopping |
| TraceRecorder.Recorder.CommitOne | record_replay/src/record_replay.cpp:414-417 | a written record is counted with its bytes |
| TraceRecorder.Recorder.FinishWriter | record_replay/src/record_replay.cpp:429-461 | the first of earlier, sync and close errors decides the status |
| TraceRecorder.Recorder.Stop | record_replay/src/record_replay.cpp:618-647 | no record is accepted any more |
| Subscription.AcceptKeeps | runtime/src/node.cpp:126-157 | accepting under either overflow policy keeps order, bounds and counters |
| Subscription.AcceptInNumbers | runtime/src/node.cpp:126-149 | what each policy does with and without room: which message is queued, given up or turned away, what is counted and when a Notify is due |
| Subscription.TakeKeeps | runtime/src/node.cpp:159-171 | taking a message keeps them, with one more in flight |
| Subscription.CloseKeeps | runtime/src/node.cpp:197-217 | closing keeps them and empties the queue |
| Subscription.GiveUpKeeps | runtime/src/node.cpp:413-427 | after a refused Notify a subscriber clearing its flag, or a caller withdrawing its call, keeps order, bounds and counters |
| Subscription.MailboxIsService | runtime/src/node.cpp:389-512 | region by region, a mailbox with the policy and capacity of a service treats its queue and flags as the service does, and notifies when it does |
| Subscription.Subscriber.constructor | runtime/src/node.cpp:607-654 | a new subscription is open, idle and empty |
| Subscription.Subscriber.Accept | runtime/src/node.cpp:126-149 | the message is refused, dropped or queued, and whether a Notify is due |
| Subscription.Subscriber.TakeOne | runtime/src/node.cpp:159-171 | the oldest message is taken if the subscription is open and has one |
| Subscription.Subscriber.CheckAgain | runtime/src/node.cpp:183-195 | the flag stays exactly if the subscription is open and has more |
| Subscription.Subscriber.Close | runtime/src/node.cpp:197-217 | closed, unscheduled and empty |
| Tasks.OrderIsTotal | scheduler/src/executor.cpp:136-146 | with distinct sequence numbers the job order is strict and total |
| Tasks.UrgencyInNumbers | scheduler/src/executor.cpp:136-146 | more urgent means a higher priority, then an earlier release, then a smaller number |
| Tasks.TopIsStrict | scheduler/src/executor.cpp:136-146 | the top of a queue is strictly more urgent than every other job in it |
| Tasks.TaskState.constructor | scheduler/src/executor.cpp:860-880 | a new task has an empty ledger |
| Tasks.TaskState.Reserve | scheduler/src/executor.cpp:543-554 | a release is refused by a cancelled task, counted as overflow by a full one, and reserved otherwise |
| Tasks.TaskState.Return | scheduler/src/executor.cpp:556-570 | a reservation that found no room in the group is given back |
| Tasks.TaskState.Dispatch | scheduler/src/executor.cpp:609-659 | the reservation is released and the job discarded, dropped as late or started |
| Tasks.TaskState.Finish | scheduler/src/executor.cpp:677-732 | the run is counted, with its failure and its deadline miss under the policy |
| JobQueue.RootIsTop | scheduler/src/executor.cpp:183 | in a heap no job is more urgent than the root |
| JobQueue.GroupQueue.constructor | scheduler/src/executor.cpp:183 | an empty heap |
| JobQueue.GroupQueue.Push | scheduler/src/executor.cpp:556-573 | the heap stays a heap and holds one job more |
| JobQueue.GroupQueue.Pop | scheduler/src/executor.cpp:592-607 | the job handed out is beaten by none that remains, in priority, release and number; exactly the others remain, again as a heap |
| JobQueue.OutranksRest | scheduler/src/executor.cpp:592-607 | the root of a heap with distinct numbers beats every other job by priority, release or number |
| JobQueue.GroupQueue.SiftDown | scheduler/src/executor.cpp:592-607 | the heap is repaired below a replaced root without changing its jobs |
| JobQueue.PopTakesTop | scheduler/src/executor.cpp:592-607 | as a bag of jobs the heap is the group's queue: what Pop hands out is a top of that queue and what it leaves is the queue without it |
| PeriodicRelease.Scan | scheduler/src/executor.cpp:772-800 | the catch-up loops of one task compute the closed form |
| PeriodicRelease.ScanOnGrid | scheduler/src/executor.cpp:772-800 | one scan emits exactly the points passed up to 1024 of them, counts the others as skipped, and leaves the next release in (now, now + period] whenever it was at most now + period |
| PeriodicRelease.GridIsCovered | scheduler/src/executor.cpp:772-800 | over any sequence of scans, emitted releases are points of the start grid in strictly rising order and every point passed is emitted once or counted once; with a steady clock the next release lies in (now, now + period] after the last scan |
| Runtime.ReservationHasRoom | scheduler/src/executor.cpp:543-573 | if the capacities fit the group, whoever holds a reservation finds room in the group's queue |
| Runtime.StepKeeps | scheduler/src/executor.cpp:522-737 | every region of callers and workers keeps ledger, books and tokens of every task |
| Runtime.Reachable | scheduler/src/executor.cpp:522-737 | the invariant holds in every reachable state |
| Mailbox.ExecutorLedger | scheduler/src/executor.cpp:543-735 | every release has one fate, reservations are the jobs not yet dispatched and within capacity, and misses are warnings, degradations and drops, at every moment of every run |
| Mailbox.MailboxBooks | runtime/src/node.cpp:126-217 | taken and queued messages are received messages in order, under DropOldest the queue is a suffix of what was received, and the counters balance for subscriptions and services, at every moment of every run |
| Mailbox.KeptIsNeverLost | runtime/src/node.cpp:126-149 | under DropNewest, while it is open, what a mailbox has taken and still holds only grows at the end, over any run |
| Mailbox.CallbacksNeverOverlap | runtime/src/node.cpp:159-195 | with any number of workers no two threads are inside ProcessOne of one subscription or service, its closing Notify included |
| Mailbox.NoLostWakeup | runtime/src/node.cpp:126-195 | if the capacities fit the group, an open subscription or service with messages is scheduled and has exactly one activation |
| Mailbox.NotifySucceeds | scheduler/src/executor.cpp:522-576 | under the same condition every Notify of an open subscription or service succeeds while the executor runs |
| Mailbox.DispatchIsMostUrgent | scheduler/src/executor.cpp:592-607 | every job dispatched has a higher priority than every job left waiting, or the same and an earlier release, or the same and a smaller number |
| Mailbox.LostForEver | runtime/src/node.cpp:183-195 | after a lost wakeup no later message of that subscription or service reaches its callback, until Close or Stop |
| Mailbox.LoseWakeup | runtime/src/node.cpp:183-195 | if the capacities do not fit, a run exists that loses the wakeup |
| Mailbox.WakeupsAreSafeIffCapacityFits | runtime/src/node.cpp:126-487 | no run ever loses a wakeup of a subscription or a service if and only if the capacities of the group's tasks fit its queue |
| TaskCounters.CountersAreEvents | scheduler/src/executor.cpp:543-735 | the counters of a task are the sum of the events of the run: a job is dropped as late or counted as a miss exactly when it was taken up or ended more than its deadline after its release |
| TaskCounters.SwitchesAreActions | scheduler/src/executor.cpp:522-607 | a task is cancelled, the executor stopped and the group stopping exactly if an action of the run said so |
| TaskCounters.MailIsEvents | runtime/src/node.cpp:126-195 | received, dropped and delivered are the sum of the events of the run, and the high watermark is the longest the queue has been |
| Service.StepKeeps | runtime/src/node.cpp:389-512 | every region of callers, handler and Close keeps one owner per call |
| Service.EveryCallHasOneOwner | runtime/src/node.cpp:389-512 | at most 64 calls queued, every admitted call in exactly one hand, no promise set twice, and after Close the queue stays empty with every call it found answered Closed |
| ServiceOutcomes.AdmittedIffRoom | runtime/src/node.cpp:389-412 | a call is refused if and only if the run has closed the service or 64 calls wait; otherwise it is the next call, last in the queue, and a Notify is due exactly if none was under way |
| ServiceOutcomes.OldestIsTaken | runtime/src/node.cpp:439-449 | ProcessOne takes the call admitted first of those still waiting |
| ServiceOutcomes.CallsAreSettled | runtime/src/node.cpp:389-512 | each promise holds what the run gave it, at most once; it is Closed exactly if Close found the call queued; a call is taken back exactly if its caller's Notify failed while it was queued; and when nothing is under way each call was answered or taken back, never both |
| Service.DrainIsRun | runtime/src/node.cpp:489-512 | the drain loop of Close is a run of single answers |
| Service.Find | runtime/src/node.cpp:416-421 | the first position of a call, or the end |
| Service.ServiceState.constructor | runtime/src/node.cpp:389-427 | a new service is open, idle and empty |
| Service.ServiceState.Invoke | runtime/src/node.cpp:389-412 | a call is refused when expired, closed or full, queued otherwise, and whether a Notify is due |
| Service.ServiceState.Withdraw | runtime/src/node.cpp:413-427 | a call whose Notify failed is taken back if it is still queued |
| Service.ServiceState.Take | runtime/src/node.cpp:439-449 | the oldest call is handed to the handler |
| Service.ServiceState.Check | runtime/src/node.cpp:475-487 | the flag stays exactly if the service is open and has more |
| Service.ServiceState.Close | runtime/src/node.cpp:489-512 | closed, and every queued call answered Closed |
| ServiceWakeups.HandlerNeverOverlaps | runtime/src/node.cpp:439-487 | whichever Notify calls succeed, at most one thread is inside ProcessOne of a service at every moment of every run |
| ServiceWakeups.MoveStrandsIff | runtime/src/node.cpp:413-487 | one move leaves queued calls with no activation if and only if it is a refused Notify whose withdrawal leaves other calls queued, or a refused Notify at the end of ProcessOne |
| ServiceWakeups.StrandedIffBroken | runtime/src/node.cpp:389-487 | a run strands queued calls at some moment if and only if one of its moves is of those two kinds; otherwise an open service with calls queued has exactly one activation at every moment |
| ServiceWakeups.StrandedForEver | runtime/src/node.cpp:398-427 | a service left so never wakes again: until Close no later call notifies it and no queued call is answered |
| ServiceWakeups.CallsGetStranded | runtime/src/node.cpp:389-427 | a concrete run of three steps that does it by the refused Notify of a caller |
| ServiceWakeups.RearmGetsLost | runtime/src/node.cpp:475-487 | a concrete run of six steps that does it by the refused Notify of ProcessOne |
| RpcChannel.ClientChannel.constructor | transport/src/dds_rpc_engine.cpp:286-298 | a new channel is open with an empty table |
| RpcChannel.ClientChannel.Insert | transport/src/dds_rpc_engine.cpp:897-913 | a request enters the table of an open channel, unless its identifier is there already |
| RpcChannel.ClientChannel.Remove | transport/src/dds_rpc_engine.cpp:915-923 | a request leaves the table |
| RpcChannel.ClientChannel.Complete | transport/src/dds_rpc_engine.cpp:549-561 | a waiting request gets its result and leaves the table; any other identifier changes nothing |
| RpcChannel.ClientChannel.Close | transport/src/dds_rpc_engine.cpp:693-714 | the first call completes every waiting request as Closed and empties the table; a second does nothing |
| RpcWire.ReadOfCopy | transport/src/dds_rpc_engine.cpp:104-125 | a text copied into a bounded buffer is read back up to its first NUL |
| RpcWire.NameIsExact | transport/src/dds_rpc_engine.cpp:97-125 | a valid service name comes back whole, so the name filter is exact whatever the topic |
| RpcWire.AcceptsRequest | transport/src/dds_rpc_engine.cpp:607-623 | an endpoint takes a request if and only if it serves that name, the identity is set, time is left and the message fits |
| RpcWire.ReadOfResponse | transport/src/dds_rpc_engine.cpp:515-547 | a channel reads a response if and only if it has its name and its identity and the message fits; then a good message is that message, a bad one is error 12, and a failure keeps its code and its detail cut to 1024 characters and at its first NUL |
| RpcWire.ResponseInNumbers | transport/src/dds_rpc_engine.cpp:515-547 | between an endpoint and the channel that asked: a version 1 message within both limits arrives as it is, one too large for the channel alone is dropped, and everything else arrives as the failure it is |
| RpcWire.SamplesInNumbers | transport/src/dds_rpc_engine.cpp:625-690 | both samples field by field: protocol 1, the name ended by NULs, the identity as asked, status 0, 12 or the code of the failure |
| RpcWire.OtherProtocols | transport/src/dds_rpc_engine.cpp:515-623 | a sample of another protocol than 1 is taken by no endpoint and by no channel |
| RpcClient.StepKeepsLocal | transport/src/dds_rpc_engine.cpp:852-992 | every region of a client keeps: an active call is in the table exactly while it has no result, and a returned one never is |
| RpcClient.InsertNeverCollides | transport/src/dds_rpc_engine.cpp:905-912 | the collision of identifiers that Request guards against never happens |
| RpcClient.StepExtends | transport/src/dds_rpc_engine.cpp:852-992 | no step changes a call's request, a result in the table, or a return |
| RpcClient.NumbersAreConsecutive | transport/src/dds_rpc_engine.cpp:889-894 | requests are numbered from 1 without a gap |
| RpcClient.RefusalInNumbers | transport/src/dds_rpc_engine.cpp:852-894 | what Request returns at once: 1 for a bad name, version or size, 5 for a deadline already past, 4 for a closed engine, and nothing otherwise |
| RpcClient.StepFails | transport/src/dds_rpc_engine.cpp:895-991 | a step makes a call fail if and only if its time is up, its channel is closed or its write failed, with code 5, 4 or that of the write |
| RpcEngine.StepKeeps | transport/src/dds_rpc_engine.cpp:481-691 | every step of clients, endpoints and network keeps the origin of every sample and result |
| RpcEngine.ResponsesAreCorrelated | transport/src/dds_rpc_engine.cpp:852-992 | over any loss, repetition, reordering and shared topics, what Request returns from its table is either status 4 after its channel was closed, or what the outcome of a dispatch of that very request by that very service means, in numbers |
| RpcEngine.SuccessIsGenuine | transport/src/dds_rpc_engine.cpp:533-547 | a message returned is the message a handler returned for that request, unchanged |
| RpcEngine.CompletedOnce | transport/src/dds_rpc_engine.cpp:549-566 | a result and a return, once there, are the same at every later moment |
| RpcEngine.FailsExactlyIf | transport/src/dds_rpc_engine.cpp:852-992 | over any run a call fails with a code if and only if a step of the run makes it fail so, and the first such step decides for good |
| RpcEngine.ArrivedIsReturned | transport/src/dds_rpc_engine.cpp:965-991 | once its result is in the table a written call never times out or fails in any later step, and returns that result |
| RpcEngine.PendingIsExact | transport/src/dds_rpc_engine.cpp:895-991 | the table holds exactly the calls under way and not completed, so no return path leaves an entry behind |
| RpcEngine.ReceiveIsExact | transport/src/dds_rpc_engine.cpp:515-566 | a response completes a call if and only if it is for that engine, that service and a waiting request, and fits, and then with what the handler's outcome means; any other leaves the whole world unchanged |
| RpcEngine.ClosedChannelWakesAll | transport/src/dds_rpc_engine.cpp:693-714 | after CloseClient has cleared a channel its table stays empty for ever and every caller waiting on it can return |
| Membership.TablesStayBounded | distributed/src/discovery.cpp:198-310 | members and fences keep to their limits, no node is both, and received, inserted and created balance, in every reachable state |
| Membership.EvictedIsOldest | distributed/src/discovery.cpp:198-227 | an expiring member is never already fenced (so lines 201-207 are not reached), its new fence has its generation and the full timeout, and a fence pushed out is an oldest one |
| Membership.StepKeeps | distributed/src/discovery.cpp:185-352 | every region keeps bounds, disjointness, books and times |
| Membership.OldIncarnationStaysOut | distributed/src/discovery.cpp:185-310 | after a node expires, until the fence timeout passes or its fence is pushed out, no announcement of its generation or an older one changes anything about it, and it is a member only with a newer one |
| Membership.AdmittedIff | distributed/src/discovery.cpp:262-295 | a node that is not a member is admitted if and only if there is room and no live fence at its generation or a later one |
| Membership.MembersOnlyRise | distributed/src/discovery.cpp:296-310 | while a node stays a member its record changes only to a strictly later (generation, sequence) |
| Membership.RecordIsLatest | distributed/src/discovery.cpp:262-310 | the record of a member is, endpoint and time included, the last announcement of the run that it took, and the run has brought no later one since |
| Membership.ExpiredIffSilent | distributed/src/discovery.cpp:339-352 | a member can expire if and only if its last new announcement is further back than the lease |
| Membership.AnnouncingKeepsMember | distributed/src/discovery.cpp:296-352 | a member that announces itself anew in time, every time, is a member at the end of any run |
| Membership.AnnouncementFate | distributed/src/discovery.cpp:262-310 | what an announcement of another node counts as, in numbers: stale, rejected by a live fence, a repetition, dropped for want of room, or taken |
| DiscoveryTables.Tables.constructor | distributed/src/discovery.cpp:170-183 | empty tables and counters |
| DiscoveryTables.Tables.ExpireGenerationFences | distributed/src/discovery.cpp:185-196 | exactly the fences whose time has come are erased and counted |
| DiscoveryTables.Tables.FindOldest | distributed/src/discovery.cpp:209-214 | a fence that no other precedes in time of expiry |
| DiscoveryTables.Tables.Remember | distributed/src/discovery.cpp:198-227 | a fence is raised or made, pushing out an oldest one when the table is full |
| DiscoveryTables.Tables.Admit | distributed/src/discovery.cpp:269-293 | a node that is not a member is rejected as fenced, dropped for want of room, or added with its fence lifted |
| DiscoveryTables.Tables.Refresh | distributed/src/discovery.cpp:296-309 | a member ignores older and repeated announcements and takes newer ones with their endpoint and time; Membership.RecordIsLatest says what that makes of a whole run |
| DiscoveryTables.Tables.Accept | distributed/src/discovery.cpp:262-310 | the announcement is ignored, or counted and dealt with after overdue fences are erased |
| DiscoveryTables.Tables.ExpireMembers | distributed/src/discovery.cpp:339-352 | exactly the members whose lease is over leave, by a run of single expiries in the order of the table |
| DiscoveryPacket.NumberOfBigEndian | distributed/src/discovery.cpp:60-85 | loading a stored number gives it back |
| DiscoveryPacket.BigEndianOfNumber | distributed/src/discovery.cpp:60-85 | storing a loaded number gives the bytes back |
| DiscoveryPacket.Load | distributed/src/discovery.cpp:73-85 | the loading loop computes the big-endian number |
| DiscoveryPacket.Store | distributed/src/discovery.cpp:60-71 | the storing loop writes the big-endian bytes in place and leaves the rest of the buffer alone |
| DiscoveryPacket.BuildAnnouncement | distributed/src/discovery.cpp:94-119 | writing field after field into a zeroed buffer builds the datagram |
| DiscoveryPacket.ParseOfBuild | distributed/src/discovery.cpp:94-154 | a proper announcement is read back from its datagram |
| DiscoveryPacket.PacketLayout | distributed/src/discovery.cpp:94-119 | the datagram byte by byte: ARD1, version 1, the two lengths, zero, generation, sequence and port big-endian, and the two texts |
| DiscoveryPacket.ParseAccepts | distributed/src/discovery.cpp:121-154 | a datagram is read as an announcement if and only if the announcement is proper and the datagram is the one built for it except for byte 7 |
| DiscoveryPacket.BuildOfParse | distributed/src/discovery.cpp:121-135 | building what was read gives the datagram back if and only if its byte 7 is zero |
| ComponentHealth.EvaluateJudges | health/src/health_monitor.cpp:286-353 | after its evaluation a component counted as working is within all limits, a degraded one over a load limit, and it is failed exactly if it was or its process, recovery or signs of life ran out |
| ComponentHealth.EvaluateSettles | health/src/health_monitor.cpp:286-353 | evaluating the result again with the same findings changes and logs nothing |
| ComponentHealth.ReasonIsFirst | health/src/health_monitor.cpp:286-353 | which state and reason Evaluate gives: a dead process, an overdue recovery, no heartbeat, no progress, backlog, misses, in that order |
| ComponentHealth.ReportsAreLawful | health/src/health_monitor.cpp:159-249 | reports log only lawful edges and never lower a sequence of the present generation |
| ComponentHealth.EvaluateIsLawful | health/src/health_monitor.cpp:68-93 | evaluation logs exactly the edge it makes, and leaves a failed component alone |
| ComponentHealth.RecoveryIsLawful | health/src/health_monitor.cpp:402-550 | the three regions of Recover log lawful edges; only the last raises the generation, by one |
| HealthRuns.StepKeeps | health/src/health_monitor.cpp:124-550 | every step of reports, evaluations and interleaved recoveries keeps log, counts and recoveries consistent |
| HealthGuarantees.LogIsUnbroken | health/src/health_monitor.cpp:68-93 | the log of a component is an unbroken chain of lawful edges from Starting to its state, and its last entry tells the state, reason, detail and time the component shows; Failed is left only for Recovering, which is entered only from Failed |
| HealthGuarantees.RecoveriesAreCounted | health/src/health_monitor.cpp:402-444 | the generation is the registered one plus the successful recoveries, and start hooks called are at most the attempts, which are at most the policy's limit |
| HealthGuarantees.SuccessesAreDistinct | health/src/health_monitor.cpp:525-550 | no two successful recoveries replace the same generation, and the present generation runs the process its recovery started |
| HealthGuarantees.SequencesNeverFall | health/src/health_monitor.cpp:159-213 | over any run generations never fall, nor heartbeat and progress sequences within one |
| HealthGuarantees.EvaluateIsSound | health/src/health_monitor.cpp:251-355 | whatever the order of the loop, every component ends up judged as its limits, probe and times say |
| HealthGuarantees.EvaluateIsIdempotent | health/src/health_monitor.cpp:251-355 | a second Evaluate with the same findings, in any order, changes and logs nothing |
| HealthGuarantees.OrphanedIffStale | health/src/health_monitor.cpp:525-535 | a finished recovery leaves a started process neither installed nor cleaned up if and only if it returned StaleGeneration |
| HealthGuarantees.OrphanedIffOvertaken | health/src/health_monitor.cpp:392-550 | between the Recover that begins a recovery and the Finish that ends it, the actions decide: its process is left behind if and only if some Evaluate or failing recovery dropped the component and no later Recover took it up again, or another recovery of the same generation finished first |
| HealthGuarantees.OrphanHappens | health/src/health_monitor.cpp:525-535 | a concrete run in which that happens |
| HealthReports.MonitorShowsReports | health/src/health_monitor.cpp:124-550 | in every reachable state a component is registered, and shows generation, process, heartbeat, progress, load, attempts and their times, exactly as the actions of the run say |
| HealthReports.EvaluateGoesByReports | health/src/health_monitor.cpp:251-355 | Evaluate fails or degrades a component by those reports alone: exactly if its present process was found dead, or the last heartbeat, progress or Recover is further back than its limit, or the last reported load exceeds its |
| HealthReports.ReportsAreAnswered | health/src/health_monitor.cpp:159-249 | a report is accepted if and only if it names the present generation and its sequence has not fallen; otherwise which of the two is told; only a first heartbeat changes the state |
| HealthReports.RecoveryMayBeginIff | health/src/health_monitor.cpp:405-434 | Recover may begin if and only if the component is failed, was recovered less often than its policy allows and has a generation left |
| HealthReports.RecoveryKeepsReason | health/src/health_monitor.cpp:428-434 | a recovery keeps the reason of the failure and logs one transition |
| HealthMonitor.Monitor.constructor | health/src/health_monitor.cpp:119-120 | no components and an empty log |
| HealthMonitor.Monitor.Transit | health/src/health_monitor.cpp:68-93 | the record changes and one transition is logged, unless state, reason and detail are as they were |
| HealthMonitor.Monitor.Register | health/src/health_monitor.cpp:124-157 | invalid and repeated registrations are refused and change nothing; any other is the Register step of the model |
| HealthMonitor.Monitor.Heartbeat | health/src/health_monitor.cpp:159-187 | an unknown component is reported; otherwise the call is the Heartbeat step of the model, with the verdict of HealthReports.ReportsAreAnswered |
| HealthMonitor.Monitor.Progress | health/src/health_monitor.cpp:189-213 | likewise for progress, where only a rise moves the time |
| HealthMonitor.Monitor.ReportBacklog | health/src/health_monitor.cpp:215-231 | likewise for the backlog |
| HealthMonitor.Monitor.ReportDeadlineMisses | health/src/health_monitor.cpp:233-249 | likewise for the deadline misses |
| HealthMonitor.Monitor.EvaluateComponent | health/src/health_monitor.cpp:286-353 | the first finding that applies decides |
| HealthMonitor.Monitor.Evaluate | health/src/health_monitor.cpp:251-355 | the loop is the Evaluate step of the model in the order in which it visits the table, and it returns exactly what it logged |
| HealthMonitor.Monitor.BeginRecovery | health/src/health_monitor.cpp:405-434 | granted exactly to a failed component with attempts and a generation left, and then the Recover step of the model; refused without effect otherwise |
| HealthMonitor.Monitor.FailRecovery | health/src/health_monitor.cpp:436-445 | the Fail step of the model, for the call whose locals it is given |
| HealthMonitor.Monitor.Install | health/src/health_monitor.cpp:525-550 | the Finish step of the model, which installs exactly if the component is still recovering at the generation to be replaced |
| HealthMonitor.Monitor.RunStart | health/src/health_monitor.cpp:464-523 | the hooks and time checks in their order: the first trouble is reported, and each hook that succeeds is its step of the model |
| HealthMonitor.Monitor.Recover | health/src/health_monitor.cpp:392-550 | one uninterrupted call is a run of the model; it renews the component exactly if it may be recovered and nothing goes wrong, and leaves it failed with the first trouble otherwise |

## Left out

- Sockets, polling, file descriptors, sync calls, thread creation and joins: a file is a byte sequence, a network a growing set of samples, a thread an actor of the step relation.
- DDS entities and their quality of service, and the shared-memory transport: foreign code that is not part of this model.
- CPU affinity, real-time priorities and priority inheritance: operating-system calls.
- The length-prefixed RPC of the distributed module and the shared-memory wire header: fixed layouts that would repeat the trace codec.
- Metrics, JSON, structured logs, percentiles, the stability tracker, benchmarks, samples and the TCP publish/subscribe baseline: text, floating point, drivers or easy counters.
- TraceReplay.Replayer.Replay: does not model sleeping, speed and drift, which depend on the clock and not on the trace.
- Failed allocations elsewhere than in Record: the writer and the replayer report theirs as errors, which the model does not.
- Runtime.StepKeeps: models one callback group with a fixed set of tasks; several groups share nothing but the worker threads, tasks added later start with an empty ledger, and periodic tasks enter through Notify with their release time. What a service's handler answers is left to Service.
- Service.EveryCallHasOneOwner: leaves the executor free, so that a Notify may succeed or fail and ProcessOne may run at any time; ServiceWakeups adds the activations, and Runtime the executor itself.
- LoanedSubscriber, which differs from Subscriber only in the type of what it queues.
- RpcEngine.ResponsesAreCorrelated: takes for granted that engines have distinct GUIDs, that request identifiers do not wrap at 64 bits, and that the network invents no samples; the hash behind a topic is an arbitrary function and advertising is left out.
- Membership.OldIncarnationStaysOut: takes the clock to be steady; sending announcements and the list of peers are left out.
- DiscoveryPacket.ParseAccepts: which addresses are numeric IPv4 is an arbitrary predicate.
- HealthRuns.StepKeeps: the probes of Evaluate are arbitrary, which covers every snapshot they may have been taken from.
- 64-bit counters are unbounded, except in the trace codec and the CRC.
- Real-time liveness: that an activation exists is proved, not that the operating system runs it in time.
