# A verified model of the EbbRT native runtime

EbbRT is a library operating system. This project models the parts of its native
runtime whose correctness rests on invariants that no single function shows, and proves
them in Dafny. `dafny verify dfyconfig.toml` checks all of it.

Code that changes state step by step is modelled as classes and methods with loops, each
proved against a function or a property of values; protocols are step systems, and what
is proved of them holds in every state of every run.

| files | component | main results |
|---|---|---|
| `EventManager.dfy`, `Rcu.dfy`, `RcuEvents.dfy`, `RcuProgress.dfy` | generations, parity counters and the token of the event manager | grace period on any number of cores, also told from actions alone; a callback is ready after exactly two visits of the token, which goes round the ring; counters exact up to leaked activations; what a leaked activation stops |
| `NetEth.dfy` | pending packets of an ARP entry | every packet is sent exactly once, resting on the grace period |
| `RcuList.dfy`, `RcuTraversal.dfy`, `RcuReclaim.dfy` | list with readers under way, and its nodes deleted through DoRcu | traversals end, repeat nothing and miss nothing; a node is used again only out of every reader's reach, resting on the grace period |
| `SpinBarrier.dfy` | reusable barrier | nobody passes early, nobody is stuck |
| `TcpSeq.dfy`, `Tcp.dfy`, `TcpQueue.dfy`, `TcpProofs.dfy`, `TcpSaid.dfy`, `TcpOutput.dfy`, `TcpInput.dfy`, `TcpReceiver.dfy`, `TcpDeadlines.dfy`, `TcpDelivery.dfy`, `TcpStash.dfy`, `TcpTrimming.dfy`, `TcpFin.dfy`, `TcpWindows.dfy`, `NetTcp.dfy` | TCP connection | over every run: send conservation, exactly what fits goes out and what is due goes out again, what every arrival decides in every state, timers and deadlines, what is sent is what was said, in-order delivery and exactly when trimming or an early FIN breaks it |
| `NetTcpHandler.dfy` | window-limited sender | nothing lost or reordered, held back only at a full window; every accepted byte is acknowledged, in flight, pending or held |
| `Buddy.dfy`, `PageRanges.dfy`, `PageAllocator.dfy`, `EarlyPageAllocator.dfy`, `PageBoot.dfy` | page allocators | partition and sound tags from any ranges, canonical blocks and exactly when initialization leaves them, exact frames, the hand-over between the two |
| `NetChecksum.dfy`, `NetIp.dfy` | Internet checksum | the fast routine is the sum of section 1 of RFC 1071; header and echo rewrites |
| `IOBuf.dfy`, `ChainSplit.dfy`, `Messenger.dfy`, `SocketManager.dfy` | buffer rings and stream splitters | rings refine flat bytes; reframing is exact from header to object |
| `Division.dfy`, `Options.dfy`, `Pages.dfy`, `Sequences.dfy` | quotients and remainders, optional values, page size, sequences without repetition | used by the above |

`Tcp.dfy` has the connection as a value and one function per operation; `NetTcp.dfy` has
the entry with its fields, proves each operation equal to its function, and every
operation called from outside to keep the invariant; the theorems are about runs of the
functions. A run consists of arrivals, timer events and actions of
the application, and an arrival carries what the handler does in each upcall, so that the
theorems also cover applications that send or close from inside one.

Where the code does not do what a reader might expect, the model follows the code and
says exactly when it does:

- Resuming a context through ActivateContext never undoes one counter increment
  (src/native/EventManager.cc:285-295). The counters are exact up to these, and
  `Rcu.ActivationFreezesGeneration` with `Rcu.StallIsForever` says what one of them stops; `Rcu.ResumingStalls` is a run that
  does.
- Splitting a free range at both ends of a node drops what lies above the upper end
  (src/native/EarlyPageAllocator.cc:137-145): `EarlyPageAllocator.NothingLostIff`, with an
  input in `EarlyPageAllocator.SetNidRangeLoses`.
- Taking more pages than a range starting near frame 0 has can pass the unsigned test
  (src/native/EarlyPageAllocator.cc:105-108): `EarlyPageAllocator.TakenIff`, with an input in
  `EarlyPageAllocator.AllocateTooMany`.
- Ranges of one node that lie side by side are filled one by one (src/native/Numa.cc:31,
  src/native/PageAllocator.cc:27-51), so buddies can stay apart and a free run is not
  found. `PageRanges.CanonicalIff` with `PageRanges.UnjoinedIff` says exactly when, and
  `PageBoot.SideBySideIsNotFound` is an input. Partition and tags hold all the same.
- The reply to an echo request whose bytes other than type and checksum are all zero does
  not verify (src/native/NetIcmp.cc:33-42): `NetIp.ReplyVerifiesIff`.
- Trimming to the receive window after stashed segments were appended cuts into the middle
  (src/native/NetTcp.cc:812): `TcpTrimming.StepInOrderIff`, with a run in
  `TcpTrimming.TrimmingGarbles`. In-order delivery is stated for arrivals that fit, or that
  had nothing appended.
- A FIN without data is taken in even when bytes before it are missing, and so is one whose
  data was trimmed, because the flag that is cleared is a copy
  (src/native/NetTcp.cc:806-811, 846-853): `TcpFin.FinIsCompleteIff`, with a run in
  `TcpFin.EarlyFinLosesData`.
- The room in the send window wraps when the peer shrinks its window below what is
  outstanding (src/native/NetTcp.cc:506): `TcpOutput.SendAcceptedIff`, with a run in
  `TcpWindows.ShrunkWindowLetsThrough`.
- The window is taken from an older segment that acknowledges everything, because snd_una
  has moved before the test (src/native/NetTcp.cc:627-631): `TcpInput.NewsIff`, with a
  run in `TcpWindows.OldSegmentSetsWindow`.
- The receive window test admits one number more than its comment says
  (src/native/NetTcp.cc:693-697): `TcpInput.InWindowIff`.
- A SYN from a peer that advertises a window of 0 halts the machine, because the answer
  does not fit (src/native/NetTcp.cc:958-967): `TcpInput.AcceptMeaning`.
- A read of no bytes waits when nothing has arrived (libs/socket/SocketManager.cc:46):
  `SocketManager.TcpSession.Read`, with an input in `SocketManager.EmptyReadWaits`.

## Model

| member | source | states |
|---|---|---|
| `EventManager.EventManager.constructor` | src/native/EventManager.h:110-114 | a core starts in generation 0 with empty counters and queues |
| `EventManager.EventManager.EnterEvent` | src/native/EventManager.cc:116-120 | the event is inside under the generation returned, and the two counters stay the numbers of events inside by the parity they entered under |
| `EventManager.EventManager.LeaveEvent` | src/native/EventManager.cc:121-122 | an event leaves under the generation it entered in, whatever the generation is by then; its counter cannot underflow and the counters stay exact |
| `EventManager.EventManager.ReceiveToken` | src/native/EventManager.cc:391-395 | from here on events enter under the other parity, so the pending counter can only fall; the counters stay exact across the wrap at 2^64 |
| `EventManager.EventManager.PassToken` | src/native/EventManager.cc:379-389 | the token is sent exactly when there is another core, and is here exactly when it was not sent |
| `EventManager.EventManager.FireTimer` | src/native/EventManager.cc:398-415 | no callback is lost, doubled or overtaken: those handed out, aged and current are together the old ones in order; the aged ones are handed out exactly when no event of the pending parity is inside, and the token is kept or sent, never both |
| `Rcu.FireCompletesIff` | src/native/EventManager.cc:399-400 | on the core with the token the zero test succeeds exactly when no event of the pending generation is live or leaked there |
| `Rcu.StepHolds` | src/native/EventManager.cc:116-128 | every step of every core keeps the invariant: one token, live generations only the current and the pending one, exact counters, tickets waiting only for cores the token has yet to drain |
| `Rcu.RunHolds` | src/native/Main.cc:148 | the invariant holds in every state of every run on any number of cores, before and after boot hands out the token |
| `Rcu.CountersExact` | src/native/EventManager.cc:118-122 | in every reachable state each parity counter is the number of live events of that parity plus the increments that activations leaked, and no decrement underflows |
| `Rcu.TokenUnique` | src/native/EventManager.cc:379-395 | in every reachable state after boot there is exactly one token, armed or in flight |
| `Rcu.DrainedAtToken` | src/native/EventManager.cc:398-406 | when the token completes at a core, no event a waiting ticket waits for is live at or before that core in ring order |
| `Rcu.AgedIsQuiet` | src/native/EventManager.cc:402-411 | a ticket that is aged at the core of the token has nothing left to wait for |
| `Rcu.GracePeriod` | src/native/EventManager.cc:398-424 | grace period: in every run, when a callback starts, no event that was live on any core when it was queued is still live |
| `RcuEvents.EventsFollow` | src/native/EventManager.cc:116-122 | what every step of every run does to the live events and the counters of all cores: a task or a callback that begins is one event more and one count more under the current parity of its core, finishing is the only way to end, resuming a context counts once more, and nothing else changes either |
| `RcuEvents.FinishUndoes` | src/native/EventManager.cc:116-122 | finishing takes back the very count that beginning made, whatever the generation is by then |
| `RcuEvents.BlockedIff` | src/native/EventManager.cc:280-310 | an event is blocked exactly from the saving of its context to its resumption, and a live event that is not blocked can finish |
| `RcuEvents.BegunHasFinished` | src/native/EventManager.cc:398-424 | the grace period told from actions alone: whatever began before DoRcu was called, on any core, a task or itself a deferred callback, has finished before the callback starts |
| `RcuEvents.CounterIs` | src/native/EventManager.cc:116-122 | at every point of every run each counter is the number of live events of its parity and the number of contexts resumed under it |
| `Rcu.RunsOnceInOrder` | src/native/EventManager.cc:402-411 | per core the callbacks that have started are exactly a prefix of those queued, so each starts at most once and in order |
| `Rcu.TicketRemembered` | src/native/EventManager.cc:422-424 | what a ticket waits for is fixed when it is queued |
| `Rcu.EventPersists` | src/native/EventManager.cc:116-122 | an event that is live stays live until it finishes |
| `Rcu.StallIsForever` | src/native/EventManager.cc:398-414 | once a leaked increment counts in the pending parity of the core with the token, no callback on any core becomes ready again in the rest of the run |
| `Rcu.ActivationFreezesGeneration` | src/native/EventManager.cc:280-310 | after one ActivateContext on a core its generation advances at most once more in any continuation, and then the core holds the token for good |
| `Rcu.ResumingStalls` | src/native/EventManager.cc:280-310 | a run of five steps on one core, with one context resumed, that ends stalled |
| `RcuProgress.ReadyAfterTwoVisits` | src/native/EventManager.cc:398-424 | progress: in every run a callback deferred on a core is ready or has run exactly when the timer of that core has completed twice since; FireCompletesIff says when it completes |
| `RcuProgress.PlacedStep` | src/native/EventManager.cc:398-411 | only a completed visit moves a callback on, by one queue |
| `RcuProgress.TokenTravels` | src/native/EventManager.cc:379-395 | boot gives the token to core 0, a completed visit sends it to the next core of the ring, and nothing else moves it |
| `RcuReclaim.Admitted` | src/native/NetTcp.cc:349-355 | erase, DoRcu, delete: a push of a node that is new or has been deleted meets what the list asks of it, that its grace period is over |
| `RcuReclaim.CallbackIsSafe` | src/native/EventManager.cc:402-411 | when the callback of an erased node starts, every traversal that was under way at the erasure is over |
| `RcuReclaim.StepHolds` | src/native/NetTcp.cc:349-355 | every step of the event manager, the writer and the readers keeps the invariant that ties list nodes to tickets |
| `RcuReclaim.RunHolds` | src/native/NetTcp.cc:349-355 | so it holds in every interleaving of all three |
| `RcuReclaim.ReuseIsSafe` | src/native/NetTcp.cc:349-355 | in every run a node is used again only when no traversal under way can come across it |
| `RcuReclaim.DeletedIsReusable` | src/native/NetTcp.cc:349-355 | in every run a node handed to DoRcu cannot be pushed until its callback has started, and from then on it can |
| `RcuReclaim.TraversalsStayCorrect` | src/native/RcuList.h:76-83 | in every run, with erased nodes deleted through DoRcu, a traversal visits no node twice, visits only what was in the list since it began, is never stuck, takes at most as many steps as there were publications before it, and at its end has visited every node that was in the list from its beginning to its end |
| `OperationQueue.OperationQueue.constructor` | src/native/NetEth.h:71-73 | an empty queue |
| `OperationQueue.OperationQueue.Push` | src/native/NetEth.h:80-89 | a new node is linked in front and the linked list holds the operation followed by the old ones |
| `OperationQueue.OperationQueue.Move` | src/native/NetEth.h:75-78 | the nodes change hands without being touched: the new queue holds everything in order and the old one nothing |
| `OperationQueue.OperationQueue.InvokeAndClear` | src/native/NetEth.h:93-101 | every operation is invoked once, from the front |
| `Arp.CallbackSeesNoSender` | src/native/NetEth.h:121-130 | when the deferred sweep starts, no sender that had read a null address is still under way |
| `Arp.RuntimeHolds` | src/native/NetEth.h:111-132 | every step of the runtime underneath, the start of the deferred sweep included, keeps the accounting |
| `Arp.EntryStepHolds` | src/native/NetEth.cc:71-80 | every step of a sender or of SetAddr keeps every submitted operation in exactly one place |
| `Arp.RunHolds` | src/native/NetEth.cc:49-80 | the invariant holds in every interleaving of senders, the setter and the runtime |
| `Arp.SubmittedIs` | src/native/NetEth.cc:49-80 | at every point of every run what counts as submitted is the operation of the creator and of every send so far |
| `Arp.ExactlyOnce` | src/native/NetEth.h:111-132 | of all operations sent, told from the actions of the run, none is invoked twice, one not yet invoked is on its way, and when the sweep is done every one has been invoked exactly once |
| `Arp.SendIsDone` | src/native/NetEth.cc:71-80 | a packet for a known address is sent at once and once, one for an unknown address is with its sender |
| `Arp.AddressIs` | src/native/NetEth.h:111-120 | an entry has the address that was set last, and the sweep begins with the first one |
| `Arp.SweepProceeds` | src/native/NetEth.h:111-132 | once an address is set every step of the sweep brings it nearer its end, nothing else moves it, and it can go on unless it waits for its callback |
| `Arp.WaitingIsQueued` | src/native/NetEth.h:121-130 | while the deferred sweep waits its callback is queued on some core and has not started |
| `Arp.UndisturbedPushes` | src/native/NetEth.h:80-89 | a sender that loads the head and swaps with nobody in between has pushed its operation in front |
| `Arp.NoPushAfterSweep` | src/native/NetEth.h:126-130 | from the start of the deferred sweep on nothing is pushed, so sweeping in place is safe |
| `RcuList.RcuHList.constructor` | src/native/RcuList.h:68 | an empty list |
| `RcuList.RcuHList.PushFront` | src/native/RcuList.h:108-118 | the list is the new node in front of the old list, with all links and back links right |
| `RcuList.RcuHList.Erase` | src/native/RcuList.h:173-180 | the list is the old one without the node, with all links and back links right |
| `RcuList.UnlinkRemoves` | src/native/RcuList.h:177 | the one store through pprev takes the node out of the list |
| `RcuList.PublishPrepends` | src/native/RcuList.h:112-114 | the store to head publishes the new node |
| `RcuList.RelinkRepairs` | src/native/RcuList.h:115-117 | the last store of either operation repairs the one back link still owed |
| `RcuReaders.StepHolds` | src/native/RcuList.h:108-118 | every single store of a writer and every load of a reader keeps what readers rely on |
| `RcuReaders.RunHolds` | src/native/RcuList.h:173-180 | so it holds in every interleaving of one writer at a time with any readers |
| `RcuTraversal.BeginsOnFirst` | src/native/RcuList.h:76-83 | a traversal stands on the first node of the list, and is over at once only if there is none |
| `RcuTraversal.MissesNothing` | src/native/RcuList.h:45-53 | a traversal that has ended has visited every node that was in the list in every state from its beginning to its end |
| `RcuTraversal.VisitsOnlyListed` | src/native/RcuList.h:45-53 | it visits no node that was not in the list at some time since it began |
| `RcuTraversal.TraversalEnds` | src/native/RcuList.h:45-53 | it visits no node twice, every step but the last visits one more, and it visits at most as many as the list had grown before it began |
| `RcuTraversal.TraversalCorrect` | src/native/RcuList.h:45-53 | all of these in every interleaving of one writer at a time with any readers |
| `RcuTraversal.PushPublishes` | src/native/RcuList.h:108-118 | a push takes four stores whatever readers do, its node is first in the list from the third on, and nothing else happens to the list |
| `RcuTraversal.EraseUnlinks` | src/native/RcuList.h:173-180 | erasing takes two stores, and the first takes exactly that node out of the list |
| `RcuReaders.ReaderNeverStuck` | src/native/RcuList.h:76-83 | a reader that has not ended can always take another step, and stands on a node it may reach |
| `RcuReaders.OutOfReach` | src/native/RcuList.h:173-180 | a node whose grace period is over is out of every reader's reach, so it can be pushed again |
| `SpinBarrier.StepHolds` | src/SpinBarrier.h:15-25 | every atomic step of every participant keeps the invariant, counters wrapping modulo 2^32 |
| `SpinBarrier.ScheduleHolds` | src/SpinBarrier.h:15-25 | so it holds under every schedule over any number of rounds |
| `SpinBarrier.HistoryIs` | src/SpinBarrier.h:15-25 | the calls and returns that are counted are the steps of a participant into and out of Wait |
| `SpinBarrier.NobodyPassesEarly` | src/SpinBarrier.h:15-25 | no participant returns from its k-th Wait before all n have entered their k-th Wait |
| `SpinBarrier.NeverStuck` | src/SpinBarrier.h:15-25 | in every reachable state some participant is not waiting, and one that is not waiting moves on with its next step |
| `SpinBarrier.ReleasedLeaves` | src/SpinBarrier.h:22-23 | when some participant has returned more often, one that still spins leaves the next time it looks |
| `TcpSeq.CompareMeaning` | src/native/NetTcp.cc:473-487 | on positions less than 2^31 apart each signed comparison is the comparison of the positions, across any wrap |
| `TcpSeq.BetweenMeaning` | src/native/NetTcp.cc:469-471 | a number lies between two others exactly when it stands for a position between theirs |
| `NetTcp.TcpEntry.Connect` | src/native/NetTcp.cc:84-138 | an active open leaves a valid entry: the queue holds exactly what is unacknowledged and what is in flight has a running timer |
| `NetTcp.TcpEntry.Accept` | src/native/NetTcp.cc:378-463 | so does a passive open, whatever the application does when it is told |
| `NetTcp.TcpEntry.ClearQueue` | src/native/NetTcp.cc:893-902 | the loop erases the longest prefix of completely acknowledged segments |
| `NetTcp.TcpEntry.CountFitting` | src/native/NetTcp.cc:942-952 | the loop counts exactly the pending segments up to the first that ends beyond the edge of the send window |
| `NetTcp.TcpEntry.Output` | src/native/NetTcp.cc:939-982 | sends exactly the pending segments that end inside the window of the peer, in positions of the stream, each once and in order |
| `NetTcp.TcpEntry.Fire` | src/native/NetTcp.cc:277-307 | the timer drops nothing and keeps the entry valid; past the deadline everything in flight goes out once more from its first segment on, as far as the window reaches, and what is in flight has a running timer again |
| `NetTcp.TcpEntry.Do` | src/native/NetTcp.cc:26-33 | every action of the application keeps the entry valid, its timer armed for what is in flight |
| `NetTcp.TcpEntry.Upcall` | src/native/NetTcp.cc:646-649 | the handler acts through its pcb while the entry waits |
| `NetTcp.TcpEntry.StashSegment` | src/native/NetTcp.cc:784-786 | an ordered map gains the entry unless its key is taken |
| `NetTcp.TcpEntry.DrainStash` | src/native/NetTcp.cc:791-801 | one ascending pass takes what follows the payload and keeps the rest |
| `NetTcp.TcpEntry.TakePayload` | src/native/NetTcp.cc:803-822 | the payload with what it makes deliverable, trimmed as the code trims it, is handed over and counted |
| `NetTcp.TcpEntry.PayloadPhase` | src/native/NetTcp.cc:770-844 | what a payload does in every state |
| `NetTcp.TcpEntry.Input` | src/native/NetTcp.cc:511-519 | every arrival in every state, upcalls included, keeps the entry valid, its timer armed for what is in flight |
| `TcpQueue.EnqueueTiling` | src/native/NetTcp.cc:920-936 | a new segment extends the tiling of sequence space |
| `TcpQueue.ExtendTiling` | src/native/NetTcp.cc:1035-1045 | so does a FIN put on the last pending segment |
| `TcpQueue.AckTiling` | src/native/NetTcp.cc:893-910 | clearing up to an acknowledged position leaves a tiling whose first segment ends beyond it, and nothing when all is acknowledged |
| `TcpQueue.DropConcat` | src/native/NetTcp.cc:904-910 | clearing one queue after the other is clearing the two together |
| `TcpProofs.AckPosition` | src/native/NetTcp.cc:625-627 | an acceptable ACK number stands for exactly one position between what was acknowledged and what was sent |
| `TcpProofs.AckOfSyn` | src/native/NetTcp.cc:533 | the signed test used while a SYN is unanswered admits only such numbers |
| `TcpProofs.NewSegment` | src/native/NetTcp.cc:923-933 | no segment that may be queued is too long for its 16-bit length |
| `TcpProofs.PushMoves` | src/native/NetTcp.cc:939-982 | output and timer only move segments between the queues, and arm the timer for whatever goes into flight |
| `TcpProofs.FireKeeps` | src/native/NetTcp.cc:277-307 | a timer event keeps the whole invariant |
| `TcpProofs.UserStepKeeps` | src/native/NetTcp.cc:174-190 | so does every action of the application, also from inside an upcall |
| `TcpProofs.AllAcked` | src/native/NetTcp.cc:664-677 | when the FIN and all before it are acknowledged both queues are empty |
| `TcpProofs.InputKeeps` | src/native/NetTcp.cc:511-519 | so does every arrival in every state |
| `TcpProofs.StepKeeps` | src/native/NetTcp.cc:277-307 | so does every event |
| `TcpProofs.RunGood` | src/native/NetTcp.cc:378-463 | the invariant holds at every point of every run of every connection, opened either way |
| `TcpProofs.SendConservation` | src/native/NetTcp.cc:891-956 | send conservation: what was sent is what is acknowledged and dropped, then what is in flight, then what is pending; snd_una lies inside the first queued segment; the numbers count it across any number of wraps |
| `TcpSaid.StepSays` | src/native/NetTcp.cc:174-190 | every event adds to what was sent exactly the bytes of the sends it accepts, upcalls included |
| `TcpSaid.SentIsWhatWasSaid` | src/native/NetTcp.cc:174-190 | at every point of every run what was sent is the SYN, then exactly the bytes the application said, in order, then its FIN |
| `TcpProofs.SegmentsCarryTheStream` | src/native/NetTcp.cc:939-956 | every queued segment, sent or sent again, carries the octets of its own place in the stream |
| `TcpProofs.RunGrows` | src/native/NetTcp.cc:623-644 | over every stretch of a run nothing sent is forgotten and nothing acknowledged is taken back |
| `TcpProofs.TimerNeverLost` | src/native/NetTcp.cc:310-328 | at every point of every run, segments in flight mean a deadline is set and the timer runs |
| `TcpProofs.TeardownMeaning` | src/native/NetTcp.cc:846-871 | FIN-WAIT-2 and TIME-WAIT mean our FIN was sent and acknowledged and both queues are empty; CLOSE-WAIT, CLOSING, LAST-ACK and TIME-WAIT mean a FIN came in; a FIN was sent exactly in the closing states, and what was sent is a SYN, bytes, and that FIN |
| `TcpProofs.NothingLeftBehind` | src/native/NetTcp.cc:343-356 | a destroyed connection has no segment and no timer |
| `TcpOutput.OutputMeaning` | src/native/NetTcp.cc:939-982 | for every good connection, in positions of the tiling: every segment that Output sends ends at or before acked + wnd and if anything is left pending its first segment ends beyond it; each goes on the wire once; it halts exactly when nothing is in flight and the first does not fit; one acknowledgement goes out alone only when no segment does |
| `TcpOutput.Retransmits` | src/native/NetTcp.cc:277-307 | in every run: past the deadline a timer event puts the first segment in flight on the wire once more, and all that follow inside the window, or halts because it does not fit; before the deadline only what is pending goes out; the connection ends exactly past a time-wait deadline |
| `TcpOutput.NothingThatFitsWaits` | src/native/NetTcp.cc:511-519 | in every run, after an arrival, a timer event, an Output or a close, whatever is still pending lies beyond the window |
| `TcpOutput.InFlightWasSent` | src/native/NetTcp.cc:945-956 | at every point of every run what is in flight has been on the wire, and nothing leaves the history of the wire |
| `TcpOutput.SendAcceptedIff` | src/native/NetTcp.cc:174-184 | in every run a send is accepted exactly when it is no longer than a segment and fits the window, or the window is smaller than what is outstanding; its bytes join what was sent and nothing goes out yet |
| `TcpWindows.ShrunkWindowLetsThrough` | src/native/NetTcp.cc:502-508 | a run in which one byte is out, the peer shrinks its window to 0, and the largest segment is accepted |
| `TcpInput.ArrivalHears` | src/native/NetTcp.cc:599-644 | in every run, in positions: an arrival acknowledges exactly up to the position of its number when that is one sent and not below what was acknowledged, and nothing else does; and exactly when its window is taken |
| `TcpInput.NewsIff` | src/native/NetTcp.cc:625-644 | an acceptable arrival brings the window when it acknowledges all that was sent or is not older than the one the window was last taken from |
| `TcpWindows.OldSegmentSetsWindow` | src/native/NetTcp.cc:629-631 | a run in which the window is taken from a segment older than the one it was taken from last |
| `TcpInput.InWindowIff` | src/native/NetTcp.cc:692-695 | the window test in offsets: a non-empty window also admits an arrival that starts right behind it |
| `TcpInput.ArrivalDecides` | src/native/NetTcp.cc:522-887 | in every run and every state, whatever the application does in the upcalls: whether an arrival ends the connection, which state it leads to, whether its data is given, kept or refused, what comes of its FIN, what the next number expected is, and when it is answered at once |
| `TcpInput.ActionDecides` | src/native/NetTcp.cc:1012-1030 | in every run the application changes the state only by letting go: CLOSE-WAIT to LAST-ACK, ESTABLISHED and SYN-RECEIVED to FIN-WAIT-1, and before the SYN is answered it halts |
| `TcpInput.UserStepsMove` | src/native/NetTcp.cc:646-649 | the same for everything done inside an upcall |
| `TcpInput.ConnectMeaning` | src/native/NetTcp.cc:84-138 | an active open has its SYN on the wire with a running timer |
| `TcpInput.AcceptMeaning` | src/native/NetTcp.cc:378-463 | a passive open answers at once, unless the SYN came with data or the window of the peer is 0: then it halts |
| `TcpDeadlines.TimeWaitEnds` | src/native/NetTcp.cc:861-870 | at every point of every run TIME-WAIT, and no other state, has that deadline, with a running timer; it is a minute after TIME-WAIT was entered or the FIN last repeated; the first timer event past it, and no other, ends the connection |
| `TcpDeadlines.DeadlineIff` | src/native/NetTcp.cc:912-917 | at every point of every run there is a retransmission deadline exactly when something is in flight |
| `TcpReceiver.EverythingIsAcknowledged` | src/native/NetTcp.cc:970-974 | at every point of every run the last acknowledgement on the wire is for everything that was taken in |
| `TcpReceiver.ClosedWindowCounts` | src/native/NetTcp.cc:816-820 | at every point of every run an open receive window has its full size, and as long as a closed one is not opened, what it has left and what was given since make up what it was |
| `TcpFin.FinIsCompleteIff` | src/native/NetTcp.cc:846-856 | in every run, when the FIN that ends the stream of the peer is taken in, the application has been given the whole stream exactly when its segment starts at the next byte expected and the window holds its data |
| `TcpFin.EarlyFinLosesData` | src/native/NetTcp.cc:846-856 | a run in which one byte and the FIN arrive in the other order: both are acknowledged and the byte is never given |
| `TcpDelivery.StashKeeps` | src/native/NetTcp.cc:784-786 | the stash stays ascending and holds only pieces of the peer's stream |
| `TcpDelivery.OnePassIsEnough` | src/native/NetTcp.cc:791-801 | one ascending pass leaves no stashed segment that starts where the taken ones end |
| `TcpDelivery.DrainedIsNext` | src/native/NetTcp.cc:791-801 | what a pass takes is what the stream has next |
| `TcpTrimming.TakeInOrderIff` | src/native/NetTcp.cc:803-822 | on a stream of distinct bytes, what has been given stays a prefix of the stream exactly when payload and drained bytes fit the window or nothing was drained |
| `TcpTrimming.StepInOrderIff` | src/native/NetTcp.cc:511-822 | the same for a whole arrival, from the state it meets, acknowledgement, upcalls and output included |
| `TcpTrimming.TrimmingGarbles` | src/native/NetTcp.cc:803-822 | a run from the opening on in which every arrival is a piece of the stream of the peer and what the application is given is not a prefix of it |
| `TcpDelivery.NoFrontTrim` | src/native/NetTcp.cc:701-706 | no arrival that passes the window test starts before the next byte expected, so the front is never trimmed |
| `TcpDelivery.TakeOrdered` | src/native/NetTcp.cc:816-822 | an in-sequence arrival extends the prefix handed over and the numbers keep count |
| `TcpDelivery.NothingWaits` | src/native/NetTcp.cc:791-818 | if the window holds it all, nothing left in the stash starts at rcv_nxt |
| `TcpDelivery.InOrderDelivery` | src/native/NetTcp.cc:692-822 | in-order delivery: until a FIN is taken in, at every point of every run the application has been given a prefix of the peer's stream and rcv_nxt counts exactly those bytes |
| `TcpStash.StashedKeys` | src/native/NetTcp.cc:784-786 | the stash gains the key of an arrival, loses none and gains no other |
| `TcpStash.StashedLookup` | src/native/NetTcp.cc:784-786 | an entry that is there stays as it is, and a second one of the same key is dropped |
| `TcpStash.DrainAccounts` | src/native/NetTcp.cc:791-801 | a pass takes a key out of the stash only together with its bytes |
| `TcpStash.UndrainedLookup` | src/native/NetTcp.cc:791-801 | what a pass leaves in the stash it leaves as it was |
| `TcpStash.EarlyArrivalIsStashed` | src/native/NetTcp.cc:780-790 | an arrival beyond the next byte expected is in the stash afterwards, with nothing handed over |
| `TcpStash.NothingStashedIsLost` | src/native/NetTcp.cc:780-822 | what is in the stash at some point of a run is still there at every later point, or its first byte has been given at its place in the stream |
| `NetTcpHandler.TcpHandler.constructor` | src/native/NetTcpHandler.h:20-21 | nothing queued, nothing accepted |
| `NetTcpHandler.WindowAfter` | src/native/NetTcp.cc:503-509 | modulo 2^32 and without any assumption on what is in flight, a send within the window takes exactly its length off the window |
| `NetTcpHandler.RoomAfter` | src/native/NetTcp.cc:503-509 | and off what may still be outstanding, and its bytes join what was sent |
| `NetTcpHandler.TcpHandler.Round` | src/native/NetTcpHandler.h:51-107 | one round sends the first bytes, at most window and largest segment, and holds the rest; it asks for another round only after progress, and stops with something held only when the window is used up |
| `NetTcpHandler.TcpHandler.SendNow` | src/native/NetTcpHandler.h:50-114 | the rounds end, and what went to the pcb with what is held is the chain, in order |
| `NetTcpHandler.TcpHandler.Send` | src/native/NetTcpHandler.h:47-123 | bytes given to the pcb followed by bytes held are the bytes accepted, in order; something is held only when the window is used up or something was held before, and then the pcb is left alone |
| `NetTcpHandler.TcpHandler.SendWindowIncrease` | src/native/NetTcpHandler.h:33-44 | what is held goes first; when nothing is left notification stops, the window opens and a pending shutdown sends the FIN behind everything accepted |
| `NetTcpHandler.TcpHandler.Shutdown` | src/native/NetTcpHandler.h:24-30 | with nothing held the FIN follows everything accepted at once, else it waits |
| `NetTcpHandler.TcpHandler.Arrive` | src/native/NetTcp.cc:511-519 | an arrival between calls of the handler keeps what the handler knows |
| `NetTcpHandler.TcpHandler.Tick` | src/native/NetTcp.cc:277-307 | so does a timer event |
| `NetTcpHandler.TcpHandler.ServeAll` | src/native/NetTcpHandler.h:24-123 | whatever the order of sends, window increases, shutdowns, arrivals and timer events: what was accepted is, in order, what is acknowledged and dropped, in flight, pending with the pcb and held here, nothing of it is taken back, and the FIN comes last |
| `Buddy.Nested` | src/native/PageAllocator.cc:133-163 | of two aligned blocks with a common frame one lies in the other |
| `Buddy.BuddyFacts` | src/native/PageAllocator.cc:149-161 | a block and its buddy are disjoint, of one size, and make up their parent |
| `Buddy.SplitPartition` | src/native/PageAllocator.cc:108-111 | splitting a block keeps the partition of the frames |
| `Buddy.MergePartition` | src/native/PageAllocator.cc:156-161 | so does merging a block with its buddy |
| `Buddy.BlockIffRun` | src/native/PageAllocator.cc:91-106 | in canonical form a free block of at least an order exists exactly when an aligned run of that many free frames does |
| `Buddy.CanonicalUnique` | src/native/PageAllocator.cc:142-167 | a set of frames has one canonical set of blocks |
| `Buddy.TagSound` | src/native/PageAllocator.cc:149-155 | although tags inside blocks go stale, the test on the buddy's page holds exactly when that very block is free |
| `Buddy.TrailingZerosOdd` | src/native/PageAllocator.cc:38 | the order of the next block is the number of trailing zero bits of its frame number |
| `Buddy.HighestBit` | src/native/PageAllocator.cc:47 | the order of the last blocks is the highest bit of what is left |
| `PageAllocator.PageAllocator.constructor` | src/native/PageAllocator.cc:21-52 | from ranges in order, touching or not: the free blocks partition exactly their frames, every tag is right, each range is filled with its own canonical form, and the whole is canonical exactly when no two ranges are left unjoined where they touch |
| `PageAllocator.PageAllocator.EarlyFreePage` | src/native/PageAllocator.cc:60-68 | a block of unmanaged frames is listed and tagged, whether or not its buddy is free |
| `PageAllocator.PageAllocator.AddGrowing` | src/native/PageAllocator.cc:35-42 | up to the divide the blocks fill the range without a gap and are canonical among themselves |
| `PageAllocator.PageAllocator.AddShrinking` | src/native/PageAllocator.cc:44-51 | from the divide on they fill the rest and stay canonical among themselves |
| `PageAllocator.PageAllocator.AddRange` | src/native/PageAllocator.cc:27-52 | one range, next to managed frames or not, adds exactly its frames, as the canonical partition of the range |
| `PageAllocator.PageAllocator.Search` | src/native/PageAllocator.cc:89-106 | the smallest order with a block below the limit, taken from its list, or none |
| `PageAllocator.PageAllocator.Split` | src/native/PageAllocator.cc:108-111 | upper halves go back to the lists until the block has the order asked for |
| `PageAllocator.PageAllocator.AllocLocal` | src/native/PageAllocator.cc:79-122 | from every valid state: none exactly when no free block is large enough below the limit, and then nothing changes; else the smallest such block is split and its first part handed out; no two free blocks become buddies |
| `PageAllocator.PageAllocator.Alloc` | src/native/PageAllocator.cc:124-131 | none exactly when no free block is large enough, and in canonical form exactly when no aligned run of free frames of that order exists; what is returned was such a run |
| `PageAllocator.PageAllocator.MergeOnce` | src/native/PageAllocator.cc:148-162 | one turn of the loop takes the buddy off its list and goes on with the parent |
| `PageAllocator.PageAllocator.Free` | src/native/PageAllocator.cc:142-167 | from every valid state: the frames are free again, partition and tags are kept, and no two free blocks are buddies that were not before, so canonical form is kept; all free blocks but one were free before, and that one holds the block given back |
| `PageAllocator.PageAllocator.FreePageNoCoalesce` | src/native/PageAllocator.cc:133-140 | the block is listed and its first page tagged |
| `PageAllocator.PageAllocator.SetPage` | src/native/SlabAllocator.cc:190 | a holder may write its own mark on the page of its block; the allocator stays valid, its buddy test included |
| `PageAllocator.FreeingAllRestores` | src/native/PageAllocator.cc:142-167 | from canonical form on, whatever was allocated and freed in between, freeing everything restores exactly the blocks of initialization |
| `PageAllocator.ValidatesAlways` | src/native/PageAllocator.cc:171-197 | the debug check of tags and overlaps holds in every valid state, canonical or not |
| `PageRanges.FirstBlock` | src/native/PageAllocator.cc:33-42 | the first block of the canonical form of a range has the order that the alignment of its start, its length and the largest order allow |
| `PageRanges.LastBlock` | src/native/PageAllocator.cc:44-51 | so has the last, by the alignment of its end |
| `PageRanges.UnjoinedIff` | src/native/PageAllocator.cc:27-51 | buddies are left on both sides of a boundary exactly when both ranges have room there for the largest block aligned at it, and that is below the largest order |
| `PageRanges.CanonicalIff` | src/native/PageAllocator.cc:27-51 | ranges filled one by one give a canonical whole exactly when no two of them are left unjoined |
| `PageBoot.HandOver` | src/native/EarlyPageAllocator.h:62-76 | whatever SetNidRange left, the ranges of one node are in order and hold exactly the free frames of that node |
| `PageBoot.InitNode` | src/native/PageAllocator.cc:21-52 | the allocator of a node as initialization leaves it: valid, with exactly the free frames of the node, and canonical exactly when none of its ranges are unjoined |
| `PageBoot.NormalJoined` | src/native/EarlyPageAllocator.cc:46-57 | in the normal form that every operation but SetNidRange keeps, no ranges are unjoined |
| `PageBoot.AllocateAndFree` | src/native/PageAllocator.cc:79-167 | two free buddies: one is allocated and freed, and the two are one block |
| `PageBoot.SideBySideIsNotFound` | src/native/Numa.cc:27-33 | two blocks of memory of one node side by side, through SetNidRange and initialization: a free run of eight frames is not found, and after one allocation and its free the free blocks are not those of initialization |
| `EarlyPageAllocator.EarlyPageAllocator.constructor` | src/native/EarlyPageAllocator.cc:28-31 | nothing free, nothing reserved |
| `EarlyPageAllocator.EarlyPageAllocator.ReserveRange` | src/native/EarlyPageAllocator.cc:162-166 | a frame stays usable exactly when it was and its page does not meet the new reserved interval |
| `EarlyPageAllocator.EarlyPageAllocator.Coalesce` | src/native/EarlyPageAllocator.cc:37-44 | two ranges that touch become one; the frames stay the same |
| `EarlyPageAllocator.EarlyPageAllocator.FreePageRange` | src/native/EarlyPageAllocator.cc:46-57 | exactly the frames of the range become free and no two ranges touch |
| `EarlyPageAllocator.EarlyPageAllocator.FreeMemoryRange` | src/native/EarlyPageAllocator.cc:60-97 | exactly the frames wholly inside the range that touch no reserved range become free, for any overlapping reserved list and with the 64-bit wrap of the end; the recursion ends |
| `EarlyPageAllocator.EarlyPageAllocator.AllocatePage` | src/native/EarlyPageAllocator.cc:99-123 | the frames returned were free exactly when the range they were cut from has that many pages; without a range the machine halts |
| `EarlyPageAllocator.TakenIff` | src/native/EarlyPageAllocator.cc:105-113 | the unsigned subtraction takes free frames exactly when the range is long enough |
| `EarlyPageAllocator.FivePassForTwo` | src/native/EarlyPageAllocator.cc:105-108 | a range of two pages that passes the test for five |
| `EarlyPageAllocator.AllocateTooMany` | src/native/EarlyPageAllocator.cc:99-123 | asked of that range, five frames are returned of which none was free |
| `EarlyPageAllocator.EarlyPageAllocator.SetNidRange` | src/native/EarlyPageAllocator.cc:129-160 | every free range becomes exactly its pieces; exactly the frames that the split does not drop stay free, in order, and the ranges inside the interval belong to the node |
| `EarlyPageAllocator.AssignedFree` | src/native/EarlyPageAllocator.cc:129-160 | the pieces of all ranges hold exactly the frames outside the dropped upper parts |
| `EarlyPageAllocator.NothingLostIff` | src/native/EarlyPageAllocator.cc:137-145 | no free frame is lost exactly when no free range reaches beyond both ends of the node |
| `EarlyPageAllocator.UpperHalfLost` | src/native/EarlyPageAllocator.cc:137-145 | a free range and a node inside it for which eight free frames are not kept |
| `EarlyPageAllocator.SetNidRangeLoses` | src/native/EarlyPageAllocator.cc:129-160 | assigning that node loses those frames |
| `NetChecksum.OnesSumStands` | src/native/NetChecksum.cc:171-174 | the reference sum of section 1 of RFC 1071 is congruent to the plain sum of words and zero only for zero |
| `NetChecksum.StandsUnique` | src/native/NetChecksum.cc:14-33 | 16-bit values that stand for the same sum are equal |
| `NetChecksum.AdcChainKeepsCarry` | src/native/NetChecksum.cc:79-103 | no carry is lost: the last adc of a chain that starts without carry cannot overflow |
| `NetChecksum.Add32Meaning` | src/native/NetChecksum.cc:35-41 | add and adc are addition with end-around carry |
| `NetChecksum.From32To16Stands` | src/native/NetChecksum.cc:26-33 | folding to 16 bits keeps what the value stands for |
| `NetChecksum.CsumFoldMeaning` | src/native/NetChecksum.cc:14-24 | the fold in the upper half is the complement of the plain fold |
| `NetChecksum.SumWords` | src/native/NetChecksum.cc:77-103 | 64-bit words, cache lines first, are all added |
| `NetChecksum.SumWide` | src/native/NetChecksum.cc:66-111 | from four-byte alignment on |
| `NetChecksum.SumEven` | src/native/NetChecksum.cc:57-116 | all 16-bit words for any alignment and length |
| `NetChecksum.Place` | src/native/NetChecksum.cc:120-124 | the sum is placed at the parity of its position by a byte swap |
| `NetChecksum.SumShift` | src/native/NetChecksum.cc:120-123 | starting one byte later is a byte swap |
| `NetChecksum.Csum` | src/native/NetChecksum.cc:44-125 | the result stands for the sum of the region at its position, for any address, length and offset |
| `NetIp.IpCsumNoFold` | src/native/NetChecksum.cc:127-136 | the buffers one after the other stand for the flattened bytes |
| `NetIp.IpCsum` | src/native/NetChecksum.cc:168-169 | for every cut into buffers, every address and every length: the complement of the one's-complement sum of the bytes |
| `NetIp.IpCsumRegion` | src/native/NetChecksum.cc:171-174 | the same for one region |
| `NetIp.PseudoCsumStands` | src/native/NetChecksum.cc:138-151 | the three words stand for the pseudo header |
| `NetIp.IpPseudoCsum` | src/native/NetChecksum.cc:159-166 | the complement of the sum of pseudo header and message |
| `NetIp.Adcl` | src/native/NetIp.h:41-44 | one add with carry keeps register and flag standing for the bytes so far |
| `NetIp.ComputeChecksum` | src/native/NetIp.h:35-59 | the complement of the one's-complement sum of a header of 5 to 15 words |
| `NetIp.HeaderRoundTrip` | src/native/NetIp.cc:123-128 | storing the checksum of a header with a zero field makes the checksum zero |
| `NetIp.ReplyInPlace` | src/native/NetIcmp.cc:33-42 | in place, only type and checksum change and the total stays the same modulo 2^16 - 1; the reply to a request that verifies does so exactly when some byte besides type and checksum is not zero |
| `NetIp.ReplyCongruent` | src/native/NetIcmp.cc:33-42 | the rewrite keeps the total the same modulo 2^16 - 1 |
| `NetIp.ReplyVerifiesIff` | src/native/NetIcmp.cc:22-42 | the reply to an accepted request verifies exactly when some byte besides type and checksum is not zero |
| `NetIp.BlankReplyRejected` | src/native/NetIcmp.cc:22-42 | the smallest request whose reply does not verify |
| `IOBuf.IOBuf.constructor` | src/IOBuf.cc:9-11 | a ring of one |
| `IOBuf.IOBuf.Advance` | src/IOBuf.h:54-58 | bytes dropped from the front of one buffer |
| `IOBuf.IOBuf.Retreat` | src/IOBuf.h:60-64 | bytes brought back in front |
| `IOBuf.IOBuf.TrimEnd` | src/IOBuf.h:66 | bytes dropped from the end; the view stays inside the buffer exactly when there was as much to drop, since the unsigned length wraps otherwise |
| `IOBuf.IOBuf.PrependChain` | src/IOBuf.cc:31-45 | two rings become one, the other chain at the end |
| `IOBuf.IOBuf.AppendChain` | src/IOBuf.h:77-79 | the other chain right after this buffer |
| `IOBuf.IOBuf.Unlink` | src/IOBuf.h:83-89 | the ring without the buffer, and a ring of one |
| `IOBuf.IOBuf.UnlinkAll` | src/IOBuf.cc:13-18 | the loop of the destructor ends, and leaves every buffer of the chain a ring of one |
| `IOBuf.IOBuf.UnlinkEnd` | src/IOBuf.h:93-104 | the ring is cut in two rings before the given buffer |
| `IOBuf.IOBuf.Pop` | src/IOBuf.h:108-115 | the head alone, and the rest as a ring if there is one |
| `IOBuf.IOBuf.CountChainElements` | src/IOBuf.cc:47-53 | the number of buffers in the ring |
| `IOBuf.IOBuf.ComputeChainDataLength` | src/IOBuf.cc:55-61 | the number of bytes in the chain |
| `IOBuf.IOBuf.AdvanceChain` | src/IOBuf.cc:20-29 | the chain holds its bytes but the first ones, buffer by buffer, in the same ring |
| `IOBuf.DataPointer.constructor` | src/IOBuf.h:128-134 | the cursor is at the first byte, empty buffers skipped |
| `IOBuf.DataPointer.SkipEmpty` | src/IOBuf.h:131-133 | on to the next byte, which after the last is the first; the loop ends |
| `IOBuf.DataPointer.GetNoAdvance` | src/IOBuf.h:144-172 | the next bytes, across buffers; beyond the last byte the ring starts over |
| `IOBuf.DataPointer.Copy` | src/IOBuf.h:151-168 | the copying loop, for any request |
| `IOBuf.DataPointer.Advance` | src/IOBuf.h:222-237 | the cursor moves on; exactly at the end it is at the front again |
| `IOBuf.DataPointer.Get` | src/IOBuf.h:208-212 | read and move on: what was to come is the bytes read and what is to come now |
| `ChainSplit.CutChain` | src/native/NetTcpHandler.h:73-100 | the bytes before and after the cut, and what is left of the window there |
| `ChainSplit.SplitChain` | src/native/Messenger.cc:92-127 | the message and the remainder, sharing the buffer across the boundary |
| `Messenger.Connection.constructor` | src/native/Messenger.cc:16-17 | nothing received |
| `Messenger.Connection.CheckPreallocate` | src/native/Messenger.cc:19-45 | the bytes held move to a buffer of the size of the message |
| `Messenger.Connection.Preallocated` | src/native/Messenger.cc:47-64 | the chunk fills the buffer; a full one is handed on |
| `Messenger.Connection.ProcessMessage` | src/native/Messenger.cc:66-75 | one message handed on |
| `Messenger.Connection.ProcessChain` | src/native/Messenger.cc:149-173 | whole messages come off the front until less than one is left |
| `Messenger.Connection.Receive` | src/native/Messenger.cc:135-174 | messages handed on followed by bytes held are the bytes received; what is held is less than a message |
| `Messenger.MessageRoundTrip` | src/native/Messenger.cc:227-235 | the header that Send builds from length, type and identifier makes a framed message whose length is 24 more than its data, and opening it gives back data, type and identifier |
| `Messenger.Reframed` | src/native/Messenger.cc:135-174 | whatever the cut into chunks: the messages handed on are those sent, once each and in order, and what is held is a strict prefix of the next |
| `Messenger.Connection.DeliversWhatWasSent` | src/native/Messenger.cc:135-174 | so for this connection at any time |
| `Messenger.PostsArrive` | src/native/Messenger.cc:66-75 | from Send to the receiving object, whatever the chunks: what was handed on are the first posts, each with its data, type and identifier, and all of them when all bytes have come |
| `SocketManager.TcpSession.constructor` | libs/socket/SocketManager.h:36-37 | no bytes and no read |
| `SocketManager.TcpSession.CheckRead` | libs/socket/SocketManager.cc:42-121 | a waiting read is answered exactly when there is something and enough, with exactly its length from the front |
| `SocketManager.TcpSession.Receive` | libs/socket/SocketManager.cc:15-27 | bytes join the end; a waiting read is answered exactly when there is enough |
| `SocketManager.TcpSession.Read` | libs/socket/SocketManager.cc:135-144 | a read is answered at once exactly when there is something and enough |
| `SocketManager.EmptyReadWaits` | libs/socket/SocketManager.cc:42-50 | on a fresh session a read of no bytes waits |
| `SocketManager.ReadsAreTheStream` | libs/socket/SocketManager.cc:42-121 | the answers in order are the stream cut at the lengths asked for |

## Left out

- Hardware, boot and interrupt code, hosted plumbing, ZooKeeper, the file system and the socket API: little logic of their own or foreign libraries.
- Futures and promises: what continuations promise under concurrency is not a safe claim about this code.
- Weak memory ordering: atomics are sequentially consistent steps.
- Object lifetimes and deleters: buffers are never freed in the model; what the destructor of a chain does to the links is `UnlinkAll`.
- ActivateContextSync and the switching of registers and stacks.
- RcuHList insert_before, insert_after and splices; the hash table on top of the list.
- NUMA policy: one node in the page allocator, so frees across nodes are not modelled.
- Checksum offload, segmentation offload, resets and other packets sent outside the queues: they do not change the connection.
- The urgent bit, simultaneous open, data with a SYN, shrinking a segment and probing a window: the code halts there and so does the model.
- DHCP, UDP, the virtio driver and the general and slab allocators: not part of this model.
- Rcu.GracePeriod: generations are compared modulo 2^64 as in the code; runs are of any finite length.
- Arp.ExactlyOnce: one entry and its first SetAddr; later calls of SetAddr only exchange the address.
- PageAllocator.PageAllocator.constructor: frames are below 2^31, where the 32-bit shifts of the code are defined.
- NetChecksum.SumWords: regions are shorter than 2^38 bytes, where the 32-bit count of 64-byte lines does not wrap (src/native/NetChecksum.cc:77-87).
- RcuReclaim.ReuseIsSafe: one list and one writer at a time, as the locks of the callers provide; the deleted node is the unit of reuse.
- RcuProgress.ReadyAfterTwoVisits: that the timers keep firing and events end is up to the machine and the applications.
- EarlyPageAllocator.EarlyPageAllocator.FreeMemoryRange: no page of the range is free already, which the source leaves to the caller.
- EarlyPageAllocator.EarlyPageAllocator.AllocatePage: frame numbers are those of 64-bit addresses; the halt without a range is the index after the last.
- IOBuf.IOBuf.TrimEnd: buffers and amounts are below 2^63 bytes, where a length that has wrapped cannot look like one that has not.
- NetTcp.TcpEntry.Send: a send that would bring 2^31 or more octets outstanding ends the modelled run, because 32-bit numbers no longer order them; the code has no such test.
- NetTcp.TcpEntry.TakePayload: the drained bytes alone fit the window. When they do not, the code trims more than the payload and into the header (src/native/NetTcp.cc:812, src/IOBuf.h:66): the assertion of the Advance behind it fails, or without assertions the unsigned length wraps.
- NetTcp.TcpEntry.PayloadPhase: halts in that case, so that runs end there.
- NetTcp.TcpEntry.Output: of a packet only its segment and acknowledgement number are modelled.
- NetTcp.TcpEntry.Receive: an arriving packet is one buffer with header and payload.
- TcpTrimming.StepInOrderIff: for streams of distinct bytes; equal bytes can make a wrong piece look right.
- TcpDelivery.InOrderDelivery: neither the peer's stream nor a window into it wraps 32 bits, because the stash compares numbers without wrapping; and each arrival taken in fits the window or finds nothing stashed behind it.
- TcpOutput.OutputMeaning: the send window is one that a 16-bit field and the scale can say, which every arrival from the wire keeps.
- TcpReceiver.EverythingIsAcknowledged: no segment has 2^16 bytes or more, and no data is stashed behind a FIN; with such data rcv_nxt would go back.
- TcpFin.FinIsCompleteIff: under the conditions of InOrderDelivery.
- TcpInput.ArrivalDecides: that a reset goes out where the code sends one is not modelled; a halt may also come from what the application does in an upcall.
- TcpDeadlines.TimeWaitEnds: that the armed timer fires is up to the machine.
- Arp.SweepProceeds: that senders and the setter are scheduled is up to the machine.
- NetTcpHandler.TcpHandler.Send: what goes out leaves less than 2^31 octets outstanding, the bound of the modelled connection.
- NetTcpHandler.TcpHandler.Arrive: the window increase that an arrival brings is a call of its own after the arrival, not a call from inside it; upcalls from inside are in the runs of Tcp.dfy.
- Messenger.Connection.Preallocated: the chunk does not reach beyond the message that is being filled; the code copies what it gets without looking (src/native/Messenger.cc:47-64).
- Messenger.Connection.ProcessMessage: finding the object by identifier and type is not modelled; that they arrive is `PostsArrive`.
- NetTcpHandler.TcpHandler, Messenger.Connection, SocketManager.TcpSession: their chains are sequences of buffers; that rings act like such sequences is what IOBuf.dfy proves.
- Messenger.Connection.ProcessChain: what is held stays below 2^32 bytes, where the counter of the splitter does not wrap.
- Messenger.Connection.Receive: while a preallocated buffer is being filled a chunk may not reach beyond its message, and what is held stays below 2^32 bytes; whether a chain is thinly filled is a parameter.
- SocketManager.TcpSession.Receive: what is held stays below 2^32 bytes, as for CheckRead.
- SocketManager.TcpSession.Read: what is held stays below 2^32 bytes, as for CheckRead.
- SocketManager.TcpSession.CheckRead: what is held stays below 2^32 bytes, where the counter of the splitter does not wrap; locks and the end of the session are not modelled.
