# eSalsa-MPI: wide-area protocols in Dafny

eSalsa-MPI joins several MPI jobs (clusters) into one virtual MPI world. Traffic within a
cluster is left to the site's MPI. Traffic between clusters goes from a process to its fixed
gateway, over a TCP stream to the peer gateway, and on to the destination; collectives across
clusters are rebuilt from such messages with one coordinator per cluster. This project models
that machinery and proves what it promises. `dafny verify dfyconfig.toml` checks everything.

## The parts

- **The message path.** `MessageQueue` is the linked queue, refined to a sequence. `Framing` is
  message framing as a function of the bytes; `Socket` is the non-blocking reader and writer, over
  pipes that move any number of bytes per call, and shows that fragmentation does not matter.
  `Gateway` is the outbound side of a gateway as atomic actions over queues, sockets and
  back-pressure counters; `GatewayProcess` shows that the real queues and sockets perform them.
  `PendingSends` is the list of sends in progress, `Mailbox` the receiving side with its queue of
  unexpected messages and wildcards. `Network` puts any number of processes, clusters and
  gateways, with any number of streams between them, together as a step system whose invariant
  yields non-overtaking; `EndToEnd` draws conclusions for receives, for loss and duplication and for
  routing; `Overtaking` says exactly when order is kept; `Delivery` shows that nothing gets stuck, by the
  measure of `PathWork` (with `Sums`).
- **Collectives.** `Choreography` is a transport that may buffer a send or make it wait for its
  receive, and a theory of when ranks that follow one script get stuck in it. `Alltoallv`, `Scan`,
  `Barrier`, `Allgatherv` and `WideReduce` (Reduce and Allreduce) model the loops of the
  collectives; each loop also records the sends and receives it makes, and these records are
  the programs that run in the transport. Its channels keep order, as `Network` does where at most
  one stream leads from a gateway to a cluster (`Overtaking.NonOvertakingIff`). `Calls` is about
  calls made one after the other, `Unordered` about channels that do not keep order.
  `Broadcasts`, `Buffers`, `Clusters` and `Reduction` hold what they share.
- **Kernels, groups, ranks, checksums.** `ReduceOps`, `Groups`, `Ranks` and `World`, `Crc16` (with
  `Words16` for 16-bit words).

## What the proofs found

- Scan is right for exactly those associative operations with a(bc) = b(ac), and Allreduce and
  Reduce for exactly the commutative ones. MPI 2.1 (sections 5.9 and 5.11) allows any associative
  operation; the code says that it assumes commutativity for Allreduce only (src/backend/empi.c:2205).
- Allreduce broadcasts before it receives. It needs buffered sends as soon as there are two
  clusters (src/backend/empi.c:2282); the exchanges of Alltoallv, Scan, Allgatherv and Reduce
  complete even without buffering.
- Allreduce calls in a row need channels that keep order, exactly if there are at least two calls and two
  clusters: a later broadcast carries the same tag and may be received in place of an earlier one
  (src/backend/empi.c:2282). The turns of Allgatherv and the exchange of Barrier do not need it.
- Messages between two clusters keep their order, at a gateway and from process to process, exactly
  if at most one stream leads from the sender's gateway to the receiver's cluster
  (src/backend/gateway.c:1060-1075). Nothing is lost or duplicated for any number of streams, and if
  every gateway has a stream to each other cluster, everything is delivered in the end, the throttles
  notwithstanding.
- group_range_incl is not, as its description has it (src/backend/group.c:509-512), group_incl of the
  expanded ranks. Where these are distinct ranks of the group, as MPI demands, the two agree exactly
  if the group is empty, or every triplet starts and ends in the group and no loop counter
  overflows. So it rejects (0, 3, 2) on a group of three, which stands for the ranks 0 and 2, because
  3 is no rank (src/backend/group.c:457).
- group_range_incl accepts any triplets on an empty group (src/backend/group.c:524-528), where its
  own description (src/backend/group.c:509-512) would have group_incl reject them. A group_incl
  that fails on a bad rank uses up a slot of the group table for good.
- The int that counts the forward loop of get_range (src/backend/group.c:469) overflows for some
  valid triplets, such as (1, 2, 2147483647) on a group of three: exactly when the first rank plus
  the number of ranks times the stride exceeds 2^31 - 1. Backward loops never overflow.
- get_global_rank ignores the cluster it is asked for (src/backend/communicator.c:482-507).
- The CRC of a list of blocks does not notice that two blocks were exchanged.

## Model

| member | source | states |
|---|---|---|
| Messages.CreateDataMessage | src/backend/messaging.c:376-400 | a data message carries the opcode, PIDs, communicator, source, destination, tag, count and payload it was built from, and its length field is its true size |
| Messages.HeaderLayout | src/backend/messaging.c:376-400 | at which offset of the message each field stands |
| Messages.LengthBytes | src/backend/gateway.c:1590-1595 | the length is least byte first in data messages and most significant byte first in server messages |
| Messages.MatchesCreated | src/backend/messaging.c:358-362 | a request for a communicator, source and tag is answered exactly by the messages created with these, -1 standing for any source or tag |
| MessageQueue.Queue.Enqueue | src/backend/message_queue.c:20-39 | the linked queue's contents grow by the message at the end; the list shape and the tail pointer stay right |
| MessageQueue.Queue.Dequeue | src/backend/message_queue.c:41-62 | takes the front message, or reports an empty queue |
| MessageQueue.Queue.Unlink | src/backend/message_queue.c:120-146 | removes exactly the node at position k, be it head, middle, tail or the only one |
| MessageQueue.Queue.DequeueMatching | src/backend/message_queue.c:104-154 | returns the first message that matches and removes only that one; otherwise nothing changes |
| MessageQueue.RemoveAtKeepsOthers | src/backend/message_queue.c:104-154 | matched removal loses one copy of one message, and every other class of messages keeps its order |
| Framing.FeedConcat | src/backend/gateway.c:1512-1628 | the reader's state depends on the bytes consumed, not on how they were split into reads |
| Framing.ParsePrefix | src/backend/gateway.c:1512-1628 | at every moment the delivered messages are a prefix of those written, and they and the partial buffer are the bytes consumed |
| Framing.RoundTrip | src/backend/gateway.c:1512-1628 | a stream of well-framed messages parses back to exactly those messages |
| Framing.FramedStreamsQualify | src/backend/gateway.c:1577-1590 | every prefix of such a stream announces lengths of at least a header, as the reader needs |
| Socket.SocketInfo.FillBuffer | src/backend/gateway.c:1534-1560 | the read loop: any sizes of partial reads, would-block, end of file or failure; every answer but the last has moved bytes, and the loop fills the buffer exactly if the last has too |
| Socket.SocketInfo.NonblockReadMessage | src/backend/gateway.c:1512-1628 | one call turns the reader's state into the parse of all bytes it consumed; it fails exactly if the socket's last answer is the end of the file or a failure, and queues one message and sets more exactly if that answer is some bytes, counting the message; a failed read queues nothing |
| Socket.SocketInfo.PrepareMessage | src/backend/gateway.c:1648-1671 | a message in progress stays; otherwise the front of the output queue becomes it, at position 0 |
| Socket.SocketInfo.NonblockWriteMessage | src/backend/gateway.c:1721-1792 | the bytes written are the next part of the message in progress; it is finished, and the counters drop, exactly with its last byte; the call fails exactly if the socket's last answer is a failure, and then leaves the message where it was |
| Gateway.ActionKeepsInv | src/backend/gateway.c:1648-1792 | every action of a gateway keeps conservation, exact counters and exact streams |
| Gateway.GatewayConserves | src/backend/gateway.c:1770-1789 | in every run, for any number of streams: each accepted message is in exactly one queue or socket or fully written; the counters are exact, never underflow, at most 128 messages and below 2^30 bytes plus the longest message |
| Gateway.IntakeOpenIff | src/backend/gateway.c:2348-2351 | the throttle never closes early: in every state of every run a message for a cluster can be taken exactly if fewer than 128 messages and fewer than 2^30 bytes are pending |
| Gateway.SoleStreamKeepsOrder | src/backend/gateway.c:1648-1671 | with a sole stream to a cluster, whatever the others have: what is finished, in progress and queued for it is, in order, exactly what was accepted for it |
| Gateway.TwoStreamsMayReorder | src/backend/gateway.c:1075-1075 | for any streams of which two lead to one cluster, a run exists in which a later message for it is completely written before an earlier one |
| Gateway.OrderKeptIff | src/backend/gateway.c:1060-1075 | messages for a cluster are completely written in the order accepted, in every run, exactly if at most one stream leads to it |
| GatewayProcess.Process.EnqueueDataMessage | src/backend/gateway.c:1920-1939 | the real queues and counters do what the pure Accept does |
| GatewayProcess.Process.PrepareSocket | src/backend/gateway.c:1648-1671 | the real queues and sockets do what the pure Prepare does |
| GatewayProcess.Process.WriteSocket | src/backend/gateway.c:1721-1792 | a call is Prepare followed by the writing of n bytes; a failed one, whose last answer from the socket is a failure, is Prepare alone |
| GatewayProcess.Process.ReceiveData | src/backend/gateway.c:2343-2363 | accepts messages one by one, each under the throttle, and stops only if MPI has no more, 16 are taken, 128 messages are pending or 2^30 bytes are |
| PendingSends.SendList.ForwardMpiMessage | src/backend/gateway.c:2190-2224 | refuses exactly the messages for other clusters; otherwise the message heads the pending list |
| PendingSends.SendList.ForwardDataMessages | src/backend/gateway.c:2228-2251 | all queued messages are sent in queue order, unless one is for another cluster, where it stops |
| PendingSends.SendList.PollRequests | src/backend/gateway.c:2142-2187 | whatever MPI answers for each send: the completed ones are unlinked and freed once; the others stay, in order and unfreed |
| PendingSends.SelectPartitions | src/backend/gateway.c:2142-2187 | what stays and what is freed is together what was pending |
| PendingSends.SelectMembers | src/backend/gateway.c:2142-2187 | what stays is exactly what MPI calls unfinished |
| Mailbox.Inbox.StoreMessage | src/backend/communicator.c:519-541 | a message for a live communicator goes to the end of its queue; one for a dead communicator is dropped |
| Mailbox.Inbox.FindPending | src/backend/communicator.c:556-559 | takes the earliest-arrived waiting answer, or there is none |
| Mailbox.FirstMatchIsEarliest | src/backend/message_queue.c:104-154 | the first match in a communicator's queue is the earliest unconsumed answer of the whole arrival history |
| Mailbox.Inbox.AwaitMatch | src/backend/messaging.c:610-655 | the arrivals loop is as if everything it took had been stored and then the earliest answer consumed; not blocking, it takes exactly the first arrival, if there is one, and succeeds exactly if that answers |
| Mailbox.Inbox.Receive | src/backend/messaging.c:548-582 | a blocking receive takes the earliest-arrived unconsumed message with the communicator, source and tag asked for, and no arrival behind that; every arrival is consumed once, waits in order, or was for no live communicator |
| Mailbox.Inbox.ProbeReceive | src/backend/messaging.c:610-655 | a request completes at most once, with the earliest match; a non-blocking probe that finds nothing waiting takes exactly one arrival, if there is one, and completes exactly if a waiting message or this arrival has the fields asked for |
| Mailbox.RecvRequest.FinalizeReceive | src/backend/messaging.c:658-672 | fails before completion, and hands the payload over on the first later call only |
| Network.StepKeepsInv | src/backend/gateway.c:1648-1792 | every step of any process or gateway keeps order at every stage of the path |
| Network.InitialExists | src/backend/gateway.c:1060-1075 | every configuration has an initial state, so there are runs |
| Network.GatewayOfRank | src/backend/messaging.c:315-315 | process r of a cluster hands its messages to gateway r modulo the number of gateways |
| Network.NonOvertaking | src/backend/messaging.c:487-538 | in every run, if at most one stream leads from p's gateway to q's cluster, what has arrived at q from p is, in order, a prefix of what p sent to q (MPI 2.1, section 3.5) |
| Overtaking.MayOvertake | src/backend/gateway.c:1075-1075 | with two streams there, from every initial state a run leads to q having got a later message of p and not the earlier one |
| Overtaking.NonOvertakingIff | src/backend/messaging.c:487-538 | messages of p arrive at q in the order p sent them, in every run, exactly if both are in one cluster or at most one stream leads there |
| EndToEnd.ReceivesInSendOrder | src/backend/messaging.c:548-582 | with at most one stream there, a receive of q that takes a message from p leaves no earlier matching message of p behind |
| EndToEnd.NoDuplicates | src/backend/gateway.c:1721-1792 | in every run, for any number of streams, each message of p to q has arrived at most once, and only if it was sent |
| EndToEnd.IdleMeansDelivered | src/backend/gateway.c:2228-2251 | once the path from p to q is idle, q has got exactly what p sent it, for any number of streams, and in order if at most one leads there |
| EndToEnd.NeverMisrouted | src/backend/gateway.c:2190-2203 | no gateway receives a message for another cluster, so the refusal in forwarding never strikes |
| Delivery.EventuallyDelivered | src/backend/gateway.c:2343-2363 | if every gateway has a stream to each other cluster: from every state of every run, without further sends, a run leads to a state in which all that was sent has arrived, whatever the throttles did |
| Delivery.EveryScheduleDelivers | src/backend/gateway.c:2343-2363 | and no scheduling prevents it: a run of steps that each move something on is no longer than the work left, and once no such step is possible, all that was sent has arrived, and in order where at most one stream leads |
| Delivery.StuckMeansArrived | src/backend/gateway.c:1648-1671 | no deadlock: a reachable state in which nothing can be moved on has delivered everything |
| Delivery.AdvancingRunsEnd | src/backend/gateway.c:1721-1792 | each such step takes something off the work left |
| Delivery.UnlinkedNeverDelivers | src/backend/gateway.c:1060-1075 | without a stream from p's gateway to q's cluster nothing of p ever arrives at q |
| Choreography.BufferedProgress | src/backend/empi.c:2282-2283 | ranks that follow one causal script never get stuck if sends are buffered |
| Choreography.RendezvousProgress | src/backend/empi.c:2437-2478 | ranks that follow a script of immediate pairs never get stuck, even if every send waits for its receive |
| Choreography.RunsEnd | src/backend/empi.c:2437-2478 | every run has at most as many steps as there are operations |
| Choreography.MessagesComplete | src/backend/empi.c:2437-2478 | both of these for a list of messages |
| Choreography.MessagesDelivered | src/backend/empi.c:2437-2478 | a finished run has delivered between every two ranks exactly their messages, in order |
| Calls.CallsComplete | src/backend/empi.c:2282-2283 | any sequence of calls never gets stuck if sends are buffered, and every run ends |
| Calls.TightCallsComplete | src/backend/empi.c:2437-2478 | nor without buffering, if every call goes by immediate pairs |
| Calls.CallsDeliver | src/backend/empi.c:2437-2478 | in every state of every run of any calls, each rank has got from each other one the data of the first call, then of the second and so on; all of it at the end |
| Alltoallv.WaAlltoallv | src/backend/empi.c:2410-2482 | the operations made, in order, and the receive buffer after pasting what arrives |
| Alltoallv.AlltoallvCompletes | src/backend/empi.c:2437-2478 | no deadlock for any number of ranks, even with rendezvous sends, and every run ends |
| Alltoallv.AlltoallvDelivers | src/backend/empi.c:2437-2478 | at the end slot j of rank k is slot k of rank j, and the rest of the buffer is unchanged (MPI 2.1, section 5.8) |
| Buffers.PasteAllScatters | src/backend/empi.c:2437-2478 | blocks that do not overlap all end up in their places, and nothing else changes |
| Buffers.CopyInto | src/backend/empi.c:2457-2457 | memcpy into a buffer |
| Scan.WaScan | src/backend/empi.c:2368-2396 | the operations made, in order, and the value merged from what arrives |
| Scan.ScanIsPrefixReduction | src/backend/empi.c:2368-2396 | rank p merges to the reduction over ranks 0..p (MPI 2.1, section 5.11) |
| Scan.ScanCorrectIff | src/backend/empi.c:2368-2396 | among associative operations this is right exactly for those with a(bc) = b(ac) |
| Scan.ScanWrongForFirst | src/backend/empi.c:2393-2393 | for the associative operation that takes its first operand it is wrong |
| Scan.ScanCompletes | src/backend/empi.c:2371-2390 | no deadlock even with rendezvous sends, and every run ends |
| Scan.ScanDelivers | src/backend/empi.c:2368-2396 | after any finished run rank p holds the reduction over ranks 0..p |
| Barrier.WaBarrier | src/backend/empi.c:1380-1437 | which rank makes which operations between the local barriers, in order |
| Barrier.TickKeepsInv | src/backend/empi.c:1366-1446 | entering, leaving and passing the local barriers keeps the invariant of the protocol |
| Barrier.ExchangeKeepsInv | src/backend/empi.c:1380-1437 | so does every send and receive of the coordinators |
| Barrier.BarrierSafe | src/backend/empi.c:1366-1446 | no process leaves round k before every process of every cluster has entered it, for any number of rounds (MPI 2.1, section 5.3) |
| Barrier.RoundsNotConfused | src/backend/empi.c:1380-1437 | a barrier message is received only in the round in which it was sent |
| Barrier.OneUnderWay | src/backend/empi.c:1380-1437 | between two coordinators at most one barrier message is under way in each direction, so the barrier does not depend on the order of messages, nor on the number of streams |
| Barrier.BarrierProgress | src/backend/empi.c:1366-1446 | once all have entered a round, something other than entering is possible until all have left it |
| Barrier.RunLessWork | src/backend/empi.c:1366-1446 | every move other than entering takes exactly one off the work that the calls under way have left |
| Barrier.RoundEnds | src/backend/empi.c:1366-1446 | after all have entered a round, at most 3 moves per process and 4 per coordinator but one follow without somebody entering another, and when none is possible all have left |
| Broadcasts.MessagingBcast | src/backend/messaging.c:585-601 | one send to every other coordinator, in order |
| Broadcasts.TurnsComplete | src/backend/empi.c:1799-1818 | coordinators taking turns to broadcast never deadlock, even with rendezvous sends |
| Broadcasts.TurnsDeliver | src/backend/empi.c:1799-1818 | at the end each has got the block of each other exactly once |
| Allgatherv.GetCountSums | src/backend/empi.c:1676-1696 | sums, offsets and total of the counts per cluster, the total being where the last group ends |
| Allgatherv.GatherLocal | src/backend/empi.c:1768-1793 | the coordinator's part of the buffer holds the blocks of its cluster in rank order, the rest is unchanged |
| Allgatherv.ExchangeGroups | src/backend/empi.c:1799-1818 | afterwards the buffer is the concatenation of all groups |
| Allgatherv.BlockPlace | src/backend/empi.c:1676-1696 | where the block of each rank is in the grouped buffer |
| Allgatherv.UngroupedGroups | src/backend/empi.c:1843-1850 | taking the blocks out of the grouped buffer undoes the grouping |
| Allgatherv.Ungroup | src/backend/empi.c:1843-1850 | with its advancing offsets the last loop copies exactly each rank's block of the grouped buffer to its place |
| Allgatherv.WaAllgatherv | src/backend/empi.c:1736-1850 | the coordinator's operations, in order, and the receive buffer of any rank, for whatever arrives in the announced sizes |
| Allgatherv.AllgathervCompletes | src/backend/empi.c:1799-1818 | the exchange of groups never deadlocks, even with rendezvous sends, and every run ends |
| Allgatherv.AllgathervDelivers | src/backend/empi.c:1799-1818 | after any finished run every coordinator has the groups of all clusters |
| Allgatherv.EveryRankGetsBlocks | src/backend/empi.c:1799-1850 | after any finished run and the closing local broadcast, block i of every rank of every cluster is rank i's data, and everything outside the blocks is unchanged (MPI 2.1, section 5.7) |
| Reduction.FoldPermuted | src/backend/empi.c:2249-2255 | for associative and commutative operations the order of the operands does not matter |
| Clusters.GroupingPermutes | src/backend/empi.c:2249-2255 | grouping the ranks by cluster loses none and repeats none |
| WideReduce.MergedIsReduction | src/backend/empi.c:2291-2310 | whichever cluster merges the others into its own result, each is merged exactly once |
| WideReduce.PartialsAddUp | src/backend/empi.c:2258-2258 | the reduction of the partial results is the reduction over all ranks |
| WideReduce.ReducesAll | src/backend/empi.c:2249-2315 | every coordinator's result is the reduction over all ranks (MPI 2.1, section 5.9) |
| WideReduce.RightIffCommutative | src/backend/empi.c:2205-2205 | among associative operations the coordinators agree, and the results are right, exactly for the commutative ones |
| WideReduce.TwoClusters | src/backend/empi.c:2291-2310 | two clusters of one rank combine their values in opposite orders |
| WideReduce.WaAllreduce | src/backend/empi.c:2272-2311 | the coordinator's operations, in order, and its merged result |
| Broadcasts.EagerCompletes | src/backend/empi.c:2282-2311 | broadcasting first and then receiving never deadlocks if sends are buffered, and every run ends |
| Broadcasts.EagerStuckIff | src/backend/empi.c:2282-2282 | without buffering it is stuck at once, exactly if there are at least two clusters |
| WideReduce.AllreduceDelivers | src/backend/empi.c:2272-2311 | after any finished run every coordinator holds the reduction over all ranks |
| Calls.AllreducesDeliver | src/backend/empi.c:2272-2311 | after any finished run of any number of Allreduce calls every coordinator holds the result of each call, if channels keep order |
| Unordered.MayMix | src/backend/empi.c:2282-2311 | if they do not, with two calls and two coordinators a run exists in which coordinator 1 receives the data of the second call in the first |
| Unordered.OrderNeededIff | src/backend/empi.c:2282-2311 | without ordered channels everyone always gets the right data exactly with fewer than two calls or fewer than two coordinators |
| Unordered.TurnsAlwaysRight | src/backend/empi.c:1799-1818 | any number of exchanges by turns get the right data even over channels that do not keep order |
| WideReduce.EveryRankGetsReduction | src/backend/empi.c:2315-2315 | as coordinators have local rank 0, the closing local broadcast gives it to every rank |
| WideReduce.WaReduce | src/backend/empi.c:2134-2168 | what root, remote coordinators and all other ranks do, and the root's merged result |
| WideReduce.ReduceCompletes | src/backend/empi.c:2134-2168 | the exchange never deadlocks, even with rendezvous sends, and every run ends |
| WideReduce.RootHasPartial | src/backend/empi.c:2144-2160 | the root gets the partial result of each other cluster exactly once |
| WideReduce.ReduceDelivers | src/backend/empi.c:2088-2174 | after any finished run the root, whichever rank it is, holds the reduction over all ranks |
| ReduceOps.ReduceVectors | src/backend/reduce_ops.c:98-105 | the macro kernels overwrite the second vector with the elementwise combination |
| ReduceOps.ReduceComplexProd | src/backend/reduce_ops.c:117-128 | likewise for complex products, over exact reals |
| ReduceOps.ReduceLocated | src/backend/reduce_ops.c:130-156 | likewise for MAXLOC and MINLOC |
| ReduceOps.LiftQualifies | src/backend/reduce_ops.c:98-105 | combining vectors elementwise is as associative and commutative as the operation |
| ReduceOps.FoldColumns | src/backend/reduce_ops.c:98-105 | reducing vectors reduces each position |
| ReduceOps.ScalarsQualify | src/backend/reduce_ops.c:87-93 | MAX, MIN, LAND, LOR and LXOR are associative and commutative |
| ReduceOps.FoldIsGreatest | src/backend/reduce_ops.c:87-87 | MAX over any operands is one of them and no smaller than any |
| ReduceOps.FoldIsLeast | src/backend/reduce_ops.c:88-88 | MIN over any operands is one of them and no greater than any |
| ReduceOps.FoldIsLogical | src/backend/reduce_ops.c:91-93 | LAND is nonzero exactly if all operands are, LOR if some is, LXOR if an odd number is; from two operands on the result is 0 or 1 |
| ReduceOps.UnsignedQualify | src/backend/reduce_ops.c:89-90 | so are sums and products of unsigned types, wrap-around included |
| ReduceOps.FoldIsSum | src/backend/reduce_ops.c:89-89 | SUM over unsigned operands is their sum modulo the number of values of the type |
| ReduceOps.FoldIsProduct | src/backend/reduce_ops.c:90-90 | PROD is their product modulo that number |
| ReduceOps.ComplexQualifies | src/backend/reduce_ops.c:117-128 | so are complex products |
| ReduceOps.ComplexMultiplies | src/backend/reduce_ops.c:117-128 | the product distributes over sums, extends that of the reals, and i times i is -1 |
| ReduceOps.ExtremeQualifies | src/backend/reduce_ops.c:130-156 | so are MAXLOC and MINLOC |
| ReduceOps.FoldIsBest | src/backend/reduce_ops.c:130-156 | folding MAXLOC or MINLOC yields the extreme value with the smallest location attaining it |
| ReduceOps.BestIsUnique | src/backend/reduce_ops.c:130-156 | there is only one such result |
| ReduceOps.WideElement | src/backend/empi.c:2291-2310 | with an associative and commutative operation, every element of a wide-area result, at any merging cluster, is the fold of that element over all ranks |
| ReduceOps.WideExtreme | src/backend/empi.c:2291-2310 | the same for every element after a wide-area reduction merged at any cluster (MPI 2.1, section 5.9.4) |
| Groups.ExpansionInRange | src/backend/group.c:449-508 | a valid triplet expands to ranks of the group |
| Groups.GetRange | src/backend/group.c:449-508 | an invalid triplet is a rank error, too many ranks an argument error; the loop counter overflows exactly for the triplets that Overflows names, else the members of the expansion are appended |
| Groups.GroupTable.Include | src/backend/group.c:397-436 | the group of the given ranks, or the error of the first failing check, and what happens to the group table |
| Groups.GroupTable.RangeInclude | src/backend/group.c:513-573 | likewise for triplets, and what happens to the group table |
| Groups.RangeInclIsIncl | src/backend/group.c:509-573 | for any triplets: group_incl of the expansion, unless a loop counter overflows, the expansion is longer than the group or a triplet does not start and end in the group, whichever comes first, or the group is empty |
| Groups.RangeInclAgreesIff | src/backend/group.c:449-573 | if all expanded ranks are ranks of the group: the exact condition under which the two calls agree |
| Groups.OutOfRangeFails | src/backend/group.c:457-463 | if some expanded rank is not, on a non-empty group both calls fail |
| Groups.DistinctRangesAgree | src/backend/group.c:457-495 | if the expanded ranks are distinct ranks of the group (MPI 2.1, section 6.3.2): the two calls agree exactly if the group is empty, or every triplet starts and ends in the group and no loop counter overflows; there are never too many ranks |
| Groups.LastIsNoRank | src/backend/group.c:457-457 | on a group of three, the triplets (0, 3, 2) and (2, -1, -2) stand for distinct ranks of the group and are rejected |
| Groups.ValidRangeOverflows | src/backend/group.c:469-469 | the triplet (1, 2, 2147483647) is valid on a group of three and stands for one rank, and its loop counter overflows |
| Groups.Pigeonhole | src/backend/group.c:471-477 | distinct ranks of a group are at most as many as its members |
| Groups.InclIsRangeIncl | src/backend/group.c:509-512 | group_incl of distinct ranks is group_range_incl with each rank i as the triplet (i, i, 1) |
| Groups.InclKeepsDistinct | src/backend/group.c:391-436 | distinct ranks of a group without duplicates give a group without duplicates |
| Groups.RangeInclSucceedsIff | src/backend/group.c:513-573 | exactly when it succeeds, given room in the table: valid triplets, not too many ranks and no loop counter that overflows, or an empty group |
| Groups.EmptyGroupAcceptsAnything | src/backend/group.c:524-528 | on an empty group any triplets are accepted, although group_incl accepts only the empty list |
| Groups.GroupTable.CreateGroup | src/backend/group.c:152-199 | a slot of the table is used for every non-empty group, until 1024 are used up |
| Groups.GroupTable.DeleteGroup | src/backend/group.c:201-216 | the group goes, its slot is not used again |
| Groups.GroupTable.Unite | src/backend/group.c:278-373 | the union, unless the table is full |
| Groups.UnionMembers | src/backend/group.c:301-324 | a process is in the union exactly if it is in one of the two |
| Groups.UnionOrder | src/backend/group.c:301-324 | the union starts with the first group, and goes on with those members of the second that are not in the first, in the order of the second |
| Groups.UnionDistinctIff | src/backend/group.c:301-324 | when the union has no duplicates; it has none if its inputs have none |
| Groups.UnionAssociative | src/backend/group.c:301-324 | unions may be grouped differently, with the same order of members |
| Groups.UnionKeepsRank | src/backend/group.c:346-352 | the rank field stays the position of the own process, or -1 if it is not a member |
| World.ClusterOffsets | src/backend/gateway.c:832-836 | prefix sums of the cluster sizes |
| World.NumberWorld | src/backend/communicator.c:262-277 | every rank gets the cluster and process with offset + process = rank, and their PID |
| World.PlaceUnique | src/backend/communicator.c:262-277 | no rank has two places |
| World.NumberingIsBijective | src/backend/communicator.c:262-277 | every process of every cluster has exactly one rank |
| World.GetGlobalRank | src/backend/communicator.c:482-507 | the first rank of the own cluster with that local rank, whatever cluster is asked for |
| World.GlobalOfLocalIff | src/backend/communicator.c:473-507 | it inverts get_local_rank exactly within the own cluster |
| World.PidRoundTripIff | src/shared/settings.h:34-40 | a PID keeps exactly the cluster ranks below 2^8 and the process ranks below 2^24 |
| World.PidJoin | src/shared/settings.h:34-40 | a PID is put together again from its two parts |
| Ranks.SetPidBits | src/shared/settings.h:40-40 | the PID of the model is what masking, shifting and or-ing 32 bits gives, the cluster in the upper 8 bits and the rank in the lower 24 |
| Ranks.GetRankBits | src/shared/settings.h:34-37 | so are its two parts what shifting and masking give |
| World.IdentitiesDistinct | src/backend/messaging.c:330-333 | all PIDs of the world differ, also from the server's, and give back cluster and process |
| World.WorldIsPopulated | src/backend/communicator.h:46-46 | the world has no empty cluster, and its coordinators have local rank 0 |
| Crc16.GenCrc16 | src/frontend/empi_wrapper.c:139-189 | computes the register over all bits and 16 zeros, reversed |
| Crc16.CrcIsWord | src/frontend/empi_wrapper.c:137-189 | that is the word which shifts and exclusive ors with 0x8005 on 16-bit words and the final bit reversal give, every byte entering least significant bit first |
| Crc16.KnownAnswer | src/frontend/empi_wrapper.c:137-189 | for the single byte 0x01 it is 0xC0C1 |
| Crc16.RunLinear | src/frontend/empi_wrapper.c:149-171 | the register is linear over exclusive or |
| Crc16.ZerosKeep | src/frontend/empi_wrapper.c:173-180 | flushing neither hides nor creates a difference |
| Crc16.UnnoticedIff | src/frontend/empi_wrapper.c:139-189 | two inputs of equal length collide exactly if the register maps their difference to zero |
| Crc16.BurstsDetected | src/frontend/empi_wrapper.c:139-189 | differences within 16 consecutive bits are always detected |
| Crc16.BurstsOf17 | src/frontend/empi_wrapper.c:139-189 | of differences within 17 bits, exactly x^16 + x^15 + x^2 + 1 goes unnoticed |
| Crc16.OddErrorsDetected | src/frontend/empi_wrapper.c:137-189 | an odd number of wrong bits is always detected |
| Crc16.Crc16Vect | src/frontend/empi_wrapper.c:207-234 | the exclusive or of the CRCs of the blocks |
| Crc16.OneBlockChanged | src/frontend/empi_wrapper.c:228-231 | a change of one block shows exactly if that block's CRC shows it |
| Crc16.SwapUnnoticed | src/frontend/empi_wrapper.c:228-231 | exchanging two blocks never shows |

## Left out

- Connection set-up, event polling, configuration, the server and its replies, and the gateways' own termination: input and output, or classes that are not part of this model.
- PMPI itself: point-to-point calls are channels that keep order per pair of processes, local collectives are their specification (a local barrier lets nobody go before all have come, a local reduction combines in rank order, a local broadcast hands on the buffer of local rank 0 or of the coordinator).
- Data types and their extents: buffers are sequences or arrays of elements, and packing is taken to preserve them.
- Failing allocations and the error returns of PMPI, except where a method's result says otherwise.
- Messages are values, not buffers: who owns and frees a message is modelled for the pending sends only.
- Machine integers: counts and displacements are unbounded, so overflow of sums of counts is not modelled. The 64-bit pending counters, the 32-bit header words and the loop counter of get_range are.
- Ranks.SetPidBits: on unsigned words. In the source the cluster rank is shifted as an int, which from 128 on reaches the sign bit and is undefined in C.
- Groups.GetRange: where the loop counter overflows, which C leaves undefined, the model ends with an outcome of its own.
- Socket.SocketInfo.NonblockReadMessage: after a failed read, which closes the connection in the source, nothing is promised of the message in progress.
- Network.NonOvertaking: stated for the same number of gateways in every cluster. Messages to and from the server share the sockets' code but not this result.
- Delivery.EveryScheduleDelivers: about the steps that are possible; that the event loops of the gateways, the sockets and PMPI take possible steps in the end is not part of this model.
- Choreography.MessagesDelivered: one channel per ordered pair of ranks, whether the two are in one cluster or not; the tags that keep different collectives apart are not modelled.
- Barrier.RoundsNotConfused: for barriers among themselves; other collectives whose broadcasts use the same tag are not part of the state machine.
- ReduceOps.ReduceComplexProd: over exact reals; floating-point reductions are not associative and not modelled.
- ReduceOps.UnsignedQualify: the signed integer types, whose overflow is undefined in C, are modelled without bounds (ReduceOps.ScalarsQualify) or not at all.
- Groups.GroupTable.Include: groups are values in the table, not objects that share member arrays; the handle field of the shared empty group, which the source never sets, is left out. The operations that the source does not implement are left out.
- World.NumberWorld: requires clusters of at least one process, as every cluster checks when it joins; with empty clusters the source's loop can number wrongly.
- Crc16.GenCrc16: a 16-bit word is the list of its bits (Crc16.CrcIsWord ties it to the word); a missing buffer, for which the source returns 0, is the same as no data.
- Sendrecv and receives from any source that mix local and remote senders: the source marks them as unfinished.
- Gather, Scatter, Bcast, Alltoall and Allgather: they forward to the collectives modelled here or add only simpler message patterns.
- Communicator split, duplication and freeing, requests, files, info, operation and datatype tables, tracing: calls to the server or table look-ups.
