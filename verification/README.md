# Pulsar: delivery, stream reassembly and the data structures beneath them

Pulsar is an asynchronous client/server framework on top of a patched libuv 1.7.5.  Request
processing threads produce responses; one event loop reads requests, writes responses and closes
connections.  This project models the parts of it whose correctness rests on the interplay of
several functions, and proves what they are for.  Paths below are relative to the repository's root.

## What is modelled

**Delivery to local clients** (`Delivery`, `DeliveryInvariant`, `DeliverySteps`, `DeliveryResponses`,
`DeliveryTheorems`, `DeliveryRest`, `DeliveryWrites`, `DeliveryStranded`, `DeliveryOutcomes`, `LocalClients`).  A direction flag under a read/write lock
says which of two queues per client, and which of two receiver sets, the threads use while the loop
drains the other ones.  `Delivery` is a transition system with 21 kinds of steps: one step is one
section under a lock, or one stretch that only the loop touches; any number of threads, in any
interleaving.  `uv_write` may accept a batch, refuse it at once or fail it later, and allocations may
fail, at every step anew.  Ghost histories (`pushed`, `taken`, `handed`) record what went into a
queue, came out of it and was handed to `uv_write`.  `DeliveryInvariant` states what every step
keeps; the theorems about whole runs follow from it.  `LocalClients` is the same code as the source
has it, objects and loops that update fields in place.  It proves of every method that it is a run
of the transition system, and, in the terms of `DeliveryOutcomes`, what the fields are afterwards.

**Forwarding to peer servers** (`PeerDelivery`, `PeerDeliveryTheorems`, `PeerOutcomes`, `PeerServers`): the same
scheme without limits, counts or removals, for one receiver per response, again as a transition
system, its theorems, and the code with its loops.

**Stream reassembly and the wire format** (`Wire`, `ClientRuns`, `ClientReader`, `ClientBuffers`,
`PeerReader`, `Forwarding`, `Multicast`).  `Wire.Extract` is the decision of the shared frame parser
and `Wire.Split` takes it again and again; both readers are proved to have found, after any sequence
of reads however cut, exactly what `Split` finds in all the bytes read so far, with the exact
conditions under which they do not.  `ClientRuns` is a client's reader as a machine on values, with the
assertions that can fail as part of it; `ClientReader` is its code with the buffers, and `ClientBuffers`
sums the memory that clients are charged for them.  `Forwarding` fills the buffers of responses at
offsets and decodes forwarded ones; `Multicast` groups handles by server and splits groups.

**libuv's data structures** (`RbAlgebra`, `RbTree`, `RbOperations`, `RbRemoval`, `Heap`, `Ring`): the
red-black tree with parent pointers, the pointer heap and the circular queue, with every pointer
assignment done in place.  The red-black tree is related to an inductive tree seen through a context
(the path back to the root), so that each rotation and each recoloring is a small change at one place.

**The thread pool** (`ThreadPool`, `ThreadPoolTheorems`, `ThreadPoolCode`): a transition system over
the sections under its two mutexes, theorems about its runs, and the code of each section.

**IPv4 and IPv6 text** (`InetText`, `Inet6Text`, `Inet6Forms`, `InetCode`): the printers and parsers
with their loops, the text forms of RFC 4291 without a scanner, and the round trips.

## What came out

- **A response can be forgotten.**  If the drain stops in front of a fatal error in the middle of a
  queue (Pulsar/src/LocalClientsManager.cpp:1629-1630) and `uv_write` then refuses the batch, the
  re-adding at 1764-1767 is undone by the erasing at 1679.  The other way is the one that the source
  itself logs at 1173: memory runs short as a client is to join its set again after a completion.
  `ServedUnlessLost` proves that these two are all there is, queue by queue, and `NothingForgotten`
  that without them nothing is ever forgotten; `RefusalForgets` and `MissForgets` that each of them
  forgets what is left in the queue (for the second, unless a later push saves it), and
  `ResponseForgotten` gives a whole run.  For peers only the second exists
  (`PeerDeliveryTheorems.StrandedExactly`, `NothingStranded`).
- **The check on a forwarded response's length is cut off to 32 bits** where ULONG is that wide
  (Pulsar/src/RequestProcessor_ForwardedResponses.cpp:82), but the loop behind it asks again, so that
  exactly the messages with a response behind all their handles pass (`Forwarding.ProcessRequest`).
- **The peer reader's last assertion can fail** (Pulsar/src/PeerServersManager.cpp:327).  Over all
  series of reads, valid or not, the index stays below the buffer's length if and only if the frames
  of every registered version fit the buffer (`PeerReader.RoomExactly`).  The reserved version's do
  not: it allows 1,179,654 bytes and the buffer holds 10,240 (`PeerReader.ReservedVersionOverflows`).
  `PeerReader.FillUp` is the reader that one read takes there.  As long as the frame that has begun
  fits, there is room (`PeerReader.Reader.RoomLeft`).
- **After an invalid header the peer reader depends on how reads were cut.**  A cut is harmless for
  whatever follows if and only if no header before it was invalid (`PeerReader.HarmlessExactly`); as
  far as the responses found are concerned, or if no frame could be acceptable any more on that
  connection (`PeerReader.FoundExactly`).
- **A dropped request puts the client's reader out of step, and can end the server.**  When there is
  no memory for a request, a peer server's connection is kept (Pulsar/src/LocalClientsManager.cpp:855-866)
  but only the index is reset (696-701), so that the room offered next is that of the dropped frame.
  The promise that fails is that of 600-609: no room while a request is under way.  It fails, and the
  reader falls out of step with the bytes, if and only if the dropped request was longer than one byte
  (`ClientRuns.DropExactly`): a shorter frame behind it is found with room left, of a longer one the
  wait fails the assertion at 734, and a single byte read alone the one at 742.  Only a frame of the
  same length, more than ten bytes of which come at once, makes up for it (`NextReadExactly`).
  `ClientReader.OvertakenByShorter` runs into the failing assertion.  Every other client is disconnected.
- The seven-word arm of `inet_ntop6` (Pulsar/LIBUV/libuv-v1.7.5/src/inet.c:135) and the second clearing
  of `min` in `heap_remove` (Pulsar/LIBUV/libuv-v1.7.5/src/heap-inl.h:189-191) are never needed.

## Model

| member | source | states |
|---|---|---|
| Delivery.FirstFatal | Pulsar/src/LocalClientsManager.cpp:1612-1631 | where the drain's loop stops: no response before that place is a fatal error, the one there is |
| Delivery.BatchLength | Pulsar/src/LocalClientsManager.cpp:1612-1640 | a batch taken off a non-empty queue is never empty |
| DeliverySteps.ClientsKept | Pulsar/src/LocalClientsManager.cpp:1553-1792 | every step of threads and loop keeps, for every client: counts add up, sets and queues agree, bounds, order, and that a marked client still has something to come that disconnects it |
| DeliveryResponses.ResponsesKept | Pulsar/src/ConnectionsManager.cpp:154-217 | every step keeps: reference count = holders + sent + the one under way, entries refer to live responses once, unfinished counts only on the threads' side, exact counters |
| DeliveryResponses.DeletedWhenUnheld | Pulsar/src/ConnectionsManager.cpp:701-733 | the end of a completion deletes the response if and only if no client has an entry for it any more |
| DeliveryTheorems.RunKeeps | Pulsar/src/ConnectionsManager.cpp:612-674 | the whole invariant holds along every run |
| DeliveryTheorems.SetsHaveWork | Pulsar/src/LocalClientsManager.cpp:1603-1605 | between callbacks, a client in a receiver set has a non-empty queue on that side |
| DeliveryTheorems.ServedUnlessLost | Pulsar/src/LocalClientsManager.cpp:1553-1683 | between callbacks, with no batch of the client in flight, the responses in a queue are out of reach if and only if the client was left behind with that queue: a batch cut short in it was refused, or memory ran short at the last re-adding, and nothing has made up for it since |
| DeliveryTheorems.NothingForgotten | Pulsar/src/LocalClientsManager.cpp:1553-1792 | on runs in which no batch cut short by a fatal error is refused and no re-adding lacks memory, no queued response is ever forgotten |
| DeliveryTheorems.RefusalForgets | Pulsar/src/LocalClientsManager.cpp:1629-1679 | such a refusal does forget what is left in the queue, whatever happens until the loop is at rest |
| DeliveryTheorems.MissForgets | Pulsar/src/LocalClientsManager.cpp:1154-1180 | a re-adding that lacks memory as the last response of a batch is completed does forget the queue, unless a thread pushes to it before the loop is at rest |
| DeliveryStranded.ResponseForgotten | Pulsar/src/LocalClientsManager.cpp:1629-1679 | a reachable state between callbacks with a forgotten response exists |
| DeliveryTheorems.CountsAtRest | Pulsar/src/ClientsPool.cpp:175-250 | Responses = both queues + batch + threads inside their guarded section; Requests is 0 or 1 |
| DeliveryTheorems.FreedUnreferenced | Pulsar/src/ClientsPool.cpp:69-90 | a client is closed and freed only when no queue entry, batch, set, request, thread or loop activity refers to it |
| DeliveryTheorems.FreedForever | Pulsar/src/LocalClientsManager.cpp:300-348 | and nothing starts to refer to it afterwards, in any run |
| DeliveryTheorems.NoneDangling | Pulsar/src/LocalClientsManager.cpp:1077-1093 | between callbacks a marked client without requests and responses has had its disconnection queued |
| DeliveryTheorems.Progress | Pulsar/src/LocalClientsManager.cpp:300-348 | the loop is never stuck: it can move, or a thread inside the guard it waits for can |
| DeliveryRest.LoopLeavesLess | Pulsar/src/LocalClientsManager.cpp:1553-1792 | each step of the loop on its way back to rest leaves strictly less to do |
| DeliveryRest.LoopRunsAreShort | Pulsar/src/LocalClientsManager.cpp:1553-1792 | however many steps threads take in between, the loop takes no more of its own than a bound known beforehand |
| DeliveryRest.ReturnsToRest | Pulsar/src/ConnectionsManager.cpp:612-674 | from every state the loop can get back to rest within such a bound |
| DeliveryTheorems.DrainAssertions | Pulsar/src/LocalClientsManager.cpp:1603-1610 | the assertions of the drain hold: the queue it takes is neither empty nor over its limit, and the batch is not empty |
| DeliveryTheorems.QueueBounds | Pulsar/src/LocalClientsManager.cpp:1117-1135 | each queue and each batch holds at most half of the limit, all outstanding responses at most three halves |
| DeliveryTheorems.InOrderUpToFatal | Pulsar/src/LocalClientsManager.cpp:1612-1661 | per queue: pushed = popped + waiting, what uv_write got is a prefix of what was pushed and ends before the first fatal error |
| DeliveryTheorems.NothingSentOnceMarked | Pulsar/src/LocalClientsManager.cpp:1648-1661 | after a client is marked no write starts and the mark stays, in any run |
| DeliveryWrites.WriteMarksExactly | Pulsar/src/LocalClientsManager.cpp:1685-1742 | whatever threads do meanwhile: when the loop is at rest again after the callback of a write, the batch is empty and the client is marked if and only if it was or the write has failed |
| DeliveryWrites.FailedWriteMarks | Pulsar/src/LocalClientsManager.cpp:1648-1742 | after a failed write every run that comes to rest leaves the client marked; the same after a round of the drain in which uv_write refuses, or with a fatal error at the head of the queue |
| DeliveryTheorems.EntriesLive | Pulsar/src/ConnectionsManager.cpp:677-735 | no queue and no rest of a batch refers to a deleted response, and to none twice |
| DeliveryTheorems.LiveWhileHeld | Pulsar/src/ConnectionsManager.cpp:697-733 | a response with a final count lives exactly while it is held or being completed |
| DeliveryTheorems.DrainedAreFinal | Pulsar/src/ConnectionsManager.cpp:158-187 | what the loop can read has a final, positive reference count |
| DeliveryTheorems.CountersExact | Pulsar/src/ConnectionsManager.cpp:193-217 | the in-queue and memory counters equal the number and total size of the queued responses |
| DeliveryTheorems.DeletedOnce | Pulsar/src/ConnectionsManager.cpp:701-733 | a deleted response never comes back, so none is deleted twice |
| LocalClients.StClient.MoveToBatch | Pulsar/src/LocalClientsManager.cpp:1612-1640 | the loop moves exactly the batch's prefix: everything from a marked client, otherwise all up to the first fatal error; it marks exactly when the queue starts with one |
| LocalClients.StClient.TakeBatch | Pulsar/src/LocalClientsManager.cpp:1601-1645 | the queue's part of a round is the transition system's |
| LocalClients.StClient.PushResponse | Pulsar/src/LocalClientsManager.cpp:1117-1148 | a response goes to the back of the queue, or nothing changes |
| LocalClients.ConnectionsManager.AddResponseToQueue | Pulsar/src/LocalClientsManager.cpp:1100-1151 | the push of a thread is one step of the system |
| LocalClients.ConnectionsManager.IncreaseCount | Pulsar/src/ClientsPool.cpp:175-216 | the response count goes up as one step |
| LocalClients.ConnectionsManager.DecreaseCount | Pulsar/src/ClientsPool.cpp:221-250 | a failed add gives its count back as one step |
| LocalClients.ConnectionsManager.AddResponseToClient | Pulsar/src/LocalClientsManager.cpp:1074-1094 | one round of the loop over clients is a run; the client gets the response, is counted for it and joins the set if and only if it is in the pool, unmarked, has room and memory suffices, and nothing else changes |
| LocalClients.ConnectionsManager.AddResponseToClientsQueues | Pulsar/src/LocalClientsManager.cpp:1067-1097 | the loop over the clients reaches exactly those that take the response, and counts them |
| LocalClients.ConnectionsManager.AddResponseToQueues | Pulsar/src/ConnectionsManager.cpp:154-190 | the whole add is a run; the count is the number of clients that are in the pool, unmarked, have room and memory; exactly their queues on the threads' side end in the response and exactly they join the set; it waits for just so many or is deleted; nothing else changes |
| LocalClients.ConnectionsManager.ThreadStep | Pulsar/src/LocalClientsManager.cpp:1074-1151 | what a thread does up to its next lock is its step of the system, or nothing if it cannot go on |
| LocalClients.ConnectionsManager.WaitForGuard | Pulsar/src/LocalClientsManager.cpp:318-332 | waiting for the guard's write lock ends: the threads inside come out, as a run of the system that leaves everything that is the loop's |
| LocalClients.ConnectionsManager.Threads | Pulsar/src/LocalClientsManager.cpp:1074-1151 | any series of moves is taken step by step as far as it is possible; of a client only the queue on the threads' side and the count change, and that queue only grows |
| LocalClients.ConnectionsManager.SendToClient | Pulsar/src/LocalClientsManager.cpp:1581-1680 | one round of the drain is a run that keeps the invariant, and what it comes to by the fields: a client with a batch in flight is passed over; of any other exactly the batch is taken, which is in flight if the client is not marked and uv_write accepts, and otherwise over at once: the client marked, each response sent once more, the other queue's set joined if memory allowed; threads may be anywhere, except inside the guard when the round disconnects the client |
| LocalClients.ConnectionsManager.SendResponses | Pulsar/src/ConnectionsManager.cpp:612-624 | toggle and drain of all clients, with any steps of any threads between the rounds, are a run back to rest that keeps the invariant; the flag is flipped, the drained set is empty, exactly its clients have had their round, each with its own answer of uv_write, and of all others only what is the threads' may have changed |
| LocalClients.ConnectionsManager.AfterSendingResponse | Pulsar/src/ConnectionsManager.cpp:677-735 | the completion of one response is a run that keeps the invariant: the count goes down by one, a failure marks, each queue's set is joined exactly if it holds something and there is memory, a marked client with nothing left is disconnected, the response is sent once more and deleted by its last |
| LocalClients.ConnectionsManager.AfterSendResponses | Pulsar/src/ConnectionsManager.cpp:627-665 | the loop over a batch is a run that completes all of it, and comes to as many completions |
| LocalClients.ConnectionsManager.AfterWrite | Pulsar/src/ConnectionsManager.cpp:627-674 | libuv's callback after a write is a run back to rest that begins with that write's result and keeps the invariant; afterwards the batch is empty, the count lower by its length, the client marked if and only if it was or the write failed, in the set of each non-empty queue for which there was memory, out of the pool with its disconnection queued if it is marked and nothing is left, and each response is sent once more or deleted |
| LocalClients.ConnectionsManager.DisconnectAndDelete | Pulsar/src/LocalClientsManager.cpp:300-348 | exactly an unreferenced client leaves the pool and is queued for disconnection |
| LocalClients.ConnectionsManager.AddClient | Pulsar/src/ClientsPool.cpp:44-64 | a new client, added or turned away, is a run that keeps the invariant: in the pool with nothing queued, or marked and its disconnection queued |
| LocalClients.ConnectionsManager.CreateRequestAndQueue | Pulsar/src/LocalClientsManager.cpp:817-877 | a request starts as one step; without memory for it the client is marked and disconnected, unless it is a peer server; the invariant is kept |
| LocalClients.ConnectionsManager.OnReadError | Pulsar/src/LocalClientsManager.cpp:612-627 | a failed read marks the client, and disconnects it if nothing refers to it, as a run that keeps the invariant |
| LocalClients.ConnectionsManager.AfterRequestProcessing | Pulsar/src/LocalClientsManager.cpp:993-1064 | the end of a request, or its deferral, is a run that keeps the invariant: the count goes down only at the end, a shortage of memory marks, and a marked client without anything left is disconnected at the end of its request |
| LocalClients.ConnectionsManager.OnClientClosed | Pulsar/src/LocalClientsManager.cpp:1344-1374 | the object is freed as one step that keeps the invariant |
| PeerDeliveryTheorems.RunKeepsGood | Pulsar/src/PeerServersManager.cpp:733-991 | the invariant of forwarding holds along every run |
| PeerDeliveryTheorems.StrandedExactly | Pulsar/src/PeerServersManager.cpp:976-988 | between callbacks a peer in a set has a non-empty queue; a non-empty queue is in neither the set nor reach of a batch in flight if and only if memory ran short at the last re-adding |
| PeerDeliveryTheorems.NothingStranded | Pulsar/src/PeerServersManager.cpp:733-991 | on runs in which no re-adding lacks memory, a peer with a non-empty queue is in the set or has a batch in flight |
| PeerDeliveryTheorems.InOrder | Pulsar/src/PeerServersManager.cpp:800-819 | each queue is first in, first out |
| PeerDeliveryTheorems.DrainedQueue | Pulsar/src/PeerServersManager.cpp:783-806 | the assertions of the drain hold: the queue is not empty and each response in it has its one reference |
| PeerDeliveryTheorems.OneCompletionOneDeletion | Pulsar/src/ConnectionsManager.cpp:677-735 | every completion deletes exactly the response that it completes |
| PeerDeliveryTheorems.LiveWhileHeld | Pulsar/src/ConnectionsManager.cpp:677-735 | a counted response is held by its one peer, once; what a peer holds is live and its own |
| PeerDeliveryTheorems.CountersExact | Pulsar/src/ConnectionsManager.cpp:193-217 | the counters equal number and size of the counted responses |
| PeerDeliveryTheorems.DeletedOnce | Pulsar/src/ConnectionsManager.cpp:701-733 | a deleted response never comes back |
| PeerServers.PeerServersManager.AddResponseToQueue | Pulsar/src/PeerServersManager.cpp:531-629 | the push, which may create the peer's object, is one step |
| PeerServers.PeerServersManager.AddResponseToQueues | Pulsar/src/ConnectionsManager.cpp:154-190 | adding a forwarded response is a run; its count is 1 exactly if memory suffices: then it is the last in the peer's queue on the threads' side, the peer in the set and the response waiting for it; otherwise it is deleted and nothing has changed |
| PeerServers.PeerServersManager.ThreadStep | Pulsar/src/PeerServersManager.cpp:531-629 | what a thread does up to its next lock is its step of the system, or nothing if it cannot go on |
| PeerServers.PeerServersManager.AfterSendingResponse | Pulsar/src/PeerServersManager.cpp:863-991 | a completion is one step: the response is deleted, and each queue's set is joined exactly if it holds something and there is memory |
| PeerServers.PeerServersManager.SendToPeer | Pulsar/src/PeerServersManager.cpp:761-857 | one round of the drain is a run that keeps the invariant, and what it comes to by the fields: a connecting peer keeps its place, one with a batch in flight is passed over, of any other the whole queue is in flight, or deleted if the write is refused |
| PeerServers.PeerServersManager.SendPeerServersResponses | Pulsar/src/PeerServersManager.cpp:733-860 | the loop over the peers in the set, threads moving in between: each has had its round with its own answer, and only those that are still connecting are left in the set |
| PeerServers.PeerServersManager.SendResponses | Pulsar/src/ConnectionsManager.cpp:612-624 | toggle and drain of all peers, with any steps of any threads between the rounds, are a run back to rest that keeps the invariant; the flag is flipped, exactly the set's peers have had their round, and those still connecting keep their place |
| PeerServers.PeerServersManager.AfterWrite | Pulsar/src/ConnectionsManager.cpp:627-674 | the callback after a write to a peer is a run back to rest that keeps the invariant: the batch is empty and its responses are deleted whether the write has failed or not, and the peer is in the set of each non-empty queue for which there was memory |
| Wire.BigValue | Pulsar/src/RequestResponse.cpp:203-217 | reading a number in network byte order undoes writing it |
| Wire.ValueBig | Pulsar/src/RequestParser.cpp:86-107 | and the other way round |
| Wire.BigAt | Pulsar/src/RequestResponse.cpp:203-217 | byte i of a number of w bytes is n / 256^(w-1-i) mod 256: the most significant byte comes first |
| Wire.Extract | Pulsar/src/RequestParser.cpp:61-142 | what is found is a non-empty payload inside the buffer |
| Wire.ExtractFrame | Pulsar/src/RequestParser.cpp:61-142 | a buffer that starts with an allowed frame yields its payload |
| Wire.FoundFrame | Pulsar/src/RequestParser.cpp:61-142 | what is found came in exactly that frame, of a registered version and an allowed size |
| Wire.ExtractPart | Pulsar/src/RequestParser.cpp:61-142 | a proper part of an allowed frame is waited on, and from ten bytes on its size is told |
| Wire.VerdictExactly | Pulsar/src/RequestParser.cpp:61-142 | without the parser: nothing is decided on up to nine bytes; behind that a buffer is a find if and only if it starts with an allowed frame, waited on for n bytes if and only if it is a proper part of one with n, and otherwise invalid |
| Wire.ValidateProtocolAndExtractRequest | Pulsar/src/RequestParser.cpp:61-142 | the parser with its loop takes that decision |
| Wire.SplitAppend | Pulsar/src/PeerServersManager.cpp:278-324 | parsing what was left over and what came later is parsing all of it: cuts do not matter |
| Wire.SplitFails | Pulsar/src/RequestParser.cpp:61-142 | bytes behind an invalid header neither make it valid nor change what was found before it |
| Wire.SplitFrames | Pulsar/src/RequestParser.cpp:61-142 | a concatenation of allowed frames of one version splits into its payloads, in order |
| Wire.SplitSound | Pulsar/src/RequestParser.cpp:61-142 | what is found and what is left over are, frame by frame, the bytes |
| ClientRuns.SoundRun | Pulsar/src/LocalClientsManager.cpp:509-757 | over every series of polls, reads and request ends, dropped requests included: bytes, length, announced size and version fit together, the room offered is inside the buffer, and none is offered behind a request under way |
| ClientRuns.PollCases | Pulsar/src/LocalClientsManager.cpp:509-609 | what is offered: nothing behind a request under way, otherwise exactly the rest of the header or of the frame, or of the old length behind a dropped request |
| ClientRuns.InvalidExactly | Pulsar/src/LocalClientsManager.cpp:644-794 | the connection is given up as invalid if and only if the bytes neither start with an allowed frame nor can become one |
| ClientRuns.NeverStopsExactly | Pulsar/src/LocalClientsManager.cpp:595-757 | whatever comes, no assertion of alloc_buffer or ExtractRequestOffTheBuffer fails as long as no other request is dropped, if and only if all the room belongs to the request that the reader is at |
| ClientRuns.SafeExactly | Pulsar/src/LocalClientsManager.cpp:509-757 | whatever comes, the reader stays in step with the bytes read as long as no other request is dropped, if and only if it is in step and all the room belongs to the request that it is at |
| ClientRuns.DropExactly | Pulsar/src/LocalClientsManager.cpp:691-701 | a request is dropped exactly if it is whole and there is no memory for it; what comes then is in step, and no assertion fails, if and only if the connection is given up or the request was a single byte |
| ClientRuns.NextReadExactly | Pulsar/src/LocalClientsManager.cpp:672-745 | after a longer one the next read makes up for it if and only if it brings more than ten bytes of a frame of the same length, or an invalid header |
| ClientRuns.ByteStops | Pulsar/src/LocalClientsManager.cpp:739-743 | a single byte read alone behind a dropped request fails the assertion that the length is the header's |
| ClientRuns.ShorterFrameStops | Pulsar/src/LocalClientsManager.cpp:595-609 | a shorter frame read whole behind a dropped request is found with room left, and the next poll fails the assertion in alloc_buffer |
| ClientRuns.LongerFrameStops | Pulsar/src/LocalClientsManager.cpp:728-737 | of a longer frame, a read of as much as the old length allows fails the assertion that the length is the frame's |
| ClientRuns.SmallLossesInStep | Pulsar/src/LocalClientsManager.cpp:509-757 | on every run in which no request of more than one byte was dropped the reader is in step and no assertion has failed |
| ClientReader.Reader.GetRequestBuffer | Pulsar/src/LocalClientsManager.cpp:509-591 | what is left of the buffer, after a complete header has made way for its body; charges what it allocates |
| ClientReader.Reader.AllocBuffer | Pulsar/src/LocalClientsManager.cpp:595-609 | the poll is the machine's; its assertion fails exactly if a request is under way and the buffer is not full |
| ClientReader.Reader.Grow | Pulsar/src/LocalClientsManager.cpp:514-568 | a complete header makes way for its body, in a new buffer or in the kept one; out of memory changes nothing |
| ClientReader.Reader.OnRead | Pulsar/src/LocalClientsManager.cpp:612-641 | in every state, also after dropped requests, a read of what was offered is the machine's; a second request is never created; a whole request is dropped exactly if there is no memory for it; the client is disconnected exactly for an invalid header, or for that shortage if it is not a peer server; no charge changes |
| ClientReader.Reader.ExtractRequestOffTheBuffer | Pulsar/src/LocalClientsManager.cpp:644-757 | the cases of a read, with the assertions that can fail: request found and created, or dropped, header complete, more to come, invalid |
| ClientReader.Reader.FinishRequest | Pulsar/src/LocalClientsManager.cpp:493-506 | the buffer is kept exactly if it is a streaming buffer and the mode is still on, otherwise freed and its charge taken back; the next request starts afresh, whatever was dropped before |
| ClientReader.Reader.SetStreamingMode | Pulsar/src/LocalClientsManager.cpp:160-163 | switching between requests changes no charge and leaves the reader valid |
| ClientReader.Reader.Close | Pulsar/src/LocalClientsManager.cpp:1344-1361 | a closing client gives back all it was charged |
| ClientReader.Reader.ReadsFrames | Pulsar/src/LocalClientsManager.cpp:644-757 | if what came is a sequence of allowed frames, whatever the cuts and the switches of streaming mode: all payloads have been taken off as long as no longer request was dropped, and the requests created are exactly the payloads if and only if none was dropped |
| ClientReader.Reader.ReadsPart | Pulsar/src/LocalClientsManager.cpp:509-585 | in the middle of a frame the buffer holds exactly its part and all earlier frames have been taken, as long as no longer request was dropped |
| ClientReader.OvertakenByShorter | Pulsar/src/LocalClientsManager.cpp:595-701 | through the reader itself: a request is dropped, a shorter one comes behind it, and the next poll ends the server |
| ClientBuffers.Clients.AllocBuffer | Pulsar/src/LocalClientsManager.cpp:595-609 | the counters stay the sums over all clients of what is allocated; no room while a request is in processing, unless the assertion fails |
| ClientBuffers.Clients.SetStreamingMode | Pulsar/src/LocalClientsManager.cpp:160-163 | and they stay the sums when the streaming mode is switched |
| ClientBuffers.Clients.AllClosed | Pulsar/src/LocalClientsManager.cpp:1344-1361 | when all clients have closed, memory and buffer counters are back to zero |
| PeerReader.Reader.ShiftLeft | Pulsar/src/PeerServersManager.cpp:297-306 | the loop removes exactly the first frame's bytes |
| PeerReader.Reader.ExtractAll | Pulsar/src/PeerServersManager.cpp:280-324 | the loop ends and takes off what the sequence parser finds |
| PeerReader.Reader.OnRead | Pulsar/src/PeerServersManager.cpp:256-328 | in every state, also after invalid headers, responses found, rest and version are what the series of reads comes to; the index stays below the buffer's length if all frames fit |
| PeerReader.Reader.ReadsFrames | Pulsar/src/PeerServersManager.cpp:256-328 | allowed frames yield their payloads in order and a proper part of the next one is left |
| PeerReader.RoomExactly | Pulsar/src/PeerServersManager.cpp:327-327 | the assertion holds after every possible series of reads if and only if every registered version's frames fit the buffer |
| PeerReader.FillUp | Pulsar/src/PeerServersManager.cpp:256-328 | one read of the first part of a frame that does not fit leaves the index at the buffer's length |
| PeerReader.ReceivedSplits | Pulsar/src/PeerServersManager.cpp:278-324 | unless a header is invalid, any series of reads comes to what all its bytes come to at once; it fails exactly if they fail |
| PeerReader.HarmlessExactly | Pulsar/src/PeerServersManager.cpp:310-314 | a cut makes no difference, whatever follows, if and only if no header before it is invalid |
| PeerReader.FoundExactly | Pulsar/src/PeerServersManager.cpp:310-314 | the responses found are the same, whatever follows, if and only if no header before the cut is invalid or no frame is acceptable behind it |
| PeerReader.CutsMatterAfterErrors | Pulsar/src/PeerServersManager.cpp:310-314 | a witness: any frame behind ten zero bytes is lost, or found, as the reads are cut |
| Forwarding.ConstructForLocalClients | Pulsar/src/RequestResponse.cpp:167-218 | built exactly when version and size allow it, and then it is the frame |
| Forwarding.LayOutHandles | Pulsar/src/RequestResponse.cpp:235-249 | the loop lays the handles out in order |
| Forwarding.ConstructForRemoteClients | Pulsar/src/RequestResponse.cpp:221-304 | built exactly when the limit allows it, and then it is the frame of the forwarded form |
| Forwarding.Construct | Pulsar/src/RequestResponse.cpp:120-147 | the constructor's cases: empty, local, too many handles, forwarded |
| Forwarding.ProcessRequest | Pulsar/src/RequestProcessor_ForwardedResponses.cpp:60-122 | accepts exactly the messages with at least a byte behind all their handles, and reads them as Decode does |
| Forwarding.DecodeForward | Pulsar/src/RequestProcessor_ForwardedResponses.cpp:65-122 | the decoder undoes the encoder, for every version, handle list and non-empty response |
| Forwarding.ForwardDecode | Pulsar/src/RequestResponse.cpp:268-302 | the encoder undoes the decoder |
| Forwarding.ForwardAndDeliver | Pulsar/src/RequestProcessor_ForwardedResponses.cpp:60-122 | encode, parse, decode and encode again, for every version, the reserved one included: the same receivers, and byte for byte the frame a local client gets |
| Multicast.GroupByServer | Pulsar/src/RequestProcessor.cpp:531-544 | each group is exactly the handles at its server |
| Multicast.SplitGroup | Pulsar/src/RequestProcessor.cpp:217-284 | a group is sent whole or not at all; the parts are disjoint, not empty and cover it; a group of n at another server makes ceil(n / 16384) of them, all but the last full; a part's bytes are the frame itself at home, and elsewhere the forwarded form with exactly the registrations of that part |
| Multicast.StoreMessage | Pulsar/src/RequestProcessor.cpp:502-561 | nothing for a message that its version does not allow, and the above for every server of any other |
| Multicast.ExactlyOne | Pulsar/src/RequestProcessor.cpp:527-561 | end to end, for every handle of a message up to the largest allowed size: exactly one of all responses sent, at its own server, parsed and decoded there, names that registration and delivers the message's frame; nobody else gets anything, and nobody anything else |
| RbAlgebra.PlugRedBlack | Pulsar/LIBUV/libuv-v1.7.5/include/tree.h:406-449 | a subtree that fits its place makes the whole tree red-black |
| RbAlgebra.PlugFits | Pulsar/LIBUV/libuv-v1.7.5/include/tree.h:451-528 | every place of a red-black tree asks for just the black height that is there |
| RbAlgebra.HeightBound | Pulsar/LIBUV/libuv-v1.7.5/include/tree.h:298-322 | the height of a red-black tree of n nodes is at most 2 lg(n + 1) |
| RbAlgebra.FlatPlug | Pulsar/LIBUV/libuv-v1.7.5/include/tree.h:342-380 | order of nodes, seen from any place in the tree |
| RbAlgebra.RecolorMovesUp | Pulsar/LIBUV/libuv-v1.7.5/include/tree.h:416-421 | recoloring under a red uncle moves the one violation up and leaves the rest right |
| RbAlgebra.LiftEnds | Pulsar/LIBUV/libuv-v1.7.5/include/tree.h:422-446 | under a black uncle the rotations end the violation |
| RbAlgebra.LackMovesUp | Pulsar/LIBUV/libuv-v1.7.5/include/tree.h:465-471 | with black nephews the missing black moves up |
| RbAlgebra.RepaidFits | Pulsar/LIBUV/libuv-v1.7.5/include/tree.h:472-490 | with a red nephew the rotations supply the missing black |
| RbTree.Head.RotateLeft | Pulsar/LIBUV/libuv-v1.7.5/include/tree.h:342-360 | the pointer assignments are a rotation in place, at the root or below, with all parent links right |
| RbTree.Head.RotateRight | Pulsar/LIBUV/libuv-v1.7.5/include/tree.h:362-380 | its mirror image |
| RbTree.Head.InsertColor | Pulsar/LIBUV/libuv-v1.7.5/include/tree.h:406-449 | the loop makes the tree red-black again, with the same nodes in the same order |
| RbTree.Head.RemoveColor | Pulsar/LIBUV/libuv-v1.7.5/include/tree.h:451-528 | the loop makes up for the missing black, with the same nodes in the same order |
| RbOperations.Insert | Pulsar/LIBUV/libuv-v1.7.5/include/tree.h:598-626 | for any ordering cmp: keeps search order, parent links and the red-black rules; adds exactly that node, or returns the node that compares equal and changes nothing |
| RbOperations.FindHole | Pulsar/LIBUV/libuv-v1.7.5/include/tree.h:604-614 | the walk ends at the equal key or at the one place where the key belongs |
| RbOperations.Find | Pulsar/LIBUV/libuv-v1.7.5/include/tree.h:627-645 | finds the node with the key exactly if there is one |
| RbOperations.NFind | Pulsar/LIBUV/libuv-v1.7.5/include/tree.h:646-667 | finds the node with the least key that is not less |
| RbOperations.Next | Pulsar/LIBUV/libuv-v1.7.5/include/tree.h:668-688 | the node with the next greater key, or none if there is none |
| RbOperations.Prev | Pulsar/LIBUV/libuv-v1.7.5/include/tree.h:690-710 | the node with the next smaller key, or none if there is none |
| RbOperations.MinMax | Pulsar/LIBUV/libuv-v1.7.5/include/tree.h:711-724 | the node with the least or greatest key |
| RbRemoval.Remove | Pulsar/LIBUV/libuv-v1.7.5/include/tree.h:530-595 | for any ordering cmp: keeps search order, parent links and the red-black rules, and takes away exactly that node |
| RbRemoval.SpliceFits | Pulsar/LIBUV/libuv-v1.7.5/include/tree.h:540-578 | after the successor has moved up, at most a black is missing where it was |
| RbRemoval.LostInOrder | Pulsar/LIBUV/libuv-v1.7.5/include/tree.h:530-595 | taking one node out of the order leaves the others, in order |
| Heap.Heap.NodeSwap | Pulsar/LIBUV/libuv-v1.7.5/src/heap-inl.h:72-104 | parent and child trade slots; the tree stays complete and linked both ways |
| Heap.Heap.PathTo | Pulsar/LIBUV/libuv-v1.7.5/src/heap-inl.h:122-124 | the loop computes the path to the slot and stays within an unsigned int |
| Heap.WalkDigits | Pulsar/LIBUV/libuv-v1.7.5/src/heap-inl.h:122-136 | the path, lowest digit first, is the slot's number below its leading 1 |
| Heap.Heap.Follow | Pulsar/LIBUV/libuv-v1.7.5/src/heap-inl.h:126-136 | following the path arrives at the slot's pointer |
| Heap.Heap.Insert | Pulsar/LIBUV/libuv-v1.7.5/src/heap-inl.h:106-148 | keeps the tree complete, linked and ordered for any strict weak order, and adds exactly that node |
| Heap.Heap.Remove | Pulsar/LIBUV/libuv-v1.7.5/src/heap-inl.h:150-237 | the same for taking away any node, or nothing from an empty heap |
| Heap.Heap.Dequeue | Pulsar/LIBUV/libuv-v1.7.5/src/heap-inl.h:239-241 | takes away the first node, if there is one |
| Heap.Heap.Min | Pulsar/LIBUV/libuv-v1.7.5/src/heap-inl.h:67-69 | no node is less than the one it returns |
| Heap.SiftUp | Pulsar/LIBUV/libuv-v1.7.5/src/heap-inl.h:146-147 | a swap upwards moves the one violation up |
| Heap.SiftDown | Pulsar/LIBUV/libuv-v1.7.5/src/heap-inl.h:220-229 | a swap with the smaller child moves it down |
| Heap.FirstIsLeast | Pulsar/LIBUV/libuv-v1.7.5/src/heap-inl.h:34-40 | in an ordered heap the root is least |
| Ring.ChainParts | Pulsar/LIBUV/libuv-v1.7.5/src/queue.h:42-92 | two chains joined by both links are one chain, and conversely |
| Ring.Link.constructor | Pulsar/LIBUV/libuv-v1.7.5/src/queue.h:42-47 | a ring of one |
| Ring.InsertTail | Pulsar/LIBUV/libuv-v1.7.5/src/queue.h:78-85 | the element joins at the end, links mutually inverse all round |
| Ring.InsertHead | Pulsar/LIBUV/libuv-v1.7.5/src/queue.h:69-76 | the element joins behind the head |
| Ring.Remove | Pulsar/LIBUV/libuv-v1.7.5/src/queue.h:87-92 | exactly that element leaves |
| Ring.Add | Pulsar/LIBUV/libuv-v1.7.5/src/queue.h:49-56 | a non-empty list is appended |
| Ring.Split | Pulsar/LIBUV/libuv-v1.7.5/src/queue.h:58-67 | a ring of a and b becomes one of a and one of b, also when a is empty |
| Ring.TakeAll | Pulsar/LIBUV/libuv-v1.7.5/src/threadpool.c:242-250 | the whole queue, if there is any, moves to the local head |
| ThreadPoolTheorems.RunKeeps | Pulsar/LIBUV/libuv-v1.7.5/src/threadpool.c:72-121 | along every run each item is in exactly one place, and its function pointer and history fit the place |
| ThreadPoolTheorems.DoneAtMostOnce | Pulsar/LIBUV/libuv-v1.7.5/src/threadpool.c:235-260 | no done function is called twice |
| ThreadPoolTheorems.RestMeansDone | Pulsar/LIBUV/libuv-v1.7.5/src/threadpool.c:196-260 | when the pool cannot go on by itself, every submitted item has had its one done call |
| ThreadPoolTheorems.OwnStepLeavesLess | Pulsar/LIBUV/libuv-v1.7.5/src/threadpool.c:72-121 | each of its own steps leaves strictly less to do |
| ThreadPoolTheorems.OwnRunsAreShort | Pulsar/LIBUV/libuv-v1.7.5/src/threadpool.c:72-121 | so without new submissions and cancellations it takes no more of them than a bound known beforehand, however often workers sleep and wake |
| ThreadPoolTheorems.CancelledNeverRan | Pulsar/LIBUV/libuv-v1.7.5/src/threadpool.c:209-258 | an item is reported cancelled if and only if its function never ran |
| ThreadPoolTheorems.FinishedForever | Pulsar/LIBUV/libuv-v1.7.5/src/threadpool.c:209-260 | after its done call nothing happens to an item, so a cancelled one never runs later |
| ThreadPoolTheorems.NoOvertaking | Pulsar/LIBUV/libuv-v1.7.5/src/threadpool.c:79-97 | over every run: when an item's function has been started, no item submitted before it still waits in the pool |
| ThreadPoolTheorems.NoLostWakeup | Pulsar/LIBUV/libuv-v1.7.5/src/threadpool.c:79-121 | while a worker sleeps unsignalled, as many others are on their way as items are queued |
| ThreadPoolTheorems.NoLostCompletion | Pulsar/LIBUV/libuv-v1.7.5/src/threadpool.c:105-110 | completed work waits only with the wake-up handle signalled or the loop on its way |
| ThreadPoolCode.UvPool.Submit | Pulsar/LIBUV/libuv-v1.7.5/src/threadpool.c:196-206 | submission and its signal are one step; the item is the last in the queue, and one sleeping worker is woken if `idle_threads` is positive and there is one |
| ThreadPoolCode.UvPool.WaitForWork | Pulsar/LIBUV/libuv-v1.7.5/src/threadpool.c:78-97 | a turn of the worker's loop is one step: to sleep, or with the first item |
| ThreadPoolCode.UvPool.FinishWork | Pulsar/LIBUV/libuv-v1.7.5/src/threadpool.c:102-111 | handing an item back is one step |
| ThreadPoolCode.UvPool.Cancel | Pulsar/LIBUV/libuv-v1.7.5/src/threadpool.c:209-232 | cancelling succeeds if and only if the item's function has not been started; then the item is in no queue of the pool, once in the loop's, and marked as cancelled; otherwise nothing changes |
| ThreadPoolCode.UvPool.WorkDone | Pulsar/LIBUV/libuv-v1.7.5/src/threadpool.c:235-260 | the callback is a run that calls each waiting item's done function once, with the cancelled status exactly for cancelled items, and leaves the list empty |
| InetText.NumberLength | Pulsar/LIBUV/libuv-v1.7.5/src/inet.c:53-69 | a number below base^k has at most k digits |
| InetText.Parse4Exact | Pulsar/LIBUV/libuv-v1.7.5/src/inet.c:190-226 | the strings the IPv4 parser accepts are exactly those the printer prints, each for its address |
| InetText.Parse4Decimal | Pulsar/LIBUV/libuv-v1.7.5/src/inet.c:190-226 | what the IPv4 parser accepts, without the scanner: exactly four octets in decimal without leading zeros, with dots between them |
| InetText.Print4Length | Pulsar/LIBUV/libuv-v1.7.5/src/inet.c:53-69 | an IPv4 text has 7 to 15 characters |
| InetCode.Ntop4 | Pulsar/LIBUV/libuv-v1.7.5/src/inet.c:53-69 | the text if it fits with its closing zero, and it always fits 16 bytes |
| InetCode.Pton4 | Pulsar/LIBUV/libuv-v1.7.5/src/inet.c:190-226 | the loop accepts what the one-pass parser accepts, with the same bytes |
| InetCode.FindRun | Pulsar/LIBUV/libuv-v1.7.5/src/inet.c:93-116 | the loop finds the leftmost longest run of at least two zero words (section 4.2 of RFC 5952), or that there is none |
| InetCode.Format | Pulsar/LIBUV/libuv-v1.7.5/src/inet.c:121-147 | the loop prints the text of the address, up to a last colon |
| InetCode.Print6Length | Pulsar/LIBUV/libuv-v1.7.5/src/inet.c:72-158 | no text exceeds the 46-byte buffer |
| InetCode.Ntop6 | Pulsar/LIBUV/libuv-v1.7.5/src/inet.c:72-158 | the whole text with the leftmost longest run left out, or no space, and 46 bytes are always enough |
| InetCode.Shift | Pulsar/LIBUV/libuv-v1.7.5/src/inet.c:298-307 | the loop in place moves the bytes after "::" to the end and fills with zeros |
| InetCode.Pton6 | Pulsar/LIBUV/libuv-v1.7.5/src/inet.c:229-313 | the loop accepts exactly the text forms of section 2.2 of RFC 4291 and gives the address that each stands for; every other string is an error |
| InetCode.RoundTrip | Pulsar/LIBUV/libuv-v1.7.5/src/inet.c:72-313 | for every address, parsing its printed form (section 2.2 of RFC 4291) gives the address back |
| InetCode.PrintThenParse | Pulsar/LIBUV/libuv-v1.7.5/src/inet.c:40-181 | the same for the two functions one after the other |
| Inet6Forms.Parse6Exact | Pulsar/LIBUV/libuv-v1.7.5/src/inet.c:229-313 | what the IPv6 parser accepts, without the scanner: exactly one to four hex digits of either case per group, at most one "::" for at least one zero group, an IPv4 text perhaps at the end, sixteen bytes in all (section 2.2 of RFC 4291) |
| Inet6Forms.DottedExactly | Pulsar/LIBUV/libuv-v1.7.5/src/inet.c:121-147 | the printer uses lower case only, and an IPv4 text at the end exactly for the IPv4-compatible and IPv4-mapped addresses |
| Inet6Forms.DoubleColonExactly | Pulsar/LIBUV/libuv-v1.7.5/src/inet.c:93-131 | "::" is printed exactly if two words in a row are zero |
| Inet6Forms.RoundTripPlain | Pulsar/LIBUV/libuv-v1.7.5/src/inet.c:72-313 | the round trip without "::" |
| Inet6Forms.RoundTripRun | Pulsar/LIBUV/libuv-v1.7.5/src/inet.c:72-313 | the round trip with any run of zeros left out |
| Inet6Forms.RoundTrip4 | Pulsar/LIBUV/libuv-v1.7.5/src/inet.c:133-142 | the round trip with an IPv4 address at the end |

The steps of the three transition systems (`Delivery.Next`, `PeerDelivery.NextState`,
`ThreadPool.Next`) are definitions and have no row of their own; the comment at each names the
function of the source that it stands for.

## Left out

Simplifications of what is modelled:

- One step stands for one section under a lock; that finer interleavings add nothing rests on what the locks protect, and the locks themselves are not modelled.
- `m_bRequestProcessingFinished` always equals "no request is being processed" and is merged with it; `m_bIsAddedToPool` is merged with being in the pool; `m_bIsAccepted` is taken to be true.
- Receiver sets and handle sets are visited in an arbitrary order.
- LocalClients.ConnectionsManager.SendResponses: threads take their steps between two rounds of the drain; those that cut into a round, or into one of the other methods, are in the transition system alone.
- PeerServers.PeerServersManager.SendResponses: the same.
- ThreadPoolCode.UvPool.WorkDone: neither workers nor done functions act on the pool while it runs; that they may is in the transition system, of which it is a run.
- DeliveryRest.ReturnsToRest: says that the loop can return; that it does needs threads which leave the guard, and no stream of new ones that keeps the writer out for ever.
- The recursion from `after_send_responses` into `DoPeriodicActivities` appears as the next callback: it begins where the loop is at rest.
- A peer's connection (`GetServerConnection`) and `uv_write` answer arbitrarily; a connection that is still being set up and a batch that cannot be allocated look alike.
- Addresses of response objects are never reused in the model: a response's identity stands for one life of the object.
- PeerDelivery's responses have no fatal flag, because forwarding ignores it.
- ClientReader.Reader.OnRead: bytes that arrive while the server shuts down or the client is marked are dropped by the source before they reach this function, which is not modelled, and neither is what `ProcessHeaderError` answers.  A request that is refused because its client has been marked (`RequestCreationException`) is not modelled: its connection is on its way out.
- ClientReader.Reader.AllocBuffer: a client that gets no buffer is disconnected by the source; here its reader is merely left as it was.
- Wire.Extract: limits of registered versions are taken to be below 2^31, so that adding the header size does not wrap around.
- Multicast.StoreMessage: the queueing of each response is Delivery's; running out of memory on the way, which ends the loop over a group, is not modelled.
- Forwarding.ForwardAndDeliver: the acknowledgement that the receiver sends back is not modelled.
- RbOperations.Insert: an element is identified with an integer that cmp compares, in any order that is total and transitive.
- Heap.Heap.Insert: nodes are compared by an arbitrary strict weak order on integer keys, and the heap has room for one more element in an unsigned int.
- Ring.Split: the element at which the ring is split is not the head node itself, as at its one call.
- ThreadPoolTheorems.RestMeansDone: needs at least one worker; creation of threads, the exit message, `cleanup` and the `abort` paths are not modelled, and submitting an item again counts as a new item.
- ThreadPoolTheorems.FinishedForever: assumes, as the source does, that `uv_cancel` is called from the loop's thread and not for an item whose done call has begun.
- InetCode.Ntop6: `sprintf` and `snprintf` are the printing of numbers.
- InetCode.Pton6: the cutting off of a zone (`%...`) in `uv_inet_pton` comes before it and is not modelled.

Parts of the repository that are not modelled:

- Sockets, libuv's handles and callbacks, setsockopt, DNS, TTY, timers and Windows calls: environment steps.
- The shutdown staging in `DoPeriodicActivities`, the barrier of `SendUpdate`, keep-alive messages and connection statistics of peers.
- Statistics other than the counters named above, time stamps and durations, the logger, the profiler and the demonstration programs.
- The splay-tree macros and `RB_FOREACH`, `RB_AUGMENT`: no file uses the former, the latter add nothing to the operations.
- The rest of libuv.
