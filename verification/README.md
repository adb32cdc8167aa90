# YServerCore, modelled and verified

This project models the stateful parts of a small chat and login server over I/O completion ports
(`YServerCore/`) and of its client (`Client/Client/`), and proves properties of all their runs.
`dafny verify dfyconfig.toml` checks it.

Code that works on shared state is written twice. A step relation over values says what one atomic
access, one critical section or one completion does, and the theorems quantify over every run, that
is, over every interleaving of such steps. A class with the same fields as the program's object has
one method for each such step, written with the program's own bit operations, arrays and loops; its
contract says that the object's value after the call is the step relation's next value.

| files | part of the program |
|---|---|
| `Bits.dfy`, `RwLock.dfy`, `RwLockProofs.dfy`, `RwLockTheorems.dfy`, `RwLockLimits.dfy`, `RwLockProgress.dfy`, `Lock.dfy`, `ThreadIds.dfy` | the packed-word readers-writer lock and the thread ids it relies on |
| `Wire.dfy`, `Framing.dfy`, `MixedStream.dfy`, `ReceiveBuffer.dfy`, `Client.dfy`, `Requests.dfy` | packet layout, the receive loop of sessions and of the client, and the requests as bytes |
| `Sending.dfy`, `SendBuffer.dfy` | the shared send buffer |
| `BroadcastSends.dfy`, `BroadcastJams.dfy`, `BroadcastLimits.dfy`, `EndToEnd.dfy` | broadcasts and replies through the send buffers, the table lock they hold, and server to client end to end |
| `WorkQueue.dfy` | the work queues and their condition variable |
| `SessionTable.dfy`, `Broadcast.dfy` | the session table and concurrent broadcasts |
| `Login.dfy`, `LoginHistory.dfy` | account creation, login and move handlers, and what each did in a run |
| `Options.dfy` | a value that may be missing |

## What holds, and what does not

* The lock is a correct re-entrant readers-writer lock for every run with nested unlocking in which
  thread ids are non-zero and distinct, at most 65535 reads are outstanding, and outstanding write
  holds together with all shared reads ever granted are at most 65536. (At 65536 `LockCount` may
  read zero, but no unlock takes that for the last.) The ids handed out by `InitLocalThread` are
  non-zero and distinct for exactly 65535 threads, and for them all three bounds are exact: one
  thread more, one read more, or one hold more, and some run gives two threads the write lock.
* A thread that is inside a lock call and steps alone returns from it exactly when the lock is free for
  the call, and then within five accesses: a write lock needs an empty word or its own id there, a
  read lock a word without another thread's id, an unlock nothing.
* The read count overflows into the thread id: after 65536 reads nested in a write lock the word
  shows the next thread's id, and that thread passes the ownership test.
* `TryReadLock` increments `LockCount` on its shared path and nothing ever takes that back. So the
  outermost write unlock frees the lock exactly when no shared read was granted before it. After one
  was, the next writer keeps the lock for good, and every granted read uses up the 65536.
* `LockCount` is not atomic. Only readers race for it: a writer changes it alone. Racing readers lose
  increments, so it does not count the reads granted, but it still shows whether there was one, and
  everything above holds with lost increments.
* `WriteLockGuard` calls `TryReadLock` in spite of its name, so it excludes nobody.
* The assertions of the lock are given string literals, which are true, so they never fire: no
  timeout aborts, and wrong unlocking is not caught. Nested unlocking is therefore a condition on
  callers, as the message of the first assertion says.
* A receiver reproduces the packets of the stream exactly when each completion either fills the
  4096-byte buffer or ends on a packet boundary; any other completion drops its tail.
* The client has a handler for chats only, and the server also sends it login, move and account
  packets. Such a packet stops the dispatch loop, so it hides the chats that arrive behind it before
  the next completion that leaves the buffer not full: they are dropped with it. All chats are
  dispatched exactly when none stands behind such a packet in its batch.
* Senders never meet the retry that waits for a mutex already held exactly when the buffer has room
  for one packet of the largest size from each sender; for chat packets, up to seven senders.
* With broadcasts and handlers' replies side by side no send buffer is ever found full exactly when
  it has room for the largest packets of as many broadcasts, and as many replies, as may be under way
  at a time; then every broadcast finishes and releases the table lock. Without that room some run
  leaves a sender waiting for the mutex it holds, and a broadcast that comes to such a session holds
  the table lock for ever. There is room for seven chat broadcasts at a time if nobody replies, and
  for the server's four beside 19 replies.
* Only `DataQ` is ever served by workers. A worker that has passed the test of `bRunning` does not
  notice that it was cleared. All workers end exactly when those waiting for an item at that moment
  are no more than the items queued then and added later.
* `CloseSession` does not renumber the session it moves. Runs stay faithful exactly when no session
  is closed that an earlier close moved, and every session stays at its own index exactly when only
  last elements are closed.
* A login whose pair is in the table at its check stores the user, logs its session in and announces
  it; any other only tells its own session of the failure. The messages of a run are exactly the
  answers of its finished requests, one each, and a session is in state Login exactly when such a login
  for it has passed SetSessionState.
* Every create reply claims success, and its header is that of a successful login: a string literal
  handed to `SetHeader` alone selects the overload for a bool. A success that nothing backs can be sent
  exactly when a create is running for a pair that is not in the table; and if all INSERTs work, exactly
  when such a create has inserted already, or has its check ahead and its id is taken or may still be
  taken by another create with another password.
* Account ids stay distinct while creates for the same id are kept apart between check and insert.
  They can become duplicate exactly when two running creates may both still insert one id, or one
  may insert an id that has come into the table since its check.

## Model

| member | source | states |
|---|---|---|
| Bits.WordFields | YServerCore/Lock.cpp:7 | masking and shifting a word, bit by bit, yields its high and its low half as numbers |
| Bits.IdRoundTrip | YServerCore/Lock.cpp:14 | an id shifted into the owner field is decoded to itself, beside any reader count, which is decoded too |
| RwLockProofs.StepRefines | YServerCore/Lock.cpp:5-81 | within the limits every atomic access of every thread keeps the lock's invariant and is an acquire, a release or a stutter of an abstract re-entrant readers-writer lock |
| RwLockProofs.OwnerIsAlone | YServerCore/Lock.cpp:7-11 | no thread but the one whose id is in the word holds anything or is about to count a shared read |
| RwLockProofs.EmptyWordNobodyHolds | YServerCore/Lock.cpp:20-21 | whenever the word equals Empty no thread holds the lock in any mode or relies on owning it |
| RwLockTheorems.RunRefines | YServerCore/Lock.cpp:5-81 | along every run the holdings of all threads form a run of the abstract lock, from nothing held |
| RwLockTheorems.WriterExcludesAll | YServerCore/Lock.cpp:5-45 | in every reachable state a thread between TryWriteLock and TryWriteUnLock excludes every other writer and every other thread's read |
| RwLockTheorems.ReturnedCallsTookEffect | YServerCore/Lock.cpp:5-81 | each lock call that returned added exactly one hold of its kind, each unlock call removed exactly the last one |
| RwLockTheorems.LockCountAccounting | YServerCore/Lock.cpp:9-10 | with readers' increments torn into load and store: LockCount is, in 16 bits, the owner's counted write depth plus the increments kept of granted shared reads, at most those reads, and none only if there were none |
| RwLockTheorems.WritersCountAlone | YServerCore/Lock.cpp:42 | only readers are ever inside an access to LockCount together; a writer's increment or decrement has it alone |
| RwLockLimits.ReadersLoseIncrement | YServerCore/Lock.cpp:63 | two readers have a run in which both reads are granted and LockCount is one |
| RwLockTheorems.OutermostUnlockReleasesIff | YServerCore/Lock.cpp:42-44 | the outermost write unlock stores Empty exactly when no shared read was granted before it, and otherwise leaves the caller's id in the word |
| RwLockTheorems.InnerUnlockKeepsWord | YServerCore/Lock.cpp:42-44 | an unlock with further write holds outstanding never empties the word |
| RwLockTheorems.OwnershipBecomesPermanent | YServerCore/Lock.cpp:63 | once a shared read was granted, an id that enters the word stays for the rest of every run and no other thread ever holds anything again |
| RwLockProgress.AloneReturnsIff | YServerCore/Lock.cpp:5-81 | in every reachable state a thread inside a lock call that steps alone returns if and only if the lock is free for the call, then within five accesses, having added or removed its one hold |
| RwLockProgress.ReaderGetsIn | YServerCore/Lock.cpp:58-66 | a reader on a word without owner that steps alone has its hold within three accesses, also after a failed exchange |
| RwLockTheorems.ExclusionIffIdsDistinct | YServerCore/Lock.cpp:7-11 | exclusion holds in all runs if and only if the thread ids are non-zero and pairwise distinct |
| RwLockLimits.GuardsOverlap | YServerCore/Lock.h:35-50 | for any two guards of any kind some run has two threads inside their scopes at once |
| RwLockLimits.WrappedCountBreaksExclusion | YServerCore/Lock.cpp:63 | at a count of 65537, however many of it are granted reads, some run lets two threads hold the write lock |
| RwLockLimits.ExclusionIffCountFits | YServerCore/Lock.cpp:42-44 | for distinct non-zero ids, with reads that fit the word: exclusion holds in all runs within the limits if and only if write holds and granted reads are at most 65536 |
| RwLockLimits.CarriedReadsBreakExclusion | YServerCore/Lock.cpp:49-53 | once 65536 reads may be outstanding, some run carries into the thread id and lets the thread with the next id, or after the last id any thread, hold the write lock too |
| LockObject.Lock.constructor | YServerCore/Lock.h:22-23 | a new lock is the start state and satisfies the invariant for distinct non-zero ids |
| LockObject.Lock.TryWriteLock | YServerCore/Lock.cpp:5-35 | each access, computed with masks and shifts, is the corresponding step and refines the abstract lock |
| LockObject.Lock.TryWriteUnLock | YServerCore/Lock.cpp:37-45 | each access is the corresponding step and refines the abstract lock |
| LockObject.Lock.TryReadLock | YServerCore/Lock.cpp:47-75 | each access, the load and the exchange apart, is the corresponding step and refines the abstract lock |
| LockObject.Lock.TryReadUnLock | YServerCore/Lock.cpp:77-81 | the fetch_sub is the corresponding step and refines the abstract lock |
| ThreadIds.ThreadIdSource.InitLocalThread | YServerCore/Thread.cpp:37-41 | the k-th call returns the truncated id of the k-th thread |
| ThreadIds.IdsCountUp | YServerCore/Thread.cpp:37-41 | the first thread gets id 1 and each later thread the next id, modulo 2^16 |
| ThreadIds.IdsDistinctIff | YServerCore/Thread.cpp:37-41 | the ids of the first n threads are non-zero and distinct if and only if n is at most 65535 |
| ThreadIds.ExclusionIff | YServerCore/Thread.cpp:37-41 | n threads with counter ids exclude one another in all runs within the limits if and only if n is at most 65535, reads at most 65535, and write holds with granted reads at most 65536 |
| Wire.PacketRoundTrip | YServerCore/PacketDataStructure.h:19-43 | header fields and body are read back from the encoded packet as they were written |
| Wire.FieldsOf | YServerCore/PacketDataStructure.h:19-22 | IOType is read from bytes 0 to 3 and Size from bytes 4 to 7, least significant byte first |
| Wire.PacketLayout | YServerCore/PacketDataStructure.h:19-24 | the bytes of a packet: type, size, success, 32 bytes of text and padding to 44, then the body |
| Wire.ChatRoundTrip | YServerCore/PacketDataStructure.h:57-67 | an encoded chat message is a well-formed 580-byte S_Chat packet that decodes to the message |
| Wire.ChatLayout | YServerCore/PacketDataStructure.h:57-61 | a chat begins with the bytes 6, 0, 0, 0, 0x44, 2, 0, 0, has its id in bytes 44 to 67 and its text from byte 68 |
| Framing.ParseKeepsBytes | YServerCore/Session.cpp:33-49 | cutting packets off a stream loses, adds and reorders no byte |
| Framing.ParseResumes | YServerCore/Session.cpp:33-49 | parsing the rest later, with more bytes behind it, gives the packets of the whole |
| Framing.ParseConcatenation | YServerCore/PacketProcess.h:63-72 | the parser undoes the concatenation of well-formed packets of handled types |
| Framing.UnhandledBlocks | YServerCore/Session.cpp:43-48 | a packet of a type without handler stops the loop: all packets before it are dispatched, it and everything behind it are not |
| Framing.SizeZeroSpins | YServerCore/Session.cpp:38-46 | a handled header of Size 0 behind any packets makes the loop spin for ever |
| Framing.ParseIsBounded | YServerCore/Session.cpp:33-49 | the loop dispatches at most one packet per byte, and per 44 bytes when sizes cover the header |
| Framing.EveryByteAccounted | YServerCore/Session.cpp:31-60 | for any chunking every received byte is, in order, in exactly one dispatched packet, one dropped tail, or the retained prefix |
| Framing.NothingDroppedIff | YServerCore/Session.cpp:50-60 | a run drops nothing exactly when each completion fills the buffer or ends on a packet boundary |
| Framing.RetainedFits | YServerCore/Session.cpp:64-71 | chunks no longer than posted never overflow the buffer |
| Framing.StreamEquivalenceIff | YServerCore/Session.cpp:26-71 | the run dispatches the packets of the whole stream and retains its rest if and only if each completion fills the buffer or ends on a packet boundary |
| Framing.ChunkingIrrelevant | YServerCore/Session.cpp:26-71 | two such chunkings of a stream dispatch the same packets and retain the same rest |
| Framing.RoomAfterFullBufferIff | YServerCore/Session.cpp:50-70 | after a full buffer the next receive has a positive length exactly when a complete handled packet was in front, and then at least that packet's size |
| Framing.LastBoundaryIsLast | YServerCore/Session.cpp:33-49 | the last boundary computed from packet lengths is a boundary, and the last within the given length |
| Framing.ParseOfFront | YServerCore/Session.cpp:33-49 | of any front part of a stream of well-formed packets the parser cuts off a front part of the packets, and its rest starts at the last boundary |
| Framing.RetainedSinceBoundary | YServerCore/Session.cpp:50-60 | in a run that fills or ends on boundaries the buffer retains exactly what arrived since the last packet boundary |
| Framing.FillsOrEndsIffBoundaries | YServerCore/Session.cpp:50-60 | for well-formed packets the condition for stream equivalence is one on the lengths of packets and chunks alone |
| ReceiveBuffer.ReceiveBuffer.ReadyToReceive | YServerCore/Session.cpp:64-71 | the posted length is what the retained bytes leave free |
| ReceiveBuffer.ReceiveBuffer.HandleData | YServerCore/PacketProcess.h:63-72 | the packet in front is dispatched, the handler gets its leading bytes when it is as long as the struct, and the cursor advances by its size |
| ReceiveBuffer.ReceiveBuffer.ShiftDown | YServerCore/Session.cpp:52 | the overlapping ascending copy puts exactly the unread bytes at the front |
| ReceiveBuffer.ReceiveBuffer.DispatchPackets | YServerCore/Session.cpp:33-49 | the loop dispatches exactly what the reference parser cuts off, and stops at its rest |
| ReceiveBuffer.ReceiveBuffer.Settle | YServerCore/Session.cpp:50-60 | the tail is kept when the buffer is exactly full and dropped otherwise |
| ReceiveBuffer.ReceiveBuffer.OnRecv | YServerCore/Session.cpp:26-62 | one completion on the array is one completion of the model |
| ClientLoop.Client.ReceiveWork | Client/Client/Client.cpp:85-133 | the client's loop over its deliveries is the run of the model, with matching handler arguments |
| Requests.RequestLayout | YServerCore/PacketDataStructure.h:45-75 | account, login, chat and move requests as literal bytes: type and size in front, id in bytes 44 to 67, password, text or position from byte 68 |
| Requests.LoginRead | YServerCore/PacketProcess.h:58 | any 92 bytes that begin as a login does are one packet to the server, and its handler gets all of them and reads id and password |
| Requests.CreateAccountRead | YServerCore/PacketProcess.h:57 | any 92 bytes that begin as an account request does are one packet, whose handler gets all of them and reads id and password |
| Requests.MoveRead | YServerCore/PacketProcess.h:59 | any 80 bytes that begin as a move does are one packet, whose handler gets all of them and reads id and position |
| Requests.RequestRoundTrip | YServerCore/PacketProcess.h:63-72 | every encoded request is a handled packet exactly as long as the struct its handler copies, and decodes to the request |
| Requests.ServerHandlesIff | YServerCore/PacketProcess.h:56-59 | the server has a handler for a packet if and only if its type bytes are those of 1, 3, 5 or 7 |
| Requests.RequestsDispatchedIff | YServerCore/Session.cpp:26-71 | a stream of requests is dispatched whole and in order, with no rest, if and only if each completion fills the buffer or ends on a packet boundary |
| Requests.ReceiveRequests | YServerCore/Session.cpp:26-62 | after such completions, one of the whole stream for example, the server's handlers have got the very requests that were sent, in order |
| Sending.Conservation | YServerCore/Session.cpp:86-121 | under every interleaving the socket calls and the buffer hold exactly the appended packets, whole and in append order |
| Sending.SentIsFront | YServerCore/Session.cpp:107-121 | at any moment, jammed or not, the socket has got a front part of the appended bytes |
| Sending.JamIsLast | YServerCore/Session.cpp:94-99 | a sender that finds no room takes no byte and keeps the mutex; it alone waits inside its first section, and no sender, itself included, can enter a section again |
| Sending.BufferBounded | YServerCore/Session.cpp:92-104 | CurBytes never exceeds the sizes of the packets of senders between append and flush, nor the buffer |
| Sending.SomeoneWillFlush | YServerCore/Session.cpp:91-104 | a non-empty buffer implies a sender that has appended and not yet flushed |
| Sending.QuietMeansSent | YServerCore/Session.cpp:103-115 | with no sender in flight the buffer is empty and everything appended was handed to the socket |
| Sending.NoJamIff | YServerCore/Session.cpp:92-99 | with N senders of packets of at most z bytes the full-buffer branch is unreachable in all runs if and only if N times z is at most 4096 |
| Sending.ChatSenders | YServerCore/Session.cpp:92-99 | for chat packets it is unreachable if and only if there are at most seven senders |
| SendBuffer.SendBuffer.AppendPacket | YServerCore/Session.cpp:91-102 | the first critical section on the array is the append step |
| SendBuffer.SendBuffer.FlushPackets | YServerCore/Session.cpp:103-104 | the second critical section is the flush step |
| SendBuffer.SendBuffer.Send | YServerCore/Session.cpp:107-121 | exactly the buffered bytes go to the socket, and the buffer is emptied |
| EndToEnd.DeliveredIff | YServerCore/Session.cpp:86-121 | for packets of types the client handles: after any interleaving of finished sends the client dispatches exactly the sent packets, once and in append order, with no rest, if and only if each delivered chunk fills its buffer or ends on a packet boundary |
| EndToEnd.DeliveredInOrder | YServerCore/Session.cpp:86-121 | for packets of types the client handles: at any moment, of whatever part of the sent stream has arrived in chunks that fill or end on boundaries, the client has dispatched a front part of the sent packets and retains the bytes since the last boundary |
| MixedStream.MixedStreamIff | Client/Client/Client.cpp:85-133 | for well-formed packets of any types that arrive in batches, each completion filling the buffer or ending a batch: exactly the handled packets are dispatched, in order, if and only if in no batch a handled packet stands behind an unhandled one |
| EndToEnd.MixedDeliveredIff | YServerCore/Session.cpp:86-121 | after any interleaving of finished sends of packets of any types that arrive so, the client dispatches exactly the packets it handles, once and in append order, if and only if none stands behind one it does not handle in its batch |
| EndToEnd.ReplyHidesChat | Client/Client/Client.h:36-39 | a run of two sends, a packet the client has no handler for and a chat, whose bytes arrive in one chunk that ends on a packet boundary, and of which nothing is dispatched |
| EndToEnd.AccountReply | YServerCore/PacketProcess.cpp:19-30 | the answer to an account request, which begins with the bytes 4, 0, 0, 0, 92, 0, 0, 0, is such a packet |
| EndToEnd.ClientHandlesIff | Client/Client/Client.h:36-39 | the client handles a packet if and only if its type bytes are 6, 0, 0, 0 |
| EndToEnd.ChatDispatched | Client/Client/Client.cpp:103-116 | any 580 bytes that begin as a chat does are dispatched by the client, whose handler reads the id from bytes 44 to 67 and the text from what follows |
| EndToEnd.ReceiveChats | Client/Client/Client.cpp:85-133 | the client's handlers get the very chat messages that were sent, in append order |
| BroadcastSends.RunInv | YServerCore/SessionManager.h:43-50 | in every run of broadcasts and replies whose sends interleave on the buffers, each buffer is used as one, by the broadcasts that are walking past its session and by replies; the broadcasts' packets are those of the calls on it, in their order |
| BroadcastSends.AllReceived | YServerCore/SessionManager.h:43-50 | once all broadcasts and the replies to it are over, a session that all broadcasts found has got their packets, each once, in the order of the calls on it, and beside them only replies |
| BroadcastJams.MaxTotalIsMost | YServerCore/Session.cpp:92-99 | no choice of at most m broadcasts appends more than the model's total of the m largest packets |
| BroadcastJams.MaxTotalReached | YServerCore/Session.cpp:92-99 | some choice of at most m broadcasts appends that total |
| BroadcastJams.NeverJams | YServerCore/Session.cpp:92-99 | if a buffer has room for the largest packets of as many broadcasts, and for as many replies, as may be under way at a time, no sender ever finds it full, however many there are in all |
| BroadcastJams.BroadcastsFinish | YServerCore/SessionManager.h:43-50 | then the running broadcasts finish within a bound on their steps, whatever the order of these and however many replies come between, and the table lock is free |
| BroadcastJams.JamHoldsTableLock | YServerCore/Session.cpp:92-99 | a broadcast that has still to pass a jammed session is blocked for good, and the table lock is never free again |
| BroadcastJams.JammingCastHoldsTableLock | YServerCore/Session.cpp:92-99 | a broadcast that jams a session holds the table lock for good |
| BroadcastLimits.NoJamIff | YServerCore/Session.cpp:92-99 | for broadcasts of any sizes, at most m of them at a time, and at most r replies of up to y bytes to a session at a time: no run finds a buffer full if and only if the total of the m largest packets plus r times y is at most 4096 |
| BroadcastLimits.TableLockReleasedIff | YServerCore/SessionManager.h:43-50 | every run can go on until the table lock is free if and only if there is that room, or there is no broadcast, or none may run |
| BroadcastLimits.ChatBroadcasts | Server/main.cpp:31-34 | for chat broadcasts beside replies of a user info packet: without replies up to seven at a time, and with four at a time up to 19 replies at a time, and no more, never find a buffer full |
| EndToEnd.BroadcastsReachClient | Server/main.cpp:6-16 | for broadcasts and replies of any types, once all broadcasts and the replies to it are over: a client whose session all broadcasts found has dispatched exactly what it handles if and only if none of it came behind a packet it does not handle in its batch; then each broadcast's packet is dispatched once, if handled, and if no reply is, in the order of the calls on its session |
| EndToEnd.HandledBroadcastsReachClient | Server/main.cpp:6-16 | if the client handles all broadcasts and replies, chunks that fill the buffer or end on a packet boundary are enough for each broadcast's packet to be dispatched exactly once, in the order of the calls, and otherwise only replies |
| WorkQueue.FifoExactlyOnce | YServerCore/Thread.cpp:59-79 | consumed items followed by the queue are the added items in order; work in the other queues is never taken |
| WorkQueue.NoLostWakeUp | YServerCore/Thread.cpp:43-79 | while bRunning holds at least min(queued items, N) of N workers are not blocked, with spurious wake-ups and all three queues notifying |
| WorkQueue.AllBlockedMeansDrained | YServerCore/Thread.cpp:67-79 | when all workers are blocked every item added has been consumed in order |
| WorkQueue.WorkersDrainQueue | YServerCore/Thread.cpp:67-79 | worker steps alone, in any order, block all workers within a bound, and then everything is consumed |
| WorkQueue.ClosingEndsNoWaitingWorker | YServerCore/Thread.cpp:69-72 | once workers wait on an empty queue, no closing, other work or spurious wake-up lets one exit |
| WorkQueue.ClosedPoolEndsIff | YServerCore/Thread.cpp:67-79 | whatever happens after closing, once no worker can step all have exited if and only if those waiting for an item at the close were no more than the items queued then and added since |
| WorkQueue.EndsIffNoneBlocked | YServerCore/Thread.h:23 | in every reachable state that condition says that no worker is blocked and those at the queue are no more than the items |
| WorkQueue.ClosingStrandsWorker | YServerCore/Thread.h:23 | two blocked workers, one item and a close: a run in which the condition fails |
| WorkQueue.Thread.AddWork | YServerCore/Thread.cpp:43-49 | pushes on its queue, wakes one blocked worker if there is one, and keeps FIFO order, enough awake workers and every item claimed |
| WorkQueue.Thread.AddWork2 | YServerCore/Thread.cpp:51-57 | pushes on its queue, wakes one blocked worker if there is one, and keeps FIFO order, enough awake workers and every item claimed |
| WorkQueue.Thread.AddData | YServerCore/Thread.cpp:59-65 | pushes on its queue, wakes one blocked worker if there is one, and keeps FIFO order, enough awake workers and every item claimed |
| WorkQueue.Thread.WorkStep | YServerCore/Thread.cpp:67-79 | a worker's step consumes the oldest item not yet consumed if it consumes any, loses none, keeps enough workers awake while running, and brings the pool nearer to all being blocked |
| SessionTable.CloseRemovesExactlyIff | YServerCore/SessionManager.h:35-42 | closing removes exactly the given session if and only if it is stored at its own id; otherwise it stays in the table |
| SessionTable.CloseKeepsIndexedIff | YServerCore/SessionManager.h:35-42 | all sessions stay at their ids if and only if the last one was closed; otherwise one is displaced and carries the new length, and the count equals the length |
| SessionTable.AlwaysIndexedIff | YServerCore/SessionManager.h:29-42 | in a run every session is always stored at its own id if and only if only last elements are closed |
| SessionTable.FaithfulIffNoMovedClosed | YServerCore/SessionManager.h:29-42 | a run removes exactly the closed sessions if and only if it closes none that an earlier close moved |
| SessionTable.AtOwnIndexIffNeverMoved | YServerCore/SessionManager.h:29-42 | in such a run the table holds the intended sessions, SessionCount is its length, and a session sits at its own id if and only if it was never moved |
| SessionTable.SessionManager.AddSession | YServerCore/SessionManager.h:29-34 | the session gets SessionCount as id and the last slot |
| SessionTable.SessionManager.CloseSession | YServerCore/SessionManager.h:35-42 | the last session takes the slot named by the id and keeps its own id |
| SessionTable.SessionManager.AllMessage | YServerCore/SessionManager.h:43-50 | a broadcast with nothing beside it sends the message once to every session |
| Broadcast.TableChanges | YServerCore/SessionManager.h:29-42 | joining adds one session behind the others, leaving takes out exactly the one at its index and moves no other but the last, and broadcasts leave the table as it is |
| Broadcast.AudienceThroughout | YServerCore/SessionManager.h:43-50 | the table a running broadcast finds stays the same until it finishes, and is its audience |
| Broadcast.FinishedCastReachedEachOnce | YServerCore/SessionManager.h:43-50 | under any interleaving a finished broadcast called SendPacket exactly once for each session in the table at any moment while it ran and for no other |
| Broadcast.AllCastsReceivedOnce | YServerCore/SessionManager.h:43-50 | after n concurrent broadcasts a session present throughout was sent all n messages exactly once, in some order |
| Login.LoginSafety | YServerCore/PacketProcess.cpp:17-47 | under any interleaving of handlers a session in state Login stores an account of the table, login broadcasts claim success and carry one, login replies claim failure, and a broadcast move names one if it names any |
| Login.CreateRepliesClaimSuccess | YServerCore/PacketProcess.cpp:22-30 | in every run each create reply has the header of a successful login, whatever became of the request |
| Login.FalseSuccessIff | YServerCore/PacketProcess.cpp:20-30 | some continuation by the running handlers replies success for a pair that is not in the table if and only if a create is running for such a pair |
| Login.FalseSuccessIffInVain | YServerCore/PacketProcess.cpp:20-30 | with INSERTs that all work, if and only if such a create is past its INSERT, or is still to check and its id is taken, or another running create may still insert that id with another password |
| Login.TakenIdClaimsSuccess | YServerCore/PacketProcess.cpp:20-26 | from any initial state that holds an id with another password, a request to create it has a run that stores nothing and replies success |
| Login.UserIsLastStored | YServerCore/PacketProcess.cpp:33-47 | the user info of a session is what the last login to reach it stored, and is missing exactly when none ever did |
| Login.MoveNamesAccount | YServerCore/PacketProcess.cpp:56-61 | the move of a logged-in session names an account; a move shows the id of the last login that reached its session, and none exactly when no login did |
| Login.IdsStayDistinct | YServerCore/PacketProcess.cpp:17-31 | ids stay pairwise distinct in every run that keeps creates for one id apart between check and insert |
| Login.DuplicatesIffClash | YServerCore/PacketProcess.cpp:20-27 | from a state with distinct ids the running handlers can produce a duplicate id if and only if two creates may both still insert it, or one may insert an id that has come into the table since its check |
| Login.TwoCreatesDuplicate | YServerCore/PacketProcess.cpp:17-31 | from any initial state two requests for one new id have a run that stores it twice |
| LoginHistory.HandlersKeepToTrail | YServerCore/PacketProcess.cpp:17-61 | in every run, whatever runs beside it, each handler has done what its request asks, step by step, and nothing else |
| LoginHistory.LoginOutcome | YServerCore/PacketProcess.cpp:33-47 | a finished login whose pair was in the table at its check has stored the user, logged its session in and broadcast the success; any other has changed nothing and sent its own session the failure with its text |
| LoginHistory.CreateOutcome | YServerCore/PacketProcess.cpp:17-31 | a finished create sent one reply, to the session of its request: at once if the id was taken, otherwise after storing its pair or nothing |
| LoginHistory.NeverStuck | YServerCore/PacketProcess.cpp:17-61 | a handler that is not finished can take its next step whatever the others did, and finishes with its fourth step at the latest |
| LoginHistory.LoggedInIff | YServerCore/PacketProcess.cpp:40 | a session is in state Login exactly when some login for it that found its pair has passed SetSessionState |
| LoginHistory.MessagesAreAnswers | YServerCore/PacketProcess.cpp:17-61 | counted, the messages of a run are the answers of its finished handlers: each request has one, with its own session, account and header, and no message is anything else |
| LoginHistory.EveryChangeIsAHandlers | YServerCore/PacketProcess.cpp:17-61 | every change of the account table, of a session or of the messages is a step of exactly one handler |
| Login.LoginServer.RecvCreateAccountRequest | YServerCore/PacketProcess.cpp:17-31 | each query or reply of the handler, its header set by the overloads the calls select, is the corresponding step and keeps the run's invariant |
| Login.LoginServer.RecvLoginRequest | YServerCore/PacketProcess.cpp:33-47 | each query, field write or broadcast of the handler is the corresponding step and keeps logins safe |
| Login.LoginServer.RecvMoveRequest | YServerCore/PacketProcess.cpp:56-61 | the broadcast shows the session's stored id and keeps logins safe |

## Left out

- RwLockTheorems.LockCountAccounting: a data race on LockCount is undefined; the model takes its loads and stores for indivisible.
- RwLockTheorems.WriterExcludesAll: assumes nested unlocking, which the program's assertions do not enforce; its limits on reads and on the count are exact (ThreadIds.ExclusionIff).
- RwLockProgress.AloneReturnsIff: is about a thread that steps alone; under interference there is no fairness, and nothing more is stated. Spin limits, ticks, yielding and logging in the lock are stutters.
- ClientLoop.Client.ReceiveWork: receives on which the loop would spin are excluded, as for OnRecv.
- ReceiveBuffer.ReceiveBuffer.DispatchPackets: excludes bytes on which the loop would spin, as for OnRecv.
- ReceiveBuffer.ReceiveBuffer.OnRecv: a handled header of Size 0 makes the loop spin for ever and is excluded; the run model records it as a receiver that spins.
- ReceiveBuffer.ReceiveBuffer.HandleData: the struct copy of a packet shorter than its struct reads bytes behind the packet, here cut off at the end of the buffer; what such a handler sees is not specified.
- An IOType beyond the handler table reads outside the table; the model takes it for a type without handler.
- Which function a handler table entry calls is not modelled, only which types have one. Handlers are started asynchronously; the model fixes the order in which packets are dispatched, not the order in which handler bodies execute.
- The zero-length completion, which the network loop filters out before OnRecv, and the failed recv of the client, whose negative result is added to CurBytes, are not part of the model.
- Sending.Conservation: assumes that WSASend captures its bytes at the call; later use of the buffer by the operating system and the send-error path are not modelled.
- Sending.JamIsLast: locking a mutex again in the thread that holds it is undefined; the model lets it wait like any other thread. A null packet, which SendPacket ignores, is not modelled.
- The length of packets in memory: it is taken to be at least what the header says; login and move handlers send on the client's own struct without resetting Header.Size, so a client can make SendPacket copy more bytes than the struct has, which is not modelled.
- Sockets, completion ports, the accept loop and the thread pool start-up are replaced by completions of any length that fits the posted one.
- WorkQueue.ClosingEndsNoWaitingWorker: items are numbers and jobs are never called; start-up before bRunning is set, and joining in the destructor, are not modelled.
- SessionTable.FaithfulIffNoMovedClosed: a close whose id is outside the table is undefined; the model only says that a run with such a close is not faithful. Deleting the closed object and the heartbeat are left out.
- Broadcast.FinishedCastReachedEachOnce: a SendPacket call inside a broadcast is one step here; its two sections, and their interleaving with those of other broadcasts, are in BroadcastSends.
- BroadcastSends.RunInv: which replies the handlers send, and when, is left open; their number at a time and their size are bounded.
- Login.LoginSafety: the account table is a sequence of pairs and a query is one step; SQL text, collation, connection errors and the result fields that all queries share are not modelled, nor are torn copies of user info.
- The `users` table is taken to have no unique key on id, since its definition is not in the repository; with one, Login.TwoCreatesDuplicate and the failing half of Login.DuplicatesIffClash do not arise.
- The client starts its receive thread before it sets its handler table; packets that arrive in between find no handler, while the model has the table set from the start.
- `bRunning` is a plain bool that is read and written without the mutex; the model takes each test and each write of it for one step.
- EndToEnd.BroadcastsReachClient: packets are taken to be well-formed, and to arrive in batches of whole packets whose last completion does not fill the buffer unless all of the batch is handled; other deliveries are the subject of Framing.EveryByteAccounted.
- Chat requests on the server, which only log, and the position floats of moves are left out.
- The older header copies under Include are not part of this model.
