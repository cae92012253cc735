# Verified models of a game server's network layer and Lua engine

The repository is a C++ game server with an embedded Lua 5.1.  This project models the parts of it whose
correctness is not visible in any one function, and proves what they are for.

- **Byte streams to messages.**  `LoopBuffer` is the byte ring with its three cursors and two wrap flags.
  `FrameStream` says what a stream of length-prefixed frames means.  `TcpSender`, `TcpReceiver` and
  `TcpConnection` put framing and the incremental parser on top of the ring, with a whole read as one call;
  `TcpSteps` takes the same parser apart into single operations on the ring and single events, and lets the
  main thread's pops fall between any two of them.  `EventQueue` is the ring of events between the threads.
- **Reliable UDP.**  `UdpWindow` and `UdpProtocol` are two end points over a channel that loses, repeats and
  reorders datagrams; the 8-bit window positions of the code run beside unbounded ones.  `UdpPool` and
  `UdpBuffers` are the 32 buffers of a window and the free list threaded through their first bytes;
  `UdpTransfer` and `UdpSocket` are the loops and methods that work on them.
- **The Lua collector.**  `LuaHeap`, `LuaMark`, `LuaCycle`, `LuaSweep`: objects, colours, lists, and every step of
  a collection.  `LuaMutator`: what the program does between two steps, with the write barriers.
  `LuaCollector` and `LuaFullGc`: runs, and full collections.  `LuaGc`: the same as methods that change the
  collector's state.
- **The Lua code generator** for and, or, not and comparisons.  `LuaVm` is the target machine, `LuaCode` the
  generator on lists of jumps, `LuaLists` and `LuaShape` what it keeps of code and lists, `LuaExits` what the
  code of an expression does, said without code, `LuaSound`, `LuaValues`, `LuaCorrect` and `LuaAssign` that it does
  that.  `LuaJumps`, `LuaGenerator` and `LuaCompiler` keep the jump lists as the code does, threaded through the
  jumps' own offsets.
- **The Lua table**, array part and hash part: `LuaChains`, `LuaInsert`, `LuaSizes`, `LuaTable`, `LuaTableOps`, and
  `LuaTraverse` for the length operator and traversal.
- **Lua patterns**: `LuaPattern` (what a pattern means), `LuaMatch` (the backtracking matcher), `LuaPreferred` (the
  preferred match, said of the pattern's characters), `LuaFind` (searching from every position).
- **Quicksort** of tables: `LuaSort`.
- **Precompiled chunks**: `LuaChunk` (the format, and that reading undoes writing), `LuaChunkEnds` (chunks that
  break off), `LuaDump`, `LuaLoad`.

`Bytes`, `Options` and `Powers` hold what several of these share.

Code that changes state step by step is modelled by classes and methods, and each method is tied to a function
on values; what the repository promises is proved of those functions and of runs of them.  Socket calls,
clocks, congestion decisions and the hash and comparison functions are parameters.

## Findings

Properties that one would expect and that the code does not have, each with its exact condition.

- **`a and b or false and c` yields nil where its value is false** (Server/LuaLib/lcode.c:547-550, 575-578).  The
  unconditional jump emitted for `false` before `and`, or `true` before `or`, takes along jumps that are pending
  there, and these keep the value they carry.  `LuaAssign.NilIsYielded` shows it.  `LuaExits.Harmless` is the
  condition, checked on the expression alone: on no way through it does such a literal decide while a jump with
  a value is pending.  Harmless expressions are compiled right (`LuaAssign.CompiledRight`), and expressions that
  read no local twice are compiled right only if they are harmless (`LuaAssign.CompiledRightExactly`).  With a
  local read twice a way may be closed by the first reading (`LuaAssign.DeadPathRight`); then the exact condition
  is that no value is lost for any choice of which locals are true (`LuaAssign.CompiledRightThroughout`, for all
  expressions without comparisons).  For each single run `LuaAssign.CompiledRightWhen` has both directions.  `LuaAssign.DeclareYields` says what every expression yields.
- **A function without a source name comes back from a dump with another one** (Server/LuaLib/lundump.c:167).  A
  dump is undone by loading exactly when every function in it has a name (`LuaChunk.RoundTrip`).
- **A length word of 0xFFFFFFF8 keeps the TCP parser's loop in place for ever**
  (Server/Net/mytcpsock.cpp:2751-2757 with Server/ChatServer/SocketSession.cpp:42-68): the frame's length, header
  included, wraps to 0.  `TcpSteps.LoopEndsExactly` says for every length word what one round of the loop does,
  and `TcpSteps.NeverEnds` that the parser is where it was after any number of rounds.
- **A frame too long for the session's buffer stays in the ring while its event is used up**
  (Server/Net/mytcpsock.cpp:3087-3092).  The session still gets the leading payloads, in order, exactly when no
  frame that fits follows one that does not (`TcpConnection.DrainInOrder`).
- **The caller's side of the UDP handshake frees no send buffer** (Server/Net/myudpsock.cpp:1543): its loop compares
  with the acknowledgement it sent, not with the one it got.  The first packet stays in flight until an
  established datagram acknowledges it (`UdpSocket.UdpConnectSock.Connect`, `UdpSocket.ShakenConnected`).

## Model

| member | source | states |
|---|---|---|
| LoopBuffer.LoopBuff.PushBuff | Server/Net/loopbuff.cpp:165-205 | bytes are taken exactly when there are any and they fit; they are appended across any wrap, and the number of marked bytes stays |
| LoopBuffer.LoopBuff.PopBuff | Server/Net/loopbuff.cpp:207-245 | yields the oldest bytes exactly when so many are stored; the marks stay consistent exactly when only marked bytes are popped |
| LoopBuffer.LoopBuff.DiscardBuff | Server/Net/loopbuff.cpp:247-273 | drops the oldest bytes exactly when so many are stored |
| LoopBuffer.LoopBuff.CostBuff | Server/Net/loopbuff.cpp:275-302 | the first free cells, as they are, join the queue and the unmarked bytes, exactly when so many are free |
| LoopBuffer.LoopBuff.CostUsedBuff | Server/Net/loopbuff.cpp:304-348 | marks bytes exactly when so many are unmarked; the use-cursor moves by as many, modulo the length |
| LoopBuffer.LoopBuff.GetUsedCursorPtr | Server/Net/loopbuff.cpp:141-163 | the oldest unmarked bytes that lie in one stretch are in the array where it says |
| LoopBuffer.LoopBuff.GetOutCursorPtr | Server/Net/loopbuff.cpp:117-139 | the same for the oldest bytes; all of them, or up to the array's end |
| FrameStream.RoundTrip | Server/ChatServer/SocketSession.cpp:21-68 | the stream of encoded messages decodes to these messages, nothing left over |
| FrameStream.PrefixDecodes | Server/ChatServer/SocketSession.cpp:31-68 | any part of that stream that has arrived decodes to the first messages, and no header in it is bad |
| FrameStream.Extend | Server/Net/mytcpsock.cpp:2699-2836 | parsing may go on from what is left of a stream: frames already complete do not change when more bytes come |
| FrameStream.CheckHeaderMeans | Server/ChatServer/SocketSession.cpp:42-68 | the header check yields the frame's length for good headers and -1 for a wrong magic number |
| FrameStream.EncodeBytes | Server/ChatServer/SocketSession.cpp:21-29 | a frame byte by byte: length and magic number, highest byte first, then the payload |
| FrameStream.HeaderBytes | Server/ChatServer/SocketSession.cpp:42-68 | which eight bytes are a good header, the frame's length and the check's answer from them |
| TcpSender.Sender.Send | Server/Net/mytcpsock.cpp:1564-1647 | a message is queued as one frame, or not at all when it does not fit; ring and wire together stay the encoding of all messages accepted |
| TcpSender.Sender.PostSend | Server/Net/mytcpsock.cpp:1663-1796 | what goes out is as long as the socket takes, up to 64K and up to the end of the stretch at the out-cursor; it is the front of the queue and leaves it; with bytes queued and taken it is not empty |
| TcpReceiver.Receiver.OnRecv | Server/Net/mytcpsock.cpp:2652-2837 | after any read, split anywhere and wrapped anywhere, every complete frame of the stream has been popped or has its event; the connection is closed exactly at the stream's end or for a bad header |
| TcpReceiver.Receiver.ProcRecv | Server/Net/mytcpsock.cpp:3067-3102 | pops the frame of the oldest event and delivers its payload; a frame too long for the session stays in the ring |
| TcpConnection.EndToEnd | Server/Net/mytcpsock.cpp:2699-2836 | payloads delivered, and those with an event pending, are the first messages sent, in order, and all of them once everything has arrived |
| TcpConnection.DrainInOrder | Server/Net/mytcpsock.cpp:3087-3100 | handling the events of given frames delivers leading payloads in order if and only if no frame that fits follows one that does not |
| TcpSteps.StepsEndToEnd | Server/Net/mytcpsock.cpp:2652-2837 | the same over every interleaving of single ring operations and events of both threads: delivered is a prefix of sent, the connection stops for nothing but the stream's end, and at rest with everything arrived all has been delivered; messages fit the session's buffer |
| TcpSteps.StepsAccount | Server/Net/mytcpsock.cpp:2699-2836 | in every state of every run marked bytes and bytes passed but not marked are the queued frames and the passed part of the current one; a frame whose event has been taken is marked as a whole; between reads all bytes are passed, or less than a header is ahead and no frame is open |
| TcpSteps.TraceInv | Server/Net/mytcpsock.cpp:2652-2837 | the invariant of all places the IO thread can be in, kept by each step of either thread, up to the first skipped frame or overflowing length word |
| TcpSteps.LoopEndsExactly | Server/Net/mytcpsock.cpp:2734-2836 | for a header with the right magic number: which length words close the connection, keep the loop where it is, pass bytes, or make the count of bytes ahead grow, each if and only if |
| TcpSteps.NeverEnds | Server/Net/mytcpsock.cpp:2751-2757 | with length word 0xFFFFFFF8 any number of rounds leaves the parser where it was |
| TcpSteps.IoProgress | Server/Net/mytcpsock.cpp:2699-2836 | each step within a read lowers a measure, unless a length word overflows; the main thread's steps leave it alone |
| TcpSteps.ReadIsDone | Server/Net/mytcpsock.cpp:2652-2837 | a read is over after finitely many steps, and then every complete frame has been popped or has its event, or the stream went on with a bad header and the connection has stopped |
| TcpSteps.MainDrains | Server/Net/mytcpsock.cpp:3067-3102 | after finitely many steps of the main thread all complete frames have been delivered |
| TcpSteps.PopFrame | Server/Net/loopbuff.cpp:207-245 | the ring in memory does what the step on its abstract state does; likewise for clearing, storing and marking |
| EventQueue.Fifo | Server/Net/eventqueue.h:51-96 | in every interleaving of the steps of pushes and pops, each reading the other's cursor at some earlier moment, the popped elements are a prefix of the pushed ones |
| EventQueue.PointerStays | Server/Net/eventqueue.h:69-96 | the slot behind the pointer a pop returned keeps its element until the next pop starts, whatever is pushed |
| EventQueue.TEventQueue.PushBack | Server/Net/eventqueue.h:51-67 | an element is taken exactly when fewer than size - 1 are waiting |
| EventQueue.TEventQueue.PopFront | Server/Net/eventqueue.h:69-96 | yields the oldest element, or none exactly when the queue is empty |
| UdpProtocol.Reliable | Server/Net/myudpsock.cpp:2742-3140 | in every run over a channel that loses, repeats and reorders, with no datagram older than 224 numbers delivered, the bytes put into either receive ring are a prefix of those taken from the peer's send ring |
| UdpProtocol.WindowsRefine | Server/Net/myudpsock.h:24-36 | in every reachable state send begin <= receive begin <= send end <= send begin + 32 on unbounded numbers, and the 8-bit positions are these modulo 256 |
| UdpProtocol.TestsRefine | Server/Net/myudpsock.h:30-35 | for every deliverable datagram each 8-bit window test says what the unbounded one says; an acknowledgement without data is never taken for data |
| UdpWindow.WindowTest | Server/Net/myudpsock.h:30-35 | the 8-bit test agrees up to 224 numbers back; at 225 it is wrong exactly for a window of 32 |
| UdpWindow.ReceiveAgrees | Server/Net/myudpsock.cpp:2821-2999 | one datagram has the same effect on 8-bit and unbounded state and releases the same payloads |
| UdpWindow.ReceivedFields | Server/Net/myudpsock.cpp:2821-2999 | what a datagram does to the fields: send begin and packets in flight by the acknowledgement, slots and receive begin by the data, up to the first gap |
| UdpWindow.ReceivedMeans | Server/Net/myudpsock.cpp:2821-2999 | the same on unbounded numbers: an acknowledgement in flight sets send begin one behind it, any other leaves it; receive begin moves by the number of payloads released, in order, up to the first gap |
| UdpPool.AllocateOk | Server/Net/myudpsock.cpp:2761-2764 | taking the first free buffer keeps free and held buffers a partition of 0..31 |
| UdpPool.FreeOk | Server/Net/myudpsock.cpp:2858-2861 | so does freeing one |
| UdpPool.SomeFree | Server/Net/myudpsock.cpp:1953-1954 | a buffer is free exactly when not all 32 are held |
| UdpPool.ClearBuffer | Server/Net/myudpsock.h:39-45 | links all 32 buffers into one acyclic free list |
| UdpBuffers.RecvAllocate | Server/Net/myudpsock.cpp:2761-2773 | while one slot is empty an arriving datagram finds a free buffer |
| UdpWindow.ReceivedAtRest | Server/Net/myudpsock.cpp:2889-2999 | every datagram leaves the slot at the front of the receive window empty |
| UdpTransfer.FreeUpTo | Server/Net/myudpsock.cpp:2840-2862 | frees exactly the buffers up to the acknowledgement, the loop ending within the window |
| UdpTransfer.LastReady | Server/Net/myudpsock.cpp:2924-2935 | finds the last number that has arrived without a gap |
| UdpTransfer.FillWindow | Server/Net/myudpsock.cpp:1952-2003 | numbers a prefix of the bytes offered, in pieces that fit a buffer, up to 32 in flight and the control bound; the pool stays partitioned |
| UdpTransfer.Transmit | Server/Net/myudpsock.cpp:2038-2120 | sends the packets in flight that are due and within the control bound, in order, until the socket refuses |
| UdpTransfer.TransmissionComplete | Server/Net/myudpsock.cpp:2038-2120 | every packet in flight that is due and within reach is among those |
| UdpTransfer.FillsMeans | Server/Net/myudpsock.cpp:1952-2035 | bytes are numbered as long as there are bytes, a buffer, window and control room; every piece but the last is full |
| UdpTransfer.TransmissionMeans | Server/Net/myudpsock.cpp:2038-2120 | transmitted are, in order and once each, exactly the packets that are due and within reach, with their numbers and the acknowledgement of the receive window |
| UdpSocket.NumberedMeans | Server/Net/myudpsock.cpp:1952-2035 | an empty packet is numbered exactly when probing with nothing in flight and nothing to send |
| UdpSocket.PlanMeans | Server/Net/myudpsock.cpp:2038-2174 | an acknowledgement that is owed goes out as (established, send begin - 1, receive begin - 1) exactly when no packet does |
| UdpSocket.UdpConnectSock.OnRecv | Server/Net/myudpsock.cpp:2742-3140 | windows, pool and ring after any datagram are those of the value model; in fields: an acknowledgement in flight moves send begin behind it and frees the packets up to it, any other changes nothing; data fills its slot, and the slots up to the first gap leave the window, their payloads going into the ring; too little room in the ring closes the connection after part of a payload |
| UdpSocket.UdpConnectSock.PostSend | Server/Net/myudpsock.cpp:1871-2174 | the packets numbered are the front of the send ring, and what goes out is what is due, then an acknowledgement that is owed |
| UdpSocket.ReceiptRefines | Server/Net/myudpsock.cpp:2742-3140 | what a socket does with a peer's datagram is a step of the protocol |
| UdpSocket.SendingRefines | Server/Net/myudpsock.cpp:1871-2174 | so is numbering and transmitting |
| UdpSocket.UdpConnectSock.Accept | Server/Net/myudpsock.cpp:667-940 | opens exactly for a first datagram (connecting, 1, 0), answering the bytes (established, 1, 1) |
| UdpSocket.UdpConnectSock.Connect | Server/Net/myudpsock.cpp:1346-1686 | opens exactly for the answer (established, 1, 1); its own packet stays in flight |
| UdpSocket.ShakenConnected | Server/Net/myudpsock.cpp:1452-1610 | after the handshake both ends are in the state the protocol's runs start from |
| LuaMark.MarkTri | Server/LuaLib/lgc.c:69-112 | marking an object keeps the tri-colour invariant |
| LuaMark.StepTri | Server/LuaLib/lgc.c:277-320 | so does propagating one; threads stay gray |
| LuaCycle.AtomicInv | Server/LuaLib/lgc.c:525-553 | the atomic end of marking, from any reachable marking state: afterwards live objects refer to live ones only, and only sweeping is left |
| LuaSweep.DoomedUnreachable | Server/LuaLib/lgc.c:407-428 | what the sweeper frees no root reaches |
| LuaSweep.SweptReach | Server/LuaLib/lgc.c:378-428 | sweeping does not change what is reachable, although freed threads close their upvalues |
| LuaSweep.HalvedMeans | Server/LuaLib/lgc.c:431-436 | the string table is halved exactly when sweeping ends with fewer strings than a quarter of its chains and more than 64 chains |
| LuaMutator.OpInv | Server/LuaLib/lgc.c:662-692 | allocation, stores with forward or back barrier, stack writes without, lookups that revive, closing of upvalues, root changes: each keeps the collector's invariant in every phase; what each does is in the next rows |
| LuaMutator.StoreInv | Server/LuaLib/lgc.c:662-683 | a store of a live value with its barrier keeps it |
| LuaMutator.CloseOneInv | Server/LuaLib/lfunc.c:96-112 | closing an open upvalue keeps it, freeing it if it is dead |
| LuaMutator.NewHeld | Server/LuaLib/lvm.c:457-463 | a new object is reachable, and of the current white, once the instruction that makes it is done |
| LuaMutator.InternHeld | Server/LuaLib/lstring.c:75-93 | an interned string is reachable and alive after the lookup, new, found, or found dead but not yet freed |
| LuaMutator.UpvalHeld | Server/LuaLib/lfunc.c:53-79 | the upvalue of a stack slot is reachable after it has been found, perhaps dead, or made |
| LuaMutator.SetUpvalMeans | Server/LuaLib/lvm.c:447-452 | after an assignment to an upvalue it holds the value: in the stack slot while open, in itself once closed; nothing else changes |
| LuaMutator.SetSlotMeans | Server/LuaLib/lvm.c:134-147 | a store puts the value into the field or slot; nothing else changes |
| LuaMutator.FindUpvalMeans | Server/LuaLib/lfunc.c:53-79 | the closure gets the open upvalue of the stack slot, the one there is or a new one, which shows what the slot holds |
| LuaMutator.CloseUpvalMeans | Server/LuaLib/lfunc.c:96-112 | a closed upvalue keeps its value, a dead one is freed; nothing else changes |
| LuaMutator.InternMeans | Server/LuaLib/lstring.c:75-93 | the string of the text, the one there is or a new one, lies in the stack slot; nothing else changes |
| LuaMutator.NewMeans | Server/LuaLib/lvm.c:457-463 | a new object has its kind and contents and lies in the stack slot; nothing else changes |
| LuaMutator.PopMeans | Server/LuaLib/lapi.c:164-180 | a stack that shrinks keeps its lower part; nothing else changes |
| LuaMutator.SetMtMeans | Server/LuaLib/lapi.c:697-732 | one basic metatable is set; nothing else changes |
| LuaMutator.ResumeMeans | Server/LuaLib/ldo.c:383-415 | another thread runs; nothing else changes |
| LuaMutator.BarrierMeans | Server/LuaLib/lgc.c:662-683 | which colours a store changes: a black object with a white value is put aside if a table, else the value is marked while marking and the object whitened while sweeping; in all other cases none |
| LuaCollector.SingleStepInv | Server/LuaLib/lgc.c:556-607 | every step of the collector keeps the invariant and frees only what is neither reachable nor fixed |
| LuaCollector.Safe | Server/LuaLib/lgc.c:556-607 | in every run of collector steps and program operations in any order, whatever a root reaches is there, is not white of the previous cycle, and is there after the next step |
| LuaCollector.Allocates | Server/LuaLib/lgc.c:686-692 | every run can go on with an allocation whose object is then reachable |
| LuaCollector.LooksUp | Server/LuaLib/lstring.c:75-93 | every run can go on with the lookup of a string, which is then reachable, found or made |
| LuaCollector.Stores | Server/LuaLib/lgc.c:662-683 | every run can go on with a store of whatever is reachable into whatever is reachable and can be written, which then holds it |
| LuaCollector.Assigns | Server/LuaLib/lvm.c:447-452 | and with an assignment to any reachable upvalue, which then holds the value |
| LuaFullGc.FullGcExact | Server/LuaLib/lgc.c:636-659 | a full collection started in any state leaves exactly the reachable and the fixed objects, all of the current white, holding what they held |
| LuaFullGc.StepProgress | Server/LuaLib/lgc.c:636-659 | each step but the one that starts a collection lowers a measure, so its loops end |
| LuaGc.GlobalState.ReallyMarkObject | Server/LuaLib/lgc.c:69-112 | the method's new state is that of the function on values |
| LuaGc.GlobalState.AtomicEnd | Server/LuaLib/lgc.c:525-553 | likewise for the atomic end |
| LuaGc.GlobalState.Singlestep | Server/LuaLib/lgc.c:556-607 | likewise for a step in any phase |
| LuaGc.GlobalState.FullCollection | Server/LuaLib/lgc.c:636-659 | likewise for a full collection |
| LuaVm.Compose | Server/LuaLib/lcode.c:150-182 | running code whose open jumps have been given targets is running it as it was and going on from where that ended |
| LuaShape.CompileShape | Server/LuaLib/lcode.c:516-626 | whatever is compiled, lists hold open jumps, disjoint, and no other jump leaves the code |
| LuaSound.GoIfTrueRight | Server/LuaLib/lcode.c:539-564 | after `luaK_goiftrue` a run goes on exactly when the operand was true, and otherwise leaves by the list with what its jump carries; for every literal, nil included |
| LuaSound.GoIfFalseRight | Server/LuaLib/lcode.c:567-591 | the same for `luaK_goiffalse` |
| LuaValues.CodeNotRight | Server/LuaLib/lcode.c:594-626 | negation gives exactly true or false and makes jumps forget their values |
| LuaCorrect.Exp2RegRight | Server/LuaLib/lcode.c:390-411 | `exp2reg` leaves the value in the register from wherever the run comes, and changes no other |
| LuaCorrect.CompileRight | Server/LuaLib/lcode.c:516-789 | the code of every expression, entered at its start or by a pending jump, is left as `LuaExits.Leave` says |
| LuaExits.Follows | Server/LuaLib/lcode.c:539-591 | every run takes one of the ways computed from the expression alone; its truth is right, and its value too unless a bare literal took along a jump with a value |
| LuaExits.HarmlessExactly | Server/LuaLib/lcode.c:547-578 | for expressions reading no local twice the outcome is the value for all registers and comparisons if and only if the expression is harmless |
| LuaExits.CarefulHarmless | Server/LuaLib/lcode.c:547-578 | expressions without `false` before and, `true` before or, are harmless |
| LuaAssign.DeclareYields | Server/LuaLib/lcode.c:414-419 | every expression compiled into a new local yields its outcome there, all other locals unchanged |
| LuaAssign.AssignYields | Server/LuaLib/lcode.c:472-480 | likewise assigned to a local |
| LuaAssign.CompiledRight | Server/LuaLib/lcode.c:390-419 | a harmless expression has its value, in both |
| LuaAssign.CompiledRightExactly | Server/LuaLib/lcode.c:547-578 | an expression reading no local twice is compiled right for all registers and comparisons if and only if it is harmless |
| LuaAssign.CompiledRightThroughout | Server/LuaLib/lcode.c:547-578 | any expression without comparisons is compiled right for all registers if and only if no value is lost for any choice of which locals are true, finitely many cases |
| LuaAssign.CompiledRightWhen | Server/LuaLib/lcode.c:547-578 | run by run, for any expression whose comparisons get right operands: right if and only if no bare literal decided while taking along a different value |
| LuaAssign.NilIsYielded | Server/LuaLib/lcode.c:547-550 | `a and b or false and c` yields nil for its value false, and its negation is compiled right |
| LuaAssign.DeadPathRight | Server/LuaLib/lcode.c:547-550 | an expression that is not harmless and yet compiled right, because it reads a local twice |
| LuaAssign.LogicYields | Server/LuaLib/lcode.c:539-626 | what `and`, `or` and `not` of locals yield, nil and false being false |
| LuaAssign.LiteralYields | Server/LuaLib/lcode.c:343-376 | what literals yield, and comparisons with them, whether or not they fit an operand |
| LuaAssign.ComparisonYields | Server/LuaLib/lcode.c:681-694 | what each comparison of locals yields, > and >= with operands exchanged |
| LuaAssign.AndOrCode | Server/LuaLib/lcode.c:718-760 | the three instructions of `and` and of `or` of two locals |
| LuaAssign.ComparisonCode | Server/LuaLib/lcode.c:781-786 | the four instructions of each comparison of two locals |
| LuaGenerator.FuncState.Concat | Server/LuaLib/lcode.c:185-196 | the threaded list is the one list appended to the other, in the code as it is in memory |
| LuaGenerator.FuncState.PatchListAux | Server/LuaLib/lcode.c:150-160 | every jump of the list gets its target and its test its register; nothing else changes |
| LuaGenerator.FuncState.Exp2Reg | Server/LuaLib/lcode.c:390-411 | the code in memory is that of the function on lists |
| LuaJumps.OffsetsMean | Server/LuaLib/lcode.c:76-84 | a jump in memory holds its distance from the next instruction |
| LuaJumps.LinksMean | Server/LuaLib/lcode.c:97-113 | a list in memory: the number of its first jump, each jump the distance to the next, the end marked by -1 |
| LuaCompiler.DeclareLocal | Server/LuaLib/lcode.c:414-419 | the code in memory, run as it stands, puts the expression's outcome, its value if harmless, into the new local |
| LuaCompiler.AssignLocal | Server/LuaLib/lcode.c:472-480 | likewise for an assignment |
| LuaCompiler.AndOrInMemory | Server/LuaLib/lcode.c:76-84 | the code in memory of `and` and of `or` of two locals, its jump with offset 1 |
| LuaTableOps.Table.Find | Server/LuaLib/ltable.c:435-491 | finds the key's slot, if it has one, along its chain |
| LuaTableOps.Table.Read | Server/LuaLib/ltable.c:469-491 | the value of a key |
| LuaTableOps.Table.InsertKey | Server/LuaLib/ltable.c:399-429 | a new key gets a node, moving a colliding one that is not in its main position; no entry changes; fails only when no node is free |
| LuaTableOps.Table.Put | Server/LuaLib/ltable.c:494-505 | after a set only that key's value has changed; nil and NaN keys are errors; a key that is present is not moved |
| LuaTableOps.Table.Resize | Server/LuaLib/ltable.c:297-324 | new sizes keep every entry, without rebuilding again; the array part has the size asked for, the hash part the smallest power of two that is enough |
| LuaTableOps.Table.Rehash | Server/LuaLib/ltable.c:333-349 | rebuilding keeps every entry and leaves room for the new key; the array part has the best size for the integer keys in use and the new one, the hash part the smallest power of two for the others |
| LuaTableOps.IntKeysMean | Server/LuaLib/ltable.c:211-270 | the integer keys counted are those from 1 to 2^26 that have a value, and the new one |
| LuaTableOps.Run | Server/LuaLib/ltable.c:358-505 | a table after any run of at most 2^26 sets, nil values included, is the finite map they make |
| LuaSizes.ComputeSizes | Server/LuaLib/ltable.c:189-208 | the array size is the largest power of two n with more than n/2 of 1..n in use, and the count is exact |
| LuaTraverse.GetN | Server/LuaLib/ltable.c:560-576 | always a border: t[n] is not nil or n = 0, and t[n+1] is nil, in every fallback |
| LuaTraverse.VisitedOnce | Server/LuaLib/ltable.c:137-179 | a traversal visits no key twice, whatever values change on the way |
| LuaTraverse.AllVisited | Server/LuaLib/ltable.c:162-179 | and every entry that is there throughout |
| LuaMatch.MatchState.Match | Server/LuaLib/lstrlib.c:365-440 | yields the preferred match with its captures, or none when there is none, restoring captures and open marks; which match that is, the rows of LuaPreferred say of the characters of the pattern |
| LuaMatch.MatchState.MaxExpand | Server/LuaLib/lstrlib.c:301-313 | tries repetitions from the longest down |
| LuaMatch.MatchState.MinExpand | Server/LuaLib/lstrlib.c:316-326 | and from the shortest up |
| LuaPattern.MatchesAre | Server/LuaLib/lstrlib.c:365-440 | the matches listed are the prefixes in the pattern's language, both directions |
| LuaPreferred.MinusMeans | Server/LuaLib/lstrlib.c:316-326 | suffix -: the match goes on behind the fewest accepted characters with which the rest matches, both directions |
| LuaPreferred.StarMeans | Server/LuaLib/lstrlib.c:301-313 | suffix *: behind the most |
| LuaPreferred.PlusMeans | Server/LuaLib/lstrlib.c:427-429 | suffix +: behind the most, at least one |
| LuaPreferred.QuestionMeans | Server/LuaLib/lstrlib.c:418-423 | suffix ?: with the character if it is accepted and the rest then matches, else without |
| LuaPreferred.BareMeans | Server/LuaLib/lstrlib.c:433-436 | no suffix: exactly one accepted character |
| LuaPreferred.OpenMeans | Server/LuaLib/lstrlib.c:329-340 | an opening bracket starts a capture of text or place, at most 32 |
| LuaPreferred.CloseMeans | Server/LuaLib/lstrlib.c:343-352 | a closing bracket closes the last capture still open, and is an error without one |
| LuaPreferred.BalanceMeans | Server/LuaLib/lstrlib.c:281-298 | %bxy goes on behind the shortest balanced text, and only there; the same character twice goes to its next occurrence |
| LuaPreferred.FrontierMeans | Server/LuaLib/lstrlib.c:384-396 | %f[set] goes on exactly between a character outside the set and one in it, zeros standing at both ends |
| LuaPreferred.BackRefMeans | Server/LuaLib/lstrlib.c:354-362 | %1 to %9 go on behind the text of that capture, which must exist and be closed |
| LuaPreferred.DollarMeans | Server/LuaLib/lstrlib.c:409-412 | a $ at the end of the pattern matches at the end of the subject only |
| LuaPreferred.SetEndMeans | Server/LuaLib/lstrlib.c:209-218 | a set ends behind the first bracket that is not its first character and has an even number of % before it |
| LuaPreferred.PlainSet | Server/LuaLib/lstrlib.c:245-266 | a set without escapes and ranges is the set of its characters |
| LuaPreferred.ClassesMean | Server/LuaLib/lstrlib.c:226-242 | the character codes of the classes; MoreClassesMean, ComplementsMean and OthersMean have the rest |
| LuaPreferred.WordsMean | Server/LuaLib/lstrlib.c:414-437 | the words of a pattern: so many accepted characters as the suffix says, then a word of the rest |
| LuaPreferred.FewestWords | Server/LuaLib/lstrlib.c:316-326 | suffix - takes the fewest characters behind which a word of the rest begins |
| LuaPreferred.MostWords | Server/LuaLib/lstrlib.c:301-313 | suffix * takes the most |
| LuaPreferred.TagsMean | Server/LuaLib/lstrlib.c:430-431 | in "<a><b>" the pattern <.-> ends at 3 and <.*> at 6 |
| LuaFind.Search | Server/LuaLib/lstrlib.c:495-535 | finds the leftmost start at which the pattern matches, with the preferred match there; none only if there is none; never an error for a well-formed pattern; where items do not look around, the starts at which some word of the pattern begins |
| LuaSort.Partition | Server/LuaLib/ltablib.c:196-243 | splits around the median of three, no scan leaving the part |
| LuaSort.AuxSort | Server/LuaLib/ltablib.c:193-254 | for every strict weak order the part becomes a sorted permutation; calls are nested at most d deep for fewer than 2^d elements |
| LuaSort.Sort | Server/LuaLib/ltablib.c:256-264 | sorts the whole table; nesting at most floor(log2 n) + 1 |
| LuaChunk.DumpUndone | Server/LuaLib/ldump.c:61-148 | loading a dump, stripped or not, gives the tree with its names filled in and consumes exactly what was written |
| LuaChunk.RoundTrip | Server/LuaLib/lundump.c:76-181 | loading an unstripped dump gives back the tree and the bytes behind it if and only if every function in it has a source name |
| LuaChunk.IntBytes | Server/LuaLib/ldump.c:45-48 | an integer is four bytes, lowest first, in two's complement |
| LuaChunk.SizeBytes | Server/LuaLib/ldump.c:61-75 | a size is eight bytes, lowest first |
| LuaChunk.StringBytes | Server/LuaLib/ldump.c:61-75 | a string is its size with the zero, its characters, the zero; none is size zero |
| LuaChunk.DumpBegins | Server/LuaLib/lundump.c:214-227 | every dump begins with the twelve header bytes, literally, then the size of the source name and the name |
| LuaChunk.SampleBytes | Server/LuaLib/ldump.c:78-148 | a whole chunk, byte by byte, with something in every field |
| LuaChunk.IntRead | Server/LuaLib/lundump.c:61-67 | four bytes read as b0 + 256 b1 + 65536 b2 + 16777216 b3, as a signed value |
| LuaChunk.StringRead | Server/LuaLib/lundump.c:76-89 | eight bytes read as a size, lowest first, and as many bytes behind it as the string |
| LuaChunkEnds.UndumpStays | Server/LuaLib/lundump.c:48-52 | what loading finds in bytes does not change when more follow, unless it ran out of them |
| LuaChunkEnds.Truncated | Server/LuaLib/lundump.c:48-52 | no proper prefix of a dump loads: wherever it breaks off, its end is missed |
| LuaChunkEnds.DumpsDiffer | Server/LuaLib/ldump.c:151-164 | dumps of functions that differ differ, and none is a prefix of another |
| LuaChunkEnds.HeaderNeeded | Server/LuaLib/lundump.c:183-190 | only what begins with the header loads; any other twelve bytes are a bad header |
| LuaDump.DumpState.DumpChunk | Server/LuaLib/ldump.c:29-164 | the writer gets a prefix of the dump, all of it exactly when it has room for all, then beginning with the twelve header bytes, and the status says which; byte by byte the dump is as the rows of LuaChunk say |
| LuaLoad.LoadState.LoadChunk | Server/LuaLib/lundump.c:161-209 | for any bytes: what reading the format gives, or its first error; integers and sizes are read lowest byte first (LuaChunk.IntRead, LuaChunk.StringRead) |
| LuaLoad.DumpThenLoad | Server/LuaLib/lundump.c:195-209 | dumper and loader together: succeeds exactly when the writer has room, and then gives back the function exactly when it has names |

## Left out

- The Windows twins of the socket paths, and accepting, closing, keep-alive, logging and error events beyond the one that ends a connection: socket calls are inputs of the model.
- The UDP socket's own frame parser (Server/Net/myudpsock.cpp:3001-3138): the same loop as the TCP parser's.
- Receiving a UDP datagram when none is there: that return keeps the buffer it has taken; a receive step starts only with a datagram. A datagram in another state, or a short one that closes the socket, likewise.
- Congestion control and timers: window control bound, retry times and probes are parameters; the comparison of packet distance with the control bound is modelled in `int` and bounded by the pool's 32 buffers.
- UdpSocket.UdpConnectSock.OnRecv: copies a payload before the ring's cursor moves where the code moves it after each part; the outcome is the same.
- UdpSocket.UdpConnectSock.Accept: requires a datagram of at least one byte.
- The waiting and resending loop of UDP connect, and liveness of any kind that needs the network to be fair.
- WebSocket and HTTP sockets.
- TcpReceiver.Receiver.OnRecv: requires that no length word overflows a C `int`; for those see TcpSteps.LoopEndsExactly.
- TcpReceiver.Receiver.ProcRecv: requires an event of at least a header's length, which the parser's events have; the event value -1 is never pushed on this path.
- TcpSender.Sender.Send: requires header and payload to fit the staging buffer, whose bound the code does not test.
- TcpSteps.StepsEndToEnd: messages fit the session's buffer; for others see TcpConnection.DrainInOrder.
- The parser's scratch header is a sequence field, not an array; the C `int` counters of the parser are integers, which stay within the ring's length.
- Memory ordering of the event queue's cursors: increment and wrap of a cursor are one step.
- Weak tables, finalizers, userdata with finalizers, the debug hooks and memory accounting of the collector.
- Open upvalues are found by their stack slot; the per-thread list order is not modelled. Closing a stack level is repeated `CloseUpval`.
- The chains of the string table are the classes of the hash modulo the table's size, not linked lists.
- Dead keys left in a table by the collector, `luaH_resizearray`, and array parts larger than 2^26.
- LuaTableOps.Table.Put: after the overflow error the table's state is not described.
- Merging of LOADNIL instructions and omitting one at a function's start: nil is loaded by one instruction of its own.
- Register and stack limits of the code generator; whether a constant's index fits an operand is part of the expression. Globals, upvalues, calls and indexing as operands, and constant folding.
- LuaExits.HarmlessExactly: the only-if direction needs that no local is read twice and that comparisons compare locals; LuaExits.DeadPath shows that it fails when one is read twice, and LuaExits.CleanExactly has the exact condition then, without comparisons.
- C recursion limits of matcher and parser, memory failure, locales other than "C", and a capture buffer of fixed size: captures are a sequence of at most 32.
- LuaFind.Search: the language of words is stated for patterns without %b, %f and back references; for these LuaPreferred says which match comes first.
- The chunk format is that of a 64-bit little-endian machine; the bytecode checker is a parameter.
- LuaSort.Sort: for a comparison that is no strict weak order nothing is promised.
