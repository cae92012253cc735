/**
 The IO thread and the main thread of a receiving connection, step by step.  Every
 operation on the ring and every event pushed or taken is a step of its own, and the
 steps of the two threads interleave in any way.
 */
module TcpSteps {
  import opened Options
  import opened Bytes
  import opened FrameStream
  import opened LoopBuffer
  import opened TcpReceiver

  // ---------------------------------------------------------------- the ring

  /** What the threads see of the ring: the bytes stored, how many of them are marked, and the use-cursor. */
  datatype Ring = Ring(contents: seq<byte>, marked: nat, useCur: nat, total: nat)

  predicate RingOk(r: Ring)
  {
    r.useCur < r.total && r.marked <= |r.contents| <= r.total
  }

  function Unmarked(r: Ring): seq<byte>
    requires r.marked <= |r.contents|
  {
    r.contents[r.marked..]
  }

  /** How many unmarked bytes lie in one stretch. */
  function Stretch(r: Ring): nat
    requires RingOk(r)
  {
    if |Unmarked(r)| <= r.total - r.useCur then |Unmarked(r)| else r.total - r.useCur
  }

  /** Where the next bytes go. */
  function InPos(r: Ring): nat
    requires RingOk(r)
  {
    Turned(r, |Unmarked(r)|)
  }

  /** The use-cursor, moved on by n. */
  function Turned(r: Ring, n: nat): (p: nat)
    requires r.useCur < r.total && n <= r.total
    ensures p < r.total
  {
    if r.useCur + n < r.total then r.useCur + n else r.useCur + n - r.total
  }

  function Cleared(r: Ring): Ring
  {
    if r.contents == [] then Ring([], 0, 0, r.total) else r
  }

  function Stored(r: Ring, data: seq<byte>): Ring
  {
    r.(contents := r.contents + data)
  }

  function CostUsed(r: Ring, n: int): Ring
    requires RingOk(r)
  {
    if 0 < n <= |Unmarked(r)| then r.(marked := r.marked + n, useCur := Turned(r, n)) else r
  }

  function Popped(r: Ring, n: nat): Ring
  {
    if 0 < n <= |r.contents| then r.(contents := r.contents[n..], marked := if n <= r.marked then r.marked - n else 0) else r
  }

  /** The ring in memory. */
  ghost function RingOf(b: LoopBuff): (r: Ring)
    reads b, b.buf
    requires b.Valid() && b.MarksOk()
    ensures RingOk(r) && Unmarked(r) == b.Unmarked()
  {
    Ring(b.Contents(), b.Marked(), b.useCur, b.total)
  }

  lemma RingIs(b: LoopBuff)
    requires b.Valid() && b.MarksOk()
    ensures var r := RingOf(b); r.contents == b.Contents() && r.useCur == b.useCur && r.total == b.total && (r.contents == [] ==> r.marked == 0)
  {
  }

  lemma ClearedIs(r: Ring)
    ensures Cleared(r) == if r.contents == [] then Ring([], 0, 0, r.total) else r
  {
  }

  /** Each operation on the ring in memory is the step on what the threads see of it. */
  method ClearEmpty(b: LoopBuff)
    requires b.Valid() && b.MarksOk()
    modifies b`inCur, b`outCur, b`useCur, b`loop, b`useLoop
    ensures b.Valid() && b.MarksOk() && RingOf(b) == Cleared(old(RingOf(b)))
  {
    hide *;
    ghost var r := RingOf(b);
    RingIs(b);
    var empty := b.IsEmpty();
    assert RingOf(b) == r;
    if empty {
      b.Clear();
      RingIs(b);
    }
    ClearedIs(r);
  }

  method StoreArrived(b: LoopBuff, data: seq<byte>)
    requires b.Valid() && b.MarksOk() && 0 < |data| <= b.InRoom()
    modifies b, b.buf
    ensures b.Valid() && b.MarksOk() && b.buf == old(b.buf) && RingOf(b) == Stored(old(RingOf(b)), data)
  {
    hide LoopBuff.Contents, LoopBuff.Unmarked, LoopBuff.MarksOk, LoopBuff.Staged;
    b.StoreFree(data);
    var done := b.CostBuff(|data|);
  }

  method MarkPassed(b: LoopBuff, n: int) returns (ok: bool)
    requires b.Valid() && b.MarksOk()
    modifies b`useCur, b`useLoop
    ensures b.Valid() && b.MarksOk() && RingOf(b) == CostUsed(old(RingOf(b)), n)
    ensures ok == (0 < n <= |Unmarked(old(RingOf(b)))|)
  {
    hide LoopBuff.Contents, LoopBuff.Unmarked, LoopBuff.MarksOk;
    ok := b.CostUsedBuff(n);
  }

  /** Only marked bytes are popped. */
  method PopFrame(b: LoopBuff, n: nat) returns (ok: bool, frame: seq<byte>)
    requires b.Valid() && b.MarksOk() && n <= b.Marked()
    modifies b`outCur, b`free, b`loop
    ensures b.Valid() && b.MarksOk() && RingOf(b) == Popped(old(RingOf(b)), n)
    ensures ok == (0 < n <= old(|b.Contents()|)) && frame == if ok then old(b.Contents())[..n] else []
  {
    hide LoopBuff.Contents, LoopBuff.Unmarked, LoopBuff.MarksOk;
    ok, frame := b.PopBuff(n);
  }

  /** k more bytes fit behind the in-cursor. */
  predicate Room(r: Ring, k: nat)
    requires RingOk(r)
  {
    k <= r.total - |r.contents| && InPos(r) + k <= r.total
  }

  lemma InPosIs(b: LoopBuff)
    requires b.Valid() && b.MarksOk()
    ensures InPos(RingOf(b)) == b.inCur && b.free == b.total - |b.Contents()|
    ensures b.FirstRun() == Stretch(RingOf(b))
  {
    hide Span;
    assert |b.Unmarked()| == if b.useLoop then b.total - b.useCur + b.inCur else b.inCur - b.useCur;
  }

  lemma RoomIs(b: LoopBuff, n: nat)
    requires b.Valid() && b.MarksOk() && n == b.InRoom()
    ensures forall k: nat :: Room(RingOf(b), k) <==> k <= n
  {
    InPosIs(b);
    hide LoopBuff.MarksOk, LoopBuff.Unmarked, LoopBuff.Contents, LoopBuff.Marked, InPos;
  }

  /** The unmarked bytes in one stretch, and all of them. */
  method Unparsed(b: LoopBuff) returns (n: nat, len: int)
    requires b.Valid() && b.MarksOk()
    ensures n == Stretch(RingOf(b)) && len == |Unmarked(RingOf(b))|
  {
    hide *;
    ghost var r := RingOf(b);
    InPosIs(b);
    len := b.GetUseLen();
    assert RingOf(b) == r;
    var p, first := b.GetUsedCursorPtr();
    n := first;
    assert RingOf(b) == r;
  }

  /** How much the socket is offered. */
  method Offered(b: LoopBuff) returns (room: nat)
    requires b.Valid() && b.MarksOk()
    ensures forall k: nat :: Room(RingOf(b), k) <==> k <= room
  {
    hide *;
    var q, some := b.GetInCursorPtr();
    room := some;
    RoomIs(b, room);
  }

  // ---------------------------------------------------------------- the threads

  datatype Cause = Ended | BadHeader | BadRing

  /**
   Where the IO thread is.  `n`: bytes ahead of the parser in one stretch, the first of them in cell `p`;
   `used`: bytes passed but not marked yet; `k`: bytes that complete the current frame.
   */
  datatype Io =
    | Idle | Ready | Got
    | Loop(n: int, used: int, p: int)
    | Mark(n: int, used: int, k: int, p: int) | Announce(n: int, p: int)
    | Short(n: int, used: int, p: int) | Count(n: int, p: int) | Piece(n: int, p: int) | Front(n: int)
    | Leave(used: int) | Report(cause: Cause) | Stopped(cause: Cause)

  /** The main thread: between events, or with the length of a frame whose event it has taken. */
  datatype Main = Free | Holding(len: nat)

  datatype Conn = Conn(ring: Ring, io: Io, header: seq<byte>, need: int, len: int, events: seq<Event>, main: Main,
                       delivered: seq<seq<byte>>, recvSize: nat, skipped: bool, log: Log)

  /** Bytes passed but not marked. */
  function Used(io: Io): int
  {
    match io
    case Loop(_, used, _) => used
    case Mark(_, used, _, _) => used
    case Short(_, used, _) => used
    case Leave(used) => used
    case _ => 0
  }

  /** What the parser has not looked at. */
  function Todo(c: Conn): seq<byte>
  {
    var d := c.ring.marked + Used(c.io);
    if 0 <= d <= |c.ring.contents| then c.ring.contents[d..] else []
  }

  /** The next n bytes in front of the parser. */
  function Ahead(c: Conn, n: int): seq<byte>
  {
    if 0 <= n <= |Todo(c)| then Todo(c)[..n] else []
  }

  function Passed(c: Conn, k: int): Log
  {
    c.log.(cur := c.log.cur + Ahead(c, k))
  }

  /** The scratch header, with bytes copied to position `to` if they fit. */
  function Scratch(h: seq<byte>, to: nat, b: seq<byte>): seq<byte>
  {
    if to + |b| <= |h| then Copied(h, to, b) else h
  }

  /** What the parser makes of the bytes ahead: 0 if they are fewer than a header, -1 if the header is bad, else the frame's length. */
  function Verdict(header: seq<byte>, b: seq<byte>): int
  {
    if |b| < HEADER || |header| != HEADER then 0 else CheckHeader(header, b)
  }

  /** One round of the parser's loop, up to its first operation on the ring. */
  function LoopStep(c: Conn): Conn
    requires c.io.Loop?
  {
    var n, used, p := c.io.n, c.io.used, c.io.p;
    if n <= 0 then c.(io := if used != 0 then Leave(used) else Idle)
    else if c.need != 0 then
      if n >= c.need then c.(io := Mark(n - c.need, used, c.need, p + c.need))
      else c.(io := Loop(0, used + n, p), need := c.need - n, log := Passed(c, n))
    else
      var b := Ahead(c, n);
      var h := Scratch(c.header, 0, b[..if HEADER < |b| then HEADER else |b|]);
      HeaderStep(c.(header := h, len := Verdict(h, b)), n, used, p)
  }

  /** The parser has judged the header of the n bytes ahead. */
  function HeaderStep(c: Conn, n: int, used: int, p: int): Conn
  {
    if c.len == -1 then c.(io := Report(BadHeader))
    else if c.len == 0 then c.(io := Short(n, used, p))
    else if n >= c.len then c.(io := Mark(n - c.len, used, c.len, p + c.len))
    else c.(io := Loop(0, used + n, p), need := c.len - n, log := Passed(c, n))
  }

  /** The header's second half, at the front of the array. */
  function FrontStep(c: Conn): Conn
    requires c.io.Front? && RingOk(c.ring)
  {
    var n := c.io.n;
    var newLen, k := Stretch(c.ring), HEADER - n;
    if n < 0 || k < 0 || k > newLen then c.(io := Report(BadRing))
    else
      var h := Scratch(c.header, n, Ahead(c, k));
      var r := Verdict(h, h);
      var d := c.(header := h, len := r, need := r - HEADER);
      if 0 >= r then d.(io := Report(BadHeader))
      else if r == HEADER then d.(io := Mark(newLen - k, 0, k, c.ring.useCur + k))
      else d.(io := Loop(newLen - k, k, c.ring.useCur + k), log := Passed(c, k))
  }

  /** The frame whose last k bytes are being marked is finished. */
  function Closing(c: Conn, k: int): Log
  {
    c.log.(queued := c.log.queued + [c.log.cur + Ahead(c, k)], cur := [])
  }

  /** One step of the IO thread; `read` is what the socket yields: nothing now, or bytes, none of them at the end of the stream. */
  function IoStep(c: Conn, read: Option<seq<byte>>): Conn
    requires RingOk(c.ring)
  {
    match c.io
    case Idle => c.(ring := Cleared(c.ring), io := Ready)
    case Ready =>
      (match read
       case None => c.(io := Idle)
       case Some(data) =>
         if data == [] then c.(io := Report(Ended))
         else c.(ring := Stored(c.ring, data), io := Got, log := c.log.(stream := c.log.stream + data)))
    case Got => c.(io := if Stretch(c.ring) <= 0 then Report(BadRing) else Loop(Stretch(c.ring), 0, c.ring.useCur))
    case Loop(_, _, _) => LoopStep(c)
    case Mark(n, used, k, p) => c.(ring := CostUsed(c.ring, used + k), io := Announce(n, p), log := Closing(c, k))
    case Announce(n, p) => c.(events := c.events + [Recv(c.len % 0x1_0000_0000)], io := Loop(n, 0, p), need := 0, len := 0)
    case Short(n, used, p) => c.(ring := CostUsed(c.ring, used), io := if HEADER > n then Count(n, p) else Loop(n, 0, p), need := 0)
    case Count(n, p) =>
      if HEADER <= |Unmarked(c.ring)| then c.(header := Scratch(c.header, 0, Ahead(c, n)), io := Piece(n, p))
      else c.(io := Idle)
    case Piece(n, p) =>
      if 0 < n <= |Unmarked(c.ring)| then c.(ring := CostUsed(c.ring, n), io := Front(n), log := Passed(c, n))
      else c.(io := Idle)
    case Front(_) => FrontStep(c)
    case Leave(used) => c.(ring := CostUsed(c.ring, used), io := Idle)
    case Report(cause) => c.(events := c.events + [Error], io := Stopped(cause))
    case Stopped(_) => c
  }

  /** What the socket may yield: at most what it is offered. */
  predicate Fits(c: Conn, read: Option<seq<byte>>)
    requires RingOk(c.ring)
  {
    c.io.Ready? && read.Some? ==> Room(c.ring, |read.value|) && |read.value| <= SOCKET_CHUNK
  }

  /** One step of the main thread: it takes an event, or pops the frame of the event it holds. */
  function MainStep(c: Conn): Conn
  {
    match c.main
    case Free =>
      if c.events == [] then c
      else if c.events[0].Recv? then c.(events := c.events[1..], main := Holding(c.events[0].len))
      else c.(events := c.events[1..])
    case Holding(len) =>
      if c.recvSize < len then c.(main := Free, skipped := true, events := c.events + [Error])
      else if HEADER <= len <= |c.ring.contents| then
        c.(main := Free, ring := Popped(c.ring, len), delivered := c.delivered + [c.ring.contents[HEADER..len]],
           log := if c.log.queued == [] then c.log else c.log.(taken := c.log.taken + [c.log.queued[0]], queued := c.log.queued[1..]))
      else c.(main := Free)
  }

  datatype Act = IoAct(read: Option<seq<byte>>) | MainAct

  predicate Can(c: Conn, a: Act)
  {
    RingOk(c.ring) && (a.IoAct? ==> Fits(c, a.read))
  }

  function Do(c: Conn, a: Act): Conn
    requires Can(c, a)
  {
    match a case IoAct(read) => IoStep(c, read) case MainAct => MainStep(c)
  }

  function Start(total: nat, recvSize: nat): Conn
  {
    Conn(Ring([], 0, 0, total), Idle, seq(HEADER, _ => 0), 0, 0, [], Free, [], recvSize, false, Log([], [], [], []))
  }

  // ---------------------------------------------------------------- what every state keeps

  /** The events for finished frames, from the one the main thread holds to the one about to be pushed. */
  function AllEvents(c: Conn): seq<Event>
  {
    (if c.main.Holding? then [Recv(c.main.len)] else []) + Waiting(c.io.Stopped?, c.events) + (if c.io.Announce? then [Recv(c.len % 0x1_0000_0000)] else [])
  }

  /** The events of frames in the queue; when the IO thread has stopped, an error event is behind them. */
  function Waiting(stopped: bool, es: seq<Event>): seq<Event>
  {
    if stopped && es != [] && es[|es| - 1] == Error then es[..|es| - 1] else es
  }

  ghost predicate Synced(c: Conn)
  {
    Sync(c.log, AllEvents(c), c.delivered, c.ring.contents, Todo(c))
  }

  /** The next k bytes complete the current frame. */
  predicate Completes(c: Conn, k: int)
  {
    && 0 < k <= |Todo(c)|
    && HasFrame(c.log.cur + Todo(c)[..k]) && FrameLength(c.log.cur + Todo(c)[..k]) == |c.log.cur| + k == c.len
  }

  /** The n bytes behind the use-cursor and `used` more lie in one stretch from cell p. */
  predicate InStretch(r: Ring, n: int, used: int, p: int)
  {
    0 <= n && 0 <= used && p == r.useCur + used && p + n <= r.total
  }

  /** No frame is open, and n bytes, fewer than a header, are ahead. */
  predicate Few(c: Conn, n: int, p: int)
    requires RingOk(c.ring)
  {
    && c.need == 0 && c.len == 0 && c.log.cur == [] && 0 < n < HEADER
    && InStretch(c.ring, n, 0, p) && n <= |Unmarked(c.ring)| && (n == |Unmarked(c.ring)| || p + n == c.ring.total)
  }

  predicate LoopOk(c: Conn)
    requires RingOk(c.ring) && c.io.Loop?
  {
    var n, used, p, u := c.io.n, c.io.used, c.io.p, Unmarked(c.ring);
    && OpenFrame(c.need, c.len, c.log.cur) && 0 <= n && 0 <= used && used + n <= |u|
    && (c.need == 0 ==> used == 0) && used <= |c.log.cur|
    && (n > 0 ==> InStretch(c.ring, n, used, p))
    && (used + n == |u| || (c.need == 0 && 0 < n < HEADER && p + n == c.ring.total))
  }

  predicate MarkOk(c: Conn)
    requires RingOk(c.ring) && c.io.Mark?
  {
    var n, used, k, p := c.io.n, c.io.used, c.io.k, c.io.p;
    && Completes(c, k) && InStretch(c.ring, n, used + k, p) && 0 <= used <= |c.log.cur| && used + k + n == |Unmarked(c.ring)|
  }

  predicate FrontOk(c: Conn)
    requires RingOk(c.ring) && c.io.Front?
  {
    var n := c.io.n;
    && c.need == 0 && c.len == 0 && 0 < n < HEADER && |c.log.cur| == n && c.ring.useCur == 0
    && HEADER - n <= |Unmarked(c.ring)| && |c.header| == HEADER && c.header[..n] == c.log.cur
  }

  /** Between two reads: all bytes passed, or less than a header ahead. */
  predicate AtRest(c: Conn)
    requires RingOk(c.ring)
  {
    OpenFrame(c.need, c.len, c.log.cur) && if c.need > 0 then Unmarked(c.ring) == [] else |Unmarked(c.ring)| < HEADER
  }

  predicate GotOk(c: Conn)
    requires RingOk(c.ring)
  {
    && OpenFrame(c.need, c.len, c.log.cur)
    && 0 < Stretch(c.ring) && (Stretch(c.ring) == |Unmarked(c.ring)| || (c.need == 0 && Stretch(c.ring) < HEADER))
  }

  /** What holds where the IO thread is. */
  ghost predicate Place(c: Conn)
    requires RingOk(c.ring)
  {
    match c.io
    case Idle => AtRest(c)
    case Ready => AtRest(c)
    case Got => GotOk(c)
    case Loop(_, _, _) => LoopOk(c)
    case Mark(_, _, _, _) => MarkOk(c)
    case Announce(n, p) => c.log.cur == [] && n == |Unmarked(c.ring)| && (n > 0 ==> InStretch(c.ring, n, 0, p))
    case Short(n, used, p) => used == 0 && Few(c, n, p)
    case Count(n, p) => Few(c, n, p)
    case Piece(n, p) => Few(c, n, p) && HEADER <= |Unmarked(c.ring)| && |c.header| == HEADER && c.header[..n] == Unmarked(c.ring)[..n]
    case Front(_) => FrontOk(c)
    case Leave(used) => OpenFrame(c.need, c.len, c.log.cur) && 0 < used == |Unmarked(c.ring)| && used <= |c.log.cur| && c.need > 0
    case Report(cause) => Reason(c, cause)
    case Stopped(cause) => Reason(c, cause)
  }

  /** The ring is never found wrong; a bad header is one. */
  ghost predicate Reason(c: Conn, cause: Cause)
  {
    cause != BadRing && (cause == BadHeader ==> BadStart(Rest(c.log.stream)))
  }

  ghost predicate Ok(c: Conn)
  {
    RingOk(c.ring) && |c.header| == HEADER && Synced(c) && Place(c)
  }

  /**
   Up to the first frame too long for the session, and as long as no length word overflows, every state
   is in order.
   */
  ghost predicate Inv(c: Conn)
  {
    RingOk(c.ring) && (c.skipped || Oversized(Rest(c.log.stream)) || Ok(c))
  }

  // ---------------------------------------------------------------- the IO thread's steps

  lemma TodoIs(c: Conn)
    requires RingOk(c.ring) && 0 <= Used(c.io) <= |Unmarked(c.ring)|
    ensures Todo(c) == Unmarked(c.ring)[Used(c.io)..]
  {
  }

  lemma StartOk(total: nat, recvSize: nat)
    requires 0 < total
    ensures Ok(Start(total, recvSize))
  {
    SyncEmpty();
    hide Sync;
    var c := Start(total, recvSize);
    assert AllEvents(c) == [];
  }

  lemma IdleOk(c: Conn)
    requires Ok(c) && c.io.Idle?
    ensures Ok(IoStep(c, None))
  {
    hide Sync, OpenFrame;
    var d := IoStep(c, None);
    assert AllEvents(d) == AllEvents(c);
    assert Todo(d) == Todo(c);
  }

  lemma NothingOk(c: Conn)
    requires Ok(c) && c.io.Ready?
    ensures Ok(IoStep(c, None)) && Ok(IoStep(c, Some([])))
  {
    hide Sync, OpenFrame;
    var d, e := IoStep(c, None), IoStep(c, Some([]));
    assert AllEvents(d) == AllEvents(c) == AllEvents(e);
    assert Todo(d) == Todo(c) == Todo(e);
  }

  lemma ArrivedOk(c: Conn, data: seq<byte>)
    requires Ok(c) && c.io.Ready? && data != [] && Fits(c, Some(data))
    ensures Ok(IoStep(c, Some(data)))
  {
    hide Sync, OpenFrame;
    var d := IoStep(c, Some(data));
    SyncArrive(c.log, AllEvents(c), c.delivered, c.ring.contents, Todo(c), data);
    assert AllEvents(d) == AllEvents(c);
    assert Todo(d) == Todo(c) + data;
    assert Unmarked(d.ring) == Unmarked(c.ring) + data;
    ArrivedStretch(c, data);
  }

  lemma ArrivedStretch(c: Conn, data: seq<byte>)
    requires RingOk(c.ring) && AtRest(c) && data != [] && Room(c.ring, |data|) && RingOk(Stored(c.ring, data))
    requires Unmarked(Stored(c.ring, data)) == Unmarked(c.ring) + data
    ensures var s := Stretch(Stored(c.ring, data)); 0 < s && (s == |Unmarked(c.ring)| + |data| || (c.need == 0 && s < HEADER))
  {
    hide OpenFrame;
    assert c.need >= 0 by { OpenNeeds(c); }
  }

  lemma OpenNeeds(c: Conn)
    requires OpenFrame(c.need, c.len, c.log.cur)
    ensures c.need >= 0 && (c.need == 0 ==> c.log.cur == [] && c.len == 0)
  {
  }

  lemma GotStep(c: Conn)
    requires Ok(c) && c.io.Got?
    ensures Ok(IoStep(c, None))
  {
    hide Sync, OpenFrame;
    var d := IoStep(c, None);
    assert AllEvents(d) == AllEvents(c);
    assert Todo(d) == Todo(c);
  }

  /** The loop ends. */
  lemma LoopEnds(c: Conn)
    requires Ok(c) && c.io.Loop? && c.io.n <= 0
    ensures Ok(LoopStep(c))
  {
    hide Sync;
    var d := LoopStep(c);
    assert AllEvents(d) == AllEvents(c);
    assert Todo(d) == Todo(c);
    hide OpenFrame;
  }

  /** The open frame is finished, or all bytes belong to it. */
  lemma OpenStep(c: Conn)
    requires Ok(c) && c.io.Loop? && 0 < c.io.n && c.need != 0
    ensures Ok(LoopStep(c))
  {
    hide Sync, GoodHeader, FrameLength, HasFrame;
    var d, n := LoopStep(c), c.io.n;
    TodoIs(c);
    assert AllEvents(d) == AllEvents(c);
    if n >= c.need {
      assert Todo(d) == Todo(c);
      CompletedHeader(c.log.cur, Todo(c)[..c.need], c.len);
    } else {
      SyncMove(c.log, AllEvents(c), c.delivered, c.ring.contents, Todo(c), n);
      OpenMoves(c.need, c.len, c.log.cur, Todo(c)[..n]);
      assert Todo(d) == Todo(c)[n..];
    }
    hide OpenFrame;
  }

  /** Fewer bytes than a header are ahead: no verdict yet. */
  lemma FewStep(c: Conn)
    requires Ok(c) && c.io.Loop? && 0 < c.io.n < HEADER && c.need == 0
    ensures Ok(LoopStep(c))
  {
    hide Sync;
    var d := LoopStep(c);
    TodoIs(c);
    assert AllEvents(d) == AllEvents(c);
    assert Todo(d) == Todo(c);
    hide OpenFrame;
  }

  /** The bytes ahead of the parser with no frame open. */
  lemma Whole(c: Conn)
    requires Ok(c) && c.io.Loop? && HEADER <= c.io.n && c.need == 0
    ensures c.log.cur == [] && c.io.used == 0 && c.io.n == |Unmarked(c.ring)| && Todo(c) == Unmarked(c.ring) && InStretch(c.ring, c.io.n, 0, c.io.p)
    ensures Ahead(c, c.io.n) == Todo(c) && HEADER <= |Todo(c)| && Rest(c.log.stream) == Rest(Todo(c))
  {
    hide Sync, Rest;
    TodoIs(c);
    SyncAll(c.log, AllEvents(c), c.delivered, c.ring.contents, Todo(c));
    assert [] + Todo(c) == Todo(c);
    hide OpenFrame;
  }

  /** A whole header is ahead. */
  lemma WholeStep(c: Conn)
    requires Ok(c) && c.io.Loop? && HEADER <= c.io.n && c.need == 0 && !Oversized(Rest(c.log.stream))
    ensures Ok(LoopStep(c))
  {
    hide *;
    Whole(c);
    OkParts(c);
    var u, n := Todo(c), c.io.n;
    RunHeader(u, n);
    Bare(c);
    EightIs();
    var h := c.(header := u[..8], len := CheckHeader(u[..8], u));
    assert |h.header| == 8;
    if h.len == -1 {
      BadRest(c.log.stream, u);
      JudgedBad(c, h);
    } else if h.len <= n {
      JudgedWhole(c, h);
    } else {
      JudgedBegun(c, h);
    }
  }

  lemma EightIs()
    ensures HEADER == 8
  {
  }

  lemma OkParts(c: Conn)
    requires Ok(c)
    ensures RingOk(c.ring) && Synced(c) && |c.header| == HEADER
  {
  }

  lemma BadRest(stream: seq<byte>, u: seq<byte>)
    requires Rest(stream) == Rest(u) && BadStart(u)
    ensures BadStart(Rest(stream))
  {
    BadStays(u, []);
    assert u + [] == u;
  }

  /** The header is copied, and judged. */
  lemma Bare(c: Conn)
    requires Ok(c) && c.io.Loop? && HEADER <= c.io.n && c.need == 0 && Ahead(c, c.io.n) == Todo(c) && c.io.n == |Todo(c)|
    ensures var u := Todo(c);
            && u[..c.io.n] == u && |u| >= HEADER
            && LoopStep(c) == HeaderStep(c.(header := u[..8], len := CheckHeader(u[..8], u)), c.io.n, c.io.used, c.io.p)
  {
    var u := Todo(c);
    CopiedWhole(c.header, u[..8]);
    hide Sync, Place, CheckHeader, Copied, Ahead, Todo, HeaderStep;
  }

  lemma JudgedBad(c: Conn, h: Conn)
    requires Ok(c) && c.io.Loop? && h == c.(header := h.header, len := -1) && |h.header| == HEADER && BadStart(Rest(c.log.stream)) && c.io.used == 0
    ensures Ok(HeaderStep(h, c.io.n, c.io.used, c.io.p))
  {
    hide Sync, BadStart, Rest;
    var d := HeaderStep(h, c.io.n, c.io.used, c.io.p);
    assert AllEvents(d) == AllEvents(c);
    assert Todo(d) == Todo(c);
  }

  lemma JudgedWhole(c: Conn, h: Conn)
    requires Ok(c) && c.io.Loop? && c.log.cur == [] && c.io.used == 0 && h == c.(header := h.header, len := h.len) && |h.header| == HEADER
    requires c.io.n == |Unmarked(c.ring)| && Todo(c) == Unmarked(c.ring) && InStretch(c.ring, c.io.n, 0, c.io.p)
    requires HEADER <= h.len <= c.io.n && HasFrame(Todo(c)[..h.len]) && FrameLength(Todo(c)[..h.len]) == h.len
    ensures Ok(HeaderStep(h, c.io.n, c.io.used, c.io.p))
  {
    hide Sync, HasFrame, FrameLength;
    var d := HeaderStep(h, c.io.n, c.io.used, c.io.p);
    assert AllEvents(d) == AllEvents(c);
    assert Todo(d) == Todo(c);
    assert [] + Todo(c)[..h.len] == Todo(c)[..h.len];
  }

  lemma JudgedBegun(c: Conn, h: Conn)
    requires RingOk(c.ring) && Synced(c) && c.io.Loop? && c.log.cur == [] && c.io.used == 0 && h == c.(header := h.header, len := h.len) && |h.header| == HEADER
    requires c.io.n == |Unmarked(c.ring)| && Todo(c) == Unmarked(c.ring) && Ahead(c, c.io.n) == Todo(c)
    requires 0 < c.io.n < h.len && OpenFrame(h.len - c.io.n, h.len, Todo(c)[..c.io.n]) && h.len >= HEADER
    ensures Ok(HeaderStep(h, c.io.n, c.io.used, c.io.p))
  {
    hide Sync, OpenFrame;
    var d, u, n := HeaderStep(h, c.io.n, c.io.used, c.io.p), Todo(c), c.io.n;
    assert u[..n] == u && [] + u == u && u[n..] == [];
    assert Ahead(h, n) == Ahead(c, n);
    assert d == h.(io := Loop(0, n, c.io.p), need := h.len - n, log := c.log.(cur := u));
    assert Synced(d) by {
      hide Place;
      SyncMove(c.log, AllEvents(c), c.delivered, c.ring.contents, u, n);
      assert AllEvents(d) == AllEvents(c);
      assert Todo(d) == [];
    }
    hide Synced;
  }

  /** The frame's last bytes are marked; its event is due. */
  lemma MarkStep(c: Conn)
    requires Ok(c) && c.io.Mark?
    ensures Ok(IoStep(c, None))
  {
    hide Sync, HasFrame, FrameLength;
    var d, k := IoStep(c, None), c.io.k;
    TodoIs(c);
    SyncFinish(c.log, AllEvents(c), c.delivered, c.ring.contents, Todo(c), k);
    assert Ahead(c, k) == Todo(c)[..k];
    LengthFits(c.log.cur + Todo(c)[..k]);
    assert AllEvents(d) == AllEvents(c) + [Recv(|c.log.cur| + k)];
    assert Unmarked(d.ring) == Unmarked(c.ring)[c.io.used + k..] == Todo(c)[k..];
    TodoIs(d);
  }

  /** No conversion changes the length of a good frame. */
  lemma LengthFits(f: seq<byte>)
    requires HasFrame(f)
    ensures FrameLength(f) < 0x1_0000_0000
  {
  }

  lemma AnnounceStep(c: Conn)
    requires Ok(c) && c.io.Announce?
    ensures Ok(IoStep(c, None))
  {
    hide Sync;
    var d := IoStep(c, None);
    assert AllEvents(d) == AllEvents(c);
    assert Todo(d) == Todo(c);
  }

  lemma ShortStep(c: Conn)
    requires Ok(c) && (c.io.Short? || c.io.Count?)
    ensures Ok(IoStep(c, None))
  {
    hide Sync;
    var d := IoStep(c, None);
    assert AllEvents(d) == AllEvents(c);
    assert Todo(d) == Todo(c);
    if c.io.Count? {
      assert Ahead(c, c.io.n) == Unmarked(c.ring)[..c.io.n];
    }
  }

  lemma PieceStep(c: Conn)
    requires Ok(c) && c.io.Piece?
    ensures Ok(IoStep(c, None))
  {
    hide Sync;
    var d, n := IoStep(c, None), c.io.n;
    TodoIs(c);
    SyncMove(c.log, AllEvents(c), c.delivered, c.ring.contents, Todo(c), n);
    assert AllEvents(d) == AllEvents(c);
    assert Unmarked(d.ring) == Unmarked(c.ring)[n..];
    assert Todo(d) == Todo(c)[n..];
    assert [] + Todo(c)[..n] == Todo(c)[..n];
  }

  /** The header is whole now. */
  lemma FrontWhole(c: Conn)
    requires Ok(c) && c.io.Front?
    ensures var n, u := c.io.n, Unmarked(c.ring);
            && Todo(c) == u && 0 < n < HEADER && HEADER - n <= |u| == Stretch(c.ring) && |u| <= c.ring.total && c.ring.useCur == 0
            && |c.log.cur| == n && Ahead(c, HEADER - n) == u[..HEADER - n] && Scratch(c.header, n, u[..HEADER - n]) == c.log.cur + u[..HEADER - n]
            && (c.log.cur + u)[..8] == c.log.cur + u[..HEADER - n] && Rest(c.log.stream) == Rest(c.log.cur + u)
  {
    hide Sync, Rest;
    TodoIs(c);
    SyncAll(c.log, AllEvents(c), c.delivered, c.ring.contents, Todo(c));
    var n, k := c.io.n, HEADER - c.io.n;
    assert Scratch(c.header, n, Unmarked(c.ring)[..k]) == c.header[..n] + Unmarked(c.ring)[..k];
  }

  lemma FrontStepOk(c: Conn)
    requires Ok(c) && c.io.Front? && !Oversized(Rest(c.log.stream))
    ensures Ok(IoStep(c, None))
  {
    hide *;
    EightIs();
    OnlyReadyReads(c, None);
    InBounds(c.ring);
    FrontWhole(c);
    var u, n := Unmarked(c.ring), c.io.n;
    SplitHeader(c.log.cur + u);
    var h := c.log.cur + u[..HEADER - n];
    FrontIs(c, h);
    var r := CheckHeader(h, h);
    if r == -1 {
      BadRest(c.log.stream, c.log.cur + u);
      FrontBad(c, h);
    } else if r == HEADER {
      FrontFrame(c, h);
    } else {
      FrontOpens(c, h, r);
    }
  }

  lemma InBounds(r: Ring)
    requires RingOk(r)
    ensures r.marked <= |r.contents|
  {
  }

  lemma FrontIs(c: Conn, h: seq<byte>)
    requires RingOk(c.ring) && c.io.Front? && 0 < c.io.n < HEADER && HEADER - c.io.n <= Stretch(c.ring)
    requires h == Scratch(c.header, c.io.n, Ahead(c, HEADER - c.io.n)) && |h| == HEADER
    ensures var r, k, newLen := CheckHeader(h, h), HEADER - c.io.n, Stretch(c.ring);
            var d := c.(header := h, len := r, need := r - HEADER);
            IoStep(c, None) == if 0 >= r then d.(io := Report(BadHeader))
              else if r == HEADER then d.(io := Mark(newLen - k, 0, k, c.ring.useCur + k))
              else d.(io := Loop(newLen - k, k, c.ring.useCur + k), log := Passed(c, k))
  {
    hide CheckHeader, Scratch, Ahead, Stretch;
  }

  lemma FrontBad(c: Conn, h: seq<byte>)
    requires Ok(c) && c.io.Front? && BadStart(Rest(c.log.stream)) && |h| == HEADER
    ensures Ok(c.(header := h, len := -1, need := -1 - HEADER, io := Report(BadHeader)))
  {
    hide Sync, BadStart, Rest;
    var d := c.(header := h, len := -1, need := -1 - HEADER, io := Report(BadHeader));
    assert AllEvents(d) == AllEvents(c);
    assert Todo(d) == Todo(c);
  }

  lemma FrontFrame(c: Conn, h: seq<byte>)
    requires Ok(c) && c.io.Front? && |h| == HEADER && Todo(c) == Unmarked(c.ring) && 0 < c.io.n < HEADER && c.ring.useCur == 0
    requires HEADER - c.io.n <= |Todo(c)| == Stretch(c.ring) && |Todo(c)| <= c.ring.total && |c.log.cur| == c.io.n
    requires h == c.log.cur + Todo(c)[..HEADER - c.io.n] && HasFrame(h) && FrameLength(h) == HEADER
    ensures var k := HEADER - c.io.n;
            Ok(c.(header := h, len := HEADER, need := 0, io := Mark(Stretch(c.ring) - k, 0, k, c.ring.useCur + k)))
  {
    hide Sync, HasFrame, FrameLength;
    var k := HEADER - c.io.n;
    var d := c.(header := h, len := HEADER, need := 0, io := Mark(Stretch(c.ring) - k, 0, k, c.ring.useCur + k));
    assert AllEvents(d) == AllEvents(c);
    assert Todo(d) == Todo(c);
  }

  lemma FrontOpens(c: Conn, h: seq<byte>, r: int)
    requires Ok(c) && c.io.Front? && |h| == HEADER && Todo(c) == Unmarked(c.ring) && 0 < c.io.n < HEADER && c.ring.useCur == 0
    requires HEADER - c.io.n <= |Todo(c)| == Stretch(c.ring) && |Todo(c)| <= c.ring.total && |c.log.cur| == c.io.n
    requires h == c.log.cur + Todo(c)[..HEADER - c.io.n] && r > HEADER && OpenFrame(r - HEADER, r, h) && Ahead(c, HEADER - c.io.n) == Todo(c)[..HEADER - c.io.n]
    ensures var k := HEADER - c.io.n;
            Ok(c.(header := h, len := r, need := r - HEADER, io := Loop(Stretch(c.ring) - k, k, c.ring.useCur + k), log := Passed(c, k)))
  {
    hide Sync, OpenFrame;
    var k := HEADER - c.io.n;
    var d := c.(header := h, len := r, need := r - HEADER, io := Loop(Stretch(c.ring) - k, k, c.ring.useCur + k), log := Passed(c, k));
    SyncMove(c.log, AllEvents(c), c.delivered, c.ring.contents, Todo(c), k);
    assert AllEvents(d) == AllEvents(c);
    assert Todo(d) == Todo(c)[k..];
  }

  lemma LeaveStep(c: Conn)
    requires Ok(c) && c.io.Leave?
    ensures Ok(IoStep(c, None))
  {
    hide Sync, OpenFrame;
    var d := IoStep(c, None);
    assert AllEvents(d) == AllEvents(c);
    assert Todo(d) == Todo(c);
    assert Unmarked(d.ring) == [];
  }

  lemma ReportStep(c: Conn)
    requires Ok(c) && (c.io.Report? || c.io.Stopped?)
    ensures Ok(IoStep(c, None))
  {
    hide Sync, BadStart, Rest;
    var d := IoStep(c, None);
    assert AllEvents(d) == AllEvents(c);
    assert Todo(d) == Todo(c);
  }

  /** Every step of the IO thread keeps the state in order. */
  lemma IoOk(c: Conn, read: Option<seq<byte>>)
    requires Ok(c) && Fits(c, read) && !Oversized(Rest(c.log.stream))
    ensures Ok(IoStep(c, read))
  {
    hide *;
    OnlyReadyReads(c, read);
    match c.io {
      case Idle => IdleOk(c);
      case Ready =>
        if read == None || read == Some([]) {
          NothingOk(c);
        } else {
          ArrivedOk(c, read.value);
        }
      case Got => GotStep(c);
      case Loop(n, _, _) =>
        LoopIs(c);
        if n <= 0 {
          LoopEnds(c);
        } else if c.need != 0 {
          OpenStep(c);
        } else if n < HEADER {
          FewStep(c);
        } else {
          WholeStep(c);
        }
      case Mark(_, _, _, _) => MarkStep(c);
      case Announce(_, _) => AnnounceStep(c);
      case Short(_, _, _) => ShortStep(c);
      case Count(_, _) => ShortStep(c);
      case Piece(_, _) => PieceStep(c);
      case Front(_) => FrontStepOk(c);
      case Leave(_) => LeaveStep(c);
      case Report(_) => ReportStep(c);
      case Stopped(_) => ReportStep(c);
    }
  }

  lemma OnlyReadyReads(c: Conn, read: Option<seq<byte>>)
    requires Ok(c)
    ensures RingOk(c.ring) && (!c.io.Ready? ==> IoStep(c, read) == IoStep(c, None))
  {
    hide Synced, Place;
  }

  lemma LoopIs(c: Conn)
    requires Ok(c) && c.io.Loop?
    ensures IoStep(c, None) == LoopStep(c)
  {
    hide Synced, Place, LoopStep;
  }

  // ---------------------------------------------------------------- the main thread's steps

  lemma UsedSmall(c: Conn)
    requires Ok(c)
    ensures RingOk(c.ring) && 0 <= Used(c.io) <= |c.log.cur| && Used(c.io) <= |Unmarked(c.ring)|
  {
    hide Synced, OpenFrame, BadStart, Rest;
  }

  /** The marked bytes, and those passed but not marked, are the queued frames and the passed part of the current one. */
  lemma Accounts(c: Conn)
    requires Ok(c)
    ensures c.ring.marked + Used(c.io) == |Flatten(c.log.queued)| + |c.log.cur|
    ensures |Flatten(c.log.queued)| <= c.ring.marked
  {
    UsedSmall(c);
    TodoIs(c);
    BookMarked(c.log.stream, c.log.taken, c.log.queued, c.ring.contents, c.log.cur, Todo(c));
    hide Place, Book, Flatten;
  }

  lemma RecvsOnly(log: Log, events: seq<Event>, delivered: seq<seq<byte>>, contents: seq<byte>, todo: seq<byte>)
    requires Sync(log, events, delivered, contents, todo)
    ensures forall i :: 0 <= i < |events| ==> events[i].Recv?
  {
    hide Book, Payloads;
  }

  lemma WaitingTail(stopped: bool, es: seq<Event>)
    requires es != [] && forall i :: 0 <= i < |Waiting(stopped, es)| ==> Waiting(stopped, es)[i].Recv?
    ensures if es[0].Recv? then Waiting(stopped, es) == [es[0]] + Waiting(stopped, es[1..])
            else Waiting(stopped, es) == [] == Waiting(stopped, es[1..])
  {
    assert Waiting(stopped, es) != [] ==> Waiting(stopped, es)[0] == es[0];
  }

  lemma TakeEvents(c: Conn)
    requires c.main.Free? && forall i :: 0 <= i < |AllEvents(c)| ==> AllEvents(c)[i].Recv?
    ensures AllEvents(MainStep(c)) == AllEvents(c)
  {
    if c.events != [] {
      var w := Waiting(c.io.Stopped?, c.events);
      forall i | 0 <= i < |w| ensures w[i].Recv? {
        assert AllEvents(c)[i].Recv?;
      }
      WaitingTail(c.io.Stopped?, c.events);
      hide Waiting;
    }
  }

  lemma TakeOk(c: Conn)
    requires Ok(c) && c.main.Free?
    ensures Ok(MainStep(c))
  {
    var d := MainStep(c);
    hide Sync, AllEvents, Place;
    RecvsOnly(c.log, AllEvents(c), c.delivered, c.ring.contents, Todo(c));
    TakeEvents(c);
    SamePlace(c, d);
  }

  /** The frame the main thread holds the event of. */
  lemma HeldFrame(c: Conn)
    requires Ok(c) && c.main.Holding?
    ensures c.log.queued != [] && HEADER <= c.main.len == |c.log.queued[0]| <= c.ring.marked
    ensures c.ring.marked <= |c.ring.contents| && c.ring.contents[..c.main.len] == c.log.queued[0]
  {
    assert AllEvents(c)[0] == Recv(c.main.len);
    hide Sync, Flatten;
    SyncPop(c.log, AllEvents(c), c.delivered, c.ring.contents, Todo(c));
    Accounts(c);
    HeadWithin(c.log.queued);
  }

  lemma HeadWithin(fs: seq<seq<byte>>)
    requires fs != []
    ensures |fs[0]| <= |Flatten(fs)|
  {
  }

  lemma PopOk(c: Conn)
    requires Ok(c) && c.main.Holding? && c.main.len <= c.recvSize
    ensures Ok(MainStep(c))
  {
    hide Sync, OpenFrame, HasFrame, FrameLength, GoodHeader, Rest, BadStart, Flatten;
    var d, len := MainStep(c), c.main.len;
    HeldFrame(c);
    UsedSmall(c);
    SyncPop(c.log, AllEvents(c), c.delivered, c.ring.contents, Todo(c));
    assert c.ring.contents[HEADER..len] == c.log.queued[0][HEADER..];
    assert AllEvents(d) == AllEvents(c)[1..];
    assert Unmarked(d.ring) == Unmarked(c.ring);
    TodoIs(c);
    TodoIs(d);
    SamePlace(c, d);
    hide Place;
  }

  /** A pop changes nothing for the IO thread. */
  lemma SamePlace(c: Conn, d: Conn)
    requires RingOk(c.ring) && RingOk(d.ring) && Place(c) && Unmarked(d.ring) == Unmarked(c.ring) && Todo(d) == Todo(c)
    requires d.ring.useCur == c.ring.useCur && d.ring.total == c.ring.total && d.io == c.io && d.header == c.header
    requires d.need == c.need && d.len == c.len && d.log.cur == c.log.cur && d.log.stream == c.log.stream
    ensures Place(d)
  {
    hide OpenFrame, HasFrame, FrameLength, Rest, BadStart, Unmarked, Todo;
  }

  // ---------------------------------------------------------------- runs

  lemma OversizedStays(s: seq<byte>, more: seq<byte>)
    requires Oversized(Rest(s))
    ensures Oversized(Rest(s + more))
  {
    var r := Rest(s);
    Extend(s, more);
    assert BadStart(r);
    BadStays(r, more);
    SameHeader(r, more);
    assert (r + more)[4..8] == r[4..8];
    hide Rest, Frames;
  }

  /** The ring stays within its bounds, the stream grows, and what was skipped stays skipped. */
  lemma Keeps(c: Conn, a: Act)
    requires Can(c, a)
    ensures var d := Do(c, a);
            RingOk(d.ring) && c.log.stream <= d.log.stream && (c.skipped ==> d.skipped) && d.recvSize == c.recvSize
  {
    hide Ok;
    match a {
      case IoAct(read) => IoKeeps(c, read);
      case MainAct => MainKeeps(c);
    }
    hide IoStep, MainStep;
  }

  lemma IoKeeps(c: Conn, read: Option<seq<byte>>)
    requires RingOk(c.ring) && Fits(c, read)
    ensures var d := IoStep(c, read);
            RingOk(d.ring) && c.log.stream <= d.log.stream && d.skipped == c.skipped && d.recvSize == c.recvSize
  {
    hide LoopStep, FrontStep, Scratch, Ahead;
    if c.io.Loop? {
      LoopKeeps(c);
    } else if c.io.Front? {
      FrontKeeps(c);
    } else if c.io.Ready? && read.Some? {
      assert RingOk(Stored(c.ring, read.value));
    } else {
      assert RingOk(IoStep(c, read).ring);
    }
  }

  lemma LoopKeeps(c: Conn)
    requires c.io.Loop?
    ensures var d := LoopStep(c); d.ring == c.ring && d.log.stream == c.log.stream && d.skipped == c.skipped && d.recvSize == c.recvSize
  {
    hide Verdict, Scratch, Ahead;
  }

  lemma FrontKeeps(c: Conn)
    requires RingOk(c.ring) && c.io.Front?
    ensures var d := FrontStep(c); d.ring == c.ring && d.log.stream == c.log.stream && d.skipped == c.skipped && d.recvSize == c.recvSize
  {
    hide Verdict, Scratch, Ahead;
  }

  lemma MainKeeps(c: Conn)
    requires RingOk(c.ring)
    ensures var d := MainStep(c);
            RingOk(d.ring) && c.log.stream == d.log.stream && (c.skipped ==> d.skipped) && d.recvSize == c.recvSize
    ensures MainStep(c).skipped == (c.skipped || (c.main.Holding? && c.recvSize < c.main.len))
  {
  }

  lemma StepInv(c: Conn, a: Act)
    requires Inv(c) && Can(c, a)
    ensures Inv(Do(c, a))
    ensures Ok(c) && !Oversized(Rest(c.log.stream)) && (c.main.Holding? ==> c.main.len <= c.recvSize) ==> Ok(Do(c, a)) && Do(c, a).skipped == c.skipped
  {
    var d := Do(c, a);
    Keeps(c, a);
    SkipsWhen(c, a);
    if Oversized(Rest(c.log.stream)) {
      OversizedStays(c.log.stream, d.log.stream[|c.log.stream|..]);
      assert d.log.stream == c.log.stream + d.log.stream[|c.log.stream|..];
    } else if Ok(c) {
      OkStep(c, a);
    }
    hide Ok, Do, Rest, Oversized;
  }

  lemma SkipsWhen(c: Conn, a: Act)
    requires Can(c, a)
    ensures Do(c, a).skipped == (c.skipped || (a.MainAct? && c.main.Holding? && c.recvSize < c.main.len))
  {
    hide IoStep, MainStep, Room, Stretch;
    match a {
      case IoAct(read) => IoKeeps(c, read);
      case MainAct => MainKeeps(c);
    }
  }

  lemma OkStep(c: Conn, a: Act)
    requires Ok(c) && Can(c, a) && !Oversized(Rest(c.log.stream))
    ensures var d := Do(c, a); Ok(d) || (a.MainAct? && c.main.Holding? && c.recvSize < c.main.len)
  {
    hide Ok, IoStep, MainStep, Rest, Oversized;
    match a {
      case IoAct(read) => IoOk(c, read);
      case MainAct =>
        if c.main.Free? {
          TakeOk(c);
        } else if c.main.len <= c.recvSize {
          PopOk(c);
        }
    }
  }

  /** A run: states and the steps between them, in any interleaving of the two threads. */
  ghost predicate Trace(cs: seq<Conn>, acts: seq<Act>)
  {
    |cs| == |acts| + 1 && forall i :: 0 <= i < |acts| ==> Can(cs[i], acts[i]) && cs[i + 1] == Do(cs[i], acts[i])
  }

  /** In every run every state is in order, up to the first frame too long for the session or an overflowing length word. */
  lemma {:induction false} TraceInv(cs: seq<Conn>, acts: seq<Act>, total: nat, recvSize: nat)
    requires 0 < total && Trace(cs, acts) && cs[0] == Start(total, recvSize)
    ensures Inv(cs[|acts|])
    decreases |acts|
  {
    hide Inv, Do, Can, Start;
    var n := |acts|;
    if n == 0 {
      StartInv(total, recvSize);
    } else {
      TraceInv(cs[..n], acts[..n - 1], total, recvSize);
      StepInv(cs[n - 1], acts[n - 1]);
    }
  }

  lemma StartInv(total: nat, recvSize: nat)
    requires 0 < total
    ensures Inv(Start(total, recvSize))
  {
    StartOk(total, recvSize);
    hide Ok, Start, Rest;
  }

  /** What a sender's stream holds is neither oversized nor bad. */
  lemma SentStream(msgs: seq<seq<byte>>, stream: seq<byte>)
    requires Sendable(msgs) && stream <= EncodeAll(msgs)
    ensures !BadStart(Rest(stream)) && !Oversized(Rest(stream))
  {
    PrefixDecodes(msgs, stream);
    hide Rest, EncodeAll;
  }

  /** Messages that fit the session's buffer. */
  predicate FitSession(msgs: seq<seq<byte>>, recvSize: nat)
  {
    forall i :: 0 <= i < |msgs| ==> HEADER + |msgs[i]| <= recvSize
  }

  /** The frame whose event the main thread holds fits the session's buffer. */
  lemma HeldFits(c: Conn, msgs: seq<seq<byte>>)
    requires Ok(c) && c.main.Holding? && Sendable(msgs) && c.log.stream <= EncodeAll(msgs) && FitSession(msgs, c.recvSize)
    ensures c.main.len <= c.recvSize
  {
    HeldFrame(c);
    InOrder(c, msgs);
    var q := Payloads(c.log.queued)[0];
    assert (c.delivered + Payloads(c.log.queued))[|c.delivered|] == q;
    assert msgs[|c.delivered|] == q && HEADER + |q| == c.main.len;
    hide Ok, EncodeAll, Sendable;
  }

  /** What has been delivered, and what is queued, are the first messages sent, in order. */
  lemma InOrder(c: Conn, msgs: seq<seq<byte>>)
    requires Ok(c) && Sendable(msgs) && c.log.stream <= EncodeAll(msgs)
    ensures forall f <- c.log.queued :: |f| >= HEADER
    ensures c.delivered + Payloads(c.log.queued) <= msgs
  {
    PrefixDecodes(msgs, c.log.stream);
    SyncOrder(c.log, AllEvents(c), c.delivered, c.ring.contents, Todo(c));
    hide Ok, EncodeAll, Sendable, Frames;
  }

  lemma SyncOrder(log: Log, events: seq<Event>, delivered: seq<seq<byte>>, contents: seq<byte>, todo: seq<byte>)
    requires Sync(log, events, delivered, contents, todo)
    ensures forall f <- log.queued :: |f| >= HEADER
    ensures delivered + Payloads(log.queued) <= Payloads(Frames(log.stream))
    ensures Frames(log.cur + todo) == [] ==> delivered + Payloads(log.queued) == Payloads(Frames(log.stream))
  {
    PayloadsConcat(log.taken, log.queued);
    PayloadsConcat(log.taken + log.queued, Frames(log.cur + todo));
    hide Frames, Rest, Flatten;
  }

  /** While bytes of a sender's stream arrive and every message fits, no frame is skipped and every state is in order. */
  lemma {:induction false} TraceOk(cs: seq<Conn>, acts: seq<Act>, total: nat, recvSize: nat, msgs: seq<seq<byte>>)
    requires 0 < total && Trace(cs, acts) && cs[0] == Start(total, recvSize)
    requires Sendable(msgs) && cs[|acts|].log.stream <= EncodeAll(msgs) && FitSession(msgs, recvSize)
    ensures var c := cs[|acts|]; Ok(c) && !c.skipped && c.recvSize == recvSize
    decreases |acts|
  {
    hide Ok, Do, Can, Start, EncodeAll, Sendable, FitSession, Inv;
    var n := |acts|;
    if n == 0 {
      StartOk(total, recvSize);
      StartIs(total, recvSize);
    } else {
      Keeps(cs[n - 1], acts[n - 1]);
      TraceOk(cs[..n], acts[..n - 1], total, recvSize, msgs);
      var c := cs[n - 1];
      SentStream(msgs, c.log.stream);
      if c.main.Holding? {
        HeldFits(c, msgs);
      }
      OkInv(c);
      StepInv(c, acts[n - 1]);
    }
  }

  lemma StartIs(total: nat, recvSize: nat)
    ensures var c := Start(total, recvSize); !c.skipped && c.recvSize == recvSize && c.log == Log([], [], [], []) && c.delivered == []
  {
  }

  lemma OkInv(c: Conn)
    requires Ok(c)
    ensures Inv(c)
  {
  }

  /**
   From the sender's messages to the session, over every interleaving of the two threads: what has been
   delivered is a prefix of what was sent; no connection is stopped but by the end of the stream; and once
   all bytes have arrived and both threads have nothing left to do, everything has been delivered.
   */
  lemma StepsEndToEnd(cs: seq<Conn>, acts: seq<Act>, total: nat, recvSize: nat, msgs: seq<seq<byte>>)
    requires 0 < total && Trace(cs, acts) && cs[0] == Start(total, recvSize)
    requires Sendable(msgs) && cs[|acts|].log.stream <= EncodeAll(msgs) && FitSession(msgs, recvSize)
    ensures var c := cs[|acts|];
            && !c.skipped && c.delivered <= msgs
            && (c.io.Report? || c.io.Stopped? ==> c.io.cause == Ended)
            && (c.log.stream == EncodeAll(msgs) && c.io.Idle? && c.main.Free? && c.events == [] ==> c.delivered == msgs)
  {
    var c := cs[|acts|];
    hide *;
    TraceOk(cs, acts, total, recvSize, msgs);
    InOrder(c, msgs);
    SentStream(msgs, c.log.stream);
    Stops(c);
    if c.io.Idle? && c.main.Free? && c.events == [] {
      NothingQueued(c);
      PrefixDecodes(msgs, c.log.stream);
    }
    ShortPrefix(c.delivered, Payloads(c.log.queued), msgs);
  }

  lemma ShortPrefix<T>(a: seq<T>, b: seq<T>, s: seq<T>)
    requires a + b <= s
    ensures a <= s
  {
  }

  lemma Stops(c: Conn)
    requires Ok(c) && !BadStart(Rest(c.log.stream))
    ensures c.io.Report? || c.io.Stopped? ==> c.io.cause == Ended
  {
    hide Synced, BadStart, Rest;
  }

  /** At rest with no event left, every complete frame has been delivered. */
  lemma NothingQueued(c: Conn)
    requires Ok(c) && c.io.Idle? && c.main.Free? && c.events == []
    ensures c.delivered == Payloads(Frames(c.log.stream))
  {
    assert AllEvents(c) == [];
    assert c.log.queued == [];
    RestYieldsNothing(c);
    SyncOrder(c.log, [], c.delivered, c.ring.contents, Todo(c));
    assert Payloads([]) == [];
    hide Place, Frames;
  }

  /** Between two reads no complete frame is left without its event. */
  lemma RestYieldsNothing(c: Conn)
    requires Ok(c) && (c.io.Idle? || c.io.Ready?)
    ensures Frames(c.log.cur + Todo(c)) == [] && !BadStart(Rest(c.log.cur + Todo(c)))
  {
    TodoIs(c);
    if c.need > 0 {
      OpenYieldsNothing(c.need, c.len, c.log.cur);
      assert c.log.cur + Todo(c) == c.log.cur;
    } else {
      assert c.log.cur + Todo(c) == Todo(c);
    }
    hide Synced, GoodHeader;
  }

  /**
   The accounting, in every state of every run: marked bytes and bytes passed but not marked are the frames
   with an event and the passed part of the current one; a frame about to be popped is marked and in the ring
   as a whole; between two reads all bytes are passed, or fewer than a header are ahead and no frame is open.
   */
  lemma StepsAccount(cs: seq<Conn>, acts: seq<Act>, total: nat, recvSize: nat)
    requires 0 < total && Trace(cs, acts) && cs[0] == Start(total, recvSize)
    ensures var c := cs[|acts|];
            RingOk(c.ring) &&
            (!c.skipped && !Oversized(Rest(c.log.stream)) ==>
              && c.ring.marked + Used(c.io) == |Flatten(c.log.queued)| + |c.log.cur|
              && (c.main.Holding? ==> HEADER <= c.main.len <= c.ring.marked && c.log.queued != [] && c.ring.contents[..c.main.len] == c.log.queued[0])
              && (c.io.Idle? ==> AtRest(c)))
  {
    var c := cs[|acts|];
    TraceInv(cs, acts, total, recvSize);
    if Ok(c) {
      Accounts(c);
      if c.main.Holding? {
        HeldFrame(c);
      }
    }
    hide Synced, AtRest, Trace, Start, Rest, Oversized, Flatten;
  }

  // ---------------------------------------------------------------- both threads get on

  /** Where the IO thread is on its way through the bytes ahead. */
  function Rank(io: Io): nat
  {
    match io
    case Idle => 0
    case Ready => 0
    case Stopped(_) => 0
    case Leave(_) => 1
    case Report(_) => 1
    case Loop(n, _, _) => if n <= 0 then 2 else 6
    case Piece(_, _) => 3
    case Count(_, _) => 4
    case Short(_, _, _) => 5
    case Mark(_, _, _, _) => 5
    case Announce(_, _) => 7
    case Front(_) => 8
    case Got => 8
  }

  /** What is left of a read: the bytes ahead, and what is to be done where the thread is. */
  function Work(c: Conn): nat
  {
    10 * |Todo(c)| + Rank(c.io)
  }

  predicate AtEase(io: Io)
  {
    io.Idle? || io.Ready? || io.Stopped?
  }

  lemma PassedWork(c: Conn, d: Conn, k: nat)
    requires k <= |Todo(c)| && Todo(d) == Todo(c)[k..]
    ensures Work(d) == Work(c) - 10 * k - Rank(c.io) + Rank(d.io)
  {
    hide Todo, Rank;
  }

  /** Every step of the IO thread within a read leaves less to do. */
  lemma IoProgress(c: Conn)
    requires Ok(c) && !AtEase(c.io) && !Oversized(Rest(c.log.stream))
    ensures Work(IoStep(c, None)) < Work(c)
  {
    var d := IoStep(c, None);
    IoOk(c, None);
    match c.io {
      case Loop(n, _, _) => LoopProgress(c);
      case Mark(_, _, _, _) => MarkProgress(c);
      case Piece(_, _) => PieceProgress(c);
      case Front(_) => FrontProgress(c);
      case Leave(_) => LeaveProgress(c);
      case _ => SameAhead(c);
    }
    hide Ok, Oversized, Rest;
  }

  lemma SameAhead(c: Conn)
    requires Ok(c) && (c.io.Got? || c.io.Announce? || c.io.Short? || c.io.Count? || c.io.Report?)
    ensures Work(IoStep(c, None)) < Work(c)
  {
    hide *;
    OnlyReadyReads(c, None);
    if c.io.Short? {
      ShortFew(c);
    }
    SameTodoStep(c);
    PassedNone(c, IoStep(c, None));
    RankLess(c);
  }

  lemma ShortFew(c: Conn)
    requires Ok(c) && c.io.Short?
    ensures c.io.used == 0 && c.io.n < HEADER
  {
    hide Synced;
  }

  lemma SameTodoStep(c: Conn)
    requires RingOk(c.ring) && (c.io.Got? || c.io.Announce? || c.io.Count? || c.io.Report? || (c.io.Short? && c.io.used == 0))
    ensures Todo(IoStep(c, None)) == Todo(c)
  {
    hide Scratch, Ahead, Stretch;
  }

  lemma RankLess(c: Conn)
    requires RingOk(c.ring) && (c.io.Got? || c.io.Announce? || c.io.Count? || c.io.Report? || (c.io.Short? && c.io.n < HEADER))
    ensures Rank(IoStep(c, None).io) < Rank(c.io)
  {
    hide Scratch, Ahead, Stretch;
  }

  lemma PassedNone(c: Conn, d: Conn)
    requires Todo(d) == Todo(c)
    ensures Work(d) == Work(c) - Rank(c.io) + Rank(d.io)
  {
    hide Todo, Rank;
  }

  lemma LeaveProgress(c: Conn)
    requires Ok(c) && c.io.Leave?
    ensures Work(IoStep(c, None)) < Work(c)
  {
    var d := IoStep(c, None);
    assert Todo(d) == Todo(c);
    hide Synced, OpenFrame, Rest, BadStart;
  }

  /** n bytes are marked, and so passed. */
  lemma CostTodo(c: Conn, d: Conn, used: int, k: int)
    requires RingOk(c.ring) && 0 <= used && 0 <= k && 0 < used + k <= |Unmarked(c.ring)| && Used(c.io) == used && Used(d.io) == 0
    requires d.ring == CostUsed(c.ring, used + k)
    ensures k <= |Todo(c)| && Todo(d) == Todo(c)[k..]
  {
  }

  lemma MarkProgress(c: Conn)
    requires Ok(c) && c.io.Mark?
    ensures Work(IoStep(c, None)) < Work(c)
  {
    MarkFacts(c);
    hide *;
    var d := IoStep(c, None);
    CostTodo(c, d, c.io.used, c.io.k);
    PassedWork(c, d, c.io.k);
    Ranks(c.io, d.io);
  }

  lemma MarkFacts(c: Conn)
    requires Ok(c) && c.io.Mark?
    ensures RingOk(c.ring) && 0 <= c.io.used && 0 < c.io.k && c.io.used + c.io.k <= |Unmarked(c.ring)| && Used(c.io) == c.io.used
    ensures var d := IoStep(c, None); d.ring == CostUsed(c.ring, c.io.used + c.io.k) && d.io.Announce? && Used(d.io) == 0
  {
    hide Synced, HasFrame, FrameLength, Todo, CostUsed, Closing;
  }

  lemma Ranks(i: Io, j: Io)
    ensures Rank(j) <= 8 && 0 <= Rank(i)
  {
  }

  lemma PieceProgress(c: Conn)
    requires Ok(c) && c.io.Piece?
    ensures Work(IoStep(c, None)) < Work(c)
  {
    PieceFacts(c);
    hide *;
    var d := IoStep(c, None);
    CostTodo(c, d, 0, c.io.n);
    PassedWork(c, d, c.io.n);
    Ranks(c.io, d.io);
  }

  lemma PieceFacts(c: Conn)
    requires Ok(c) && c.io.Piece?
    ensures RingOk(c.ring) && 0 < c.io.n <= |Unmarked(c.ring)| && Used(c.io) == 0
    ensures var d := IoStep(c, None); d.ring == CostUsed(c.ring, 0 + c.io.n) && d.io.Front? && Used(d.io) == 0
  {
    hide Synced, Todo, CostUsed, Passed;
  }

  lemma FrontProgress(c: Conn)
    requires Ok(c) && c.io.Front?
    ensures Work(IoStep(c, None)) < Work(c)
  {
    hide *;
    FrontWhole(c);
    EightIs();
    OnlyReadyReads(c, None);
    InBounds(c.ring);
    var u, n := Unmarked(c.ring), c.io.n;
    FrontIs(c, c.log.cur + u[..HEADER - n]);
    FrontLess(c, c.log.cur + u[..HEADER - n]);
  }

  lemma FrontLess(c: Conn, h: seq<byte>)
    requires RingOk(c.ring) && c.io.Front? && 0 < c.io.n < HEADER && HEADER - c.io.n <= Stretch(c.ring) && |h| == HEADER
    requires Todo(c) == Unmarked(c.ring) && HEADER - c.io.n <= |Todo(c)|
    requires var r, k, newLen := CheckHeader(h, h), HEADER - c.io.n, Stretch(c.ring);
             var d := c.(header := h, len := r, need := r - HEADER);
             IoStep(c, None) == if 0 >= r then d.(io := Report(BadHeader))
               else if r == HEADER then d.(io := Mark(newLen - k, 0, k, c.ring.useCur + k))
               else d.(io := Loop(newLen - k, k, c.ring.useCur + k), log := Passed(c, k))
    ensures Work(IoStep(c, None)) < Work(c)
  {
    hide IoStep, CheckHeader, Stretch, Passed;
    var d, k := IoStep(c, None), HEADER - c.io.n;
    assert d.io.Report? || d.io.Mark? ==> Todo(d) == Todo(c);
    assert d.io.Loop? ==> Todo(d) == Todo(c)[k..];
  }

  lemma LoopProgress(c: Conn)
    requires Ok(c) && c.io.Loop? && !Oversized(Rest(c.log.stream))
    ensures Work(IoStep(c, None)) < Work(c)
  {
    hide *;
    LoopPlace(c);
    if LoopStep(c).io.Loop? {
      WorkStep(c);
    } else {
      LoopStays(c);
      PassedNone(c, LoopStep(c));
      LoopRanks(c, LoopStep(c));
    }
  }

  lemma LoopRanks(c: Conn, d: Conn)
    requires c.io.Loop? && (c.io.n <= 0 ==> d.io.Leave? || d.io.Idle?) && (c.io.n > 0 ==> d.io.Mark? || d.io.Short? || d.io.Report?)
    ensures Rank(d.io) < Rank(c.io)
  {
  }

  lemma LoopPlace(c: Conn)
    requires Ok(c) && c.io.Loop?
    ensures IoStep(c, None) == LoopStep(c) && RingOk(c.ring) && 0 <= c.io.n && 0 <= c.io.used && c.io.used + c.io.n <= |Unmarked(c.ring)|
    ensures c.need == 0 ==> c.io.used == 0
    ensures var d := LoopStep(c); (c.io.n <= 0 ==> d.io.Leave? || d.io.Idle?) && (c.io.n > 0 ==> d.io.Mark? || d.io.Short? || d.io.Report? || d.io == Loop(0, c.io.used + c.io.n, c.io.p))
    ensures LoopStep(c).ring == c.ring
  {
    hide Synced, OpenFrame, Verdict, Scratch, Ahead;
  }

  lemma LoopStays(c: Conn)
    requires RingOk(c.ring) && c.io.Loop? && 0 <= c.io.used && c.io.used + c.io.n <= |Unmarked(c.ring)| && !LoopStep(c).io.Loop? && (c.need == 0 ==> c.io.used == 0)
    ensures Todo(LoopStep(c)) == Todo(c)
  {
    hide Verdict, Scratch, Ahead;
  }

  lemma WorkStep(c: Conn)
    requires RingOk(c.ring) && c.io.Loop? && 0 < c.io.n && 0 <= c.io.used && c.io.used + c.io.n <= |Unmarked(c.ring)|
    requires LoopStep(c).io == Loop(0, c.io.used + c.io.n, c.io.p) && LoopStep(c).ring == c.ring
    ensures Work(LoopStep(c)) < Work(c)
  {
    hide LoopStep;
    var d := LoopStep(c);
    assert Todo(d) == Todo(c)[c.io.n..];
  }

  /** The main thread's steps do not add to the IO thread's work. */
  lemma MainLeavesWork(c: Conn)
    requires Ok(c)
    ensures Work(MainStep(c)) == Work(c) && MainStep(c).io == c.io
  {
    var d := MainStep(c);
    UsedSmall(c);
    if c.main.Holding? {
      HeldFrame(c);
    }
    hide *;
    MainTodo(c);
    PassedNone(c, d);
  }

  lemma MainTodo(c: Conn)
    requires RingOk(c.ring) && 0 <= Used(c.io) <= |Unmarked(c.ring)| && (c.main.Holding? ==> c.main.len <= c.ring.marked)
    ensures Todo(MainStep(c)) == Todo(c) && MainStep(c).io == c.io
  {
  }

  /** The IO thread alone, k steps. */
  function IoSteps(c: Conn, k: nat): Conn
    decreases k
  {
    if k == 0 || !RingOk(c.ring) then c else IoSteps(IoStep(c, None), k - 1)
  }

  /** What the IO thread's steps within a read leave alone. */
  predicate SameOutside(c: Conn, d: Conn)
  {
    d.log.stream == c.log.stream && d.log.taken == c.log.taken && d.delivered == c.delivered && d.main == c.main && d.skipped == c.skipped && d.recvSize == c.recvSize
  }

  /** Not because the stream has ended. */
  predicate Unended(io: Io)
  {
    io.Report? || io.Stopped? ==> io.cause != Ended
  }

  lemma StepOutside(c: Conn)
    requires RingOk(c.ring) && !c.io.Ready? && Unended(c.io)
    ensures SameOutside(c, IoStep(c, None)) && Unended(IoStep(c, None).io)
  {
    hide LoopStep, FrontStep, Scratch, Ahead, CostUsed, Stretch;
    if c.io.Loop? {
      LoopOutside(c);
    } else if c.io.Front? {
      FrontOutside(c);
    }
  }

  lemma LoopOutside(c: Conn)
    requires c.io.Loop?
    ensures SameOutside(c, LoopStep(c)) && Unended(LoopStep(c).io)
  {
    hide Verdict, Scratch, Ahead;
  }

  lemma FrontOutside(c: Conn)
    requires RingOk(c.ring) && c.io.Front?
    ensures SameOutside(c, FrontStep(c)) && Unended(FrontStep(c).io)
  {
    hide Verdict, Scratch, Ahead, Stretch;
  }

  /** Within a read the IO thread comes to its end. */
  lemma {:induction false} ComesToEase(c: Conn) returns (k: nat)
    requires Ok(c) && !Oversized(Rest(c.log.stream)) && !c.io.Ready? && Unended(c.io)
    ensures var d := IoSteps(c, k); Ok(d) && SameOutside(c, d) && (d.io.Idle? || d.io.Stopped?) && Unended(d.io)
    decreases Work(c)
  {
    k := 0;
    if !c.io.Idle? && !c.io.Stopped? {
      var d := IoStep(c, None);
      hide *;
      OutsideFacts(c);
      IoProgress(c);
      IoOk(c, None);
      StepOutside(c);
      OutsideSame(c, d, d);
      k := ComesToEase(d);
      OutsideSame(c, d, IoSteps(d, k));
      IoStepsNext(c, k);
      k := k + 1;
    } else {
      IoStepsNone(c);
    }
  }

  lemma OutsideFacts(c: Conn)
    requires Ok(c) && !c.io.Ready? && !c.io.Idle? && !c.io.Stopped?
    ensures RingOk(c.ring) && Fits(c, None) && !AtEase(c.io) && !IoStep(c, None).io.Ready?
  {
    hide Synced, Verdict, Scratch, Ahead;
  }

  lemma OutsideSame(c: Conn, d: Conn, e: Conn)
    requires SameOutside(c, d)
    ensures SameOutside(d, e) ==> SameOutside(c, e)
    ensures d.log.stream == c.log.stream
  {
  }

  lemma IoStepsNext(c: Conn, k: nat)
    requires RingOk(c.ring)
    ensures IoSteps(c, k + 1) == IoSteps(IoStep(c, None), k)
  {
  }

  lemma IoStepsNone(c: Conn)
    ensures IoSteps(c, 0) == c && SameOutside(c, c)
  {
  }

  /**
   A read is done in finitely many steps: then the bytes have been added to the stream, and every complete
   frame has been popped or has its event; the connection has stopped exactly if the stream goes on with a
   bad header.
   */
  lemma ReadIsDone(c: Conn, data: seq<byte>) returns (k: nat)
    requires Ok(c) && c.io.Ready? && data != [] && Fits(c, Some(data)) && !Oversized(Rest(c.log.stream + data))
    ensures RingOk(c.ring)
    ensures var d := IoSteps(IoStep(c, Some(data)), k);
            && Ok(d) && d.log.stream == c.log.stream + data && d.log.taken == c.log.taken && d.delivered == c.delivered && d.main == c.main
            && (if BadStart(Rest(d.log.stream)) then d.io == Stopped(BadHeader)
                else d.io.Idle? && d.log.taken + d.log.queued == Frames(d.log.stream))
  {
    OnlyReadyReads(c, None);
    var b := IoStep(c, Some(data));
    ArrivedOk(c, data);
    assert b.log.stream == c.log.stream + data && b.log.taken == c.log.taken && b.delivered == c.delivered && b.main == c.main && b.io.Got?;
    assert Unended(b.io);
    hide *;
    k := ComesToEase(b);
    var d := IoSteps(b, k);
    OutsideIs(b, d);
    if d.io.Idle? {
      EaseYields(d);
    } else {
      StoppedBad(d);
    }
  }

  lemma StoppedBad(d: Conn)
    requires Ok(d) && d.io.Stopped? && Unended(d.io)
    ensures d.io == Stopped(BadHeader) && BadStart(Rest(d.log.stream))
  {
    hide Synced, BadStart, Rest;
  }

  lemma OutsideIs(c: Conn, d: Conn)
    requires SameOutside(c, d)
    ensures d.log.stream == c.log.stream && d.log.taken == c.log.taken && d.delivered == c.delivered && d.main == c.main
  {
  }

  lemma EaseYields(d: Conn)
    requires Ok(d) && d.io.Idle?
    ensures d.log.taken + d.log.queued == Frames(d.log.stream) && !BadStart(Rest(d.log.stream))
  {
    RestYieldsNothing(d);
    SyncAll(d.log, AllEvents(d), d.delivered, d.ring.contents, Todo(d));
    hide Place, Frames, Rest;
  }

  /** What is left to do for the main thread. */
  function MainWork(c: Conn): nat
  {
    2 * |c.events| + if c.main.Holding? then 1 else 0
  }

  function MainSteps(c: Conn, k: nat): Conn
    decreases k
  {
    if k == 0 then c else MainSteps(MainStep(c), k - 1)
  }

  lemma MainProgress(c: Conn)
    requires Ok(c) && (c.main.Holding? ==> c.main.len <= c.recvSize)
    ensures var d := MainStep(c);
            && ((c.main.Free? && c.events == []) || MainWork(d) < MainWork(c))
            && d.io == c.io && d.log.stream == c.log.stream && d.recvSize == c.recvSize
  {
    if c.main.Holding? {
      HeldFrame(c);
    }
    hide Ok;
  }

  /** With the IO thread at rest, the main thread delivers every complete frame that has arrived. */
  lemma {:induction false} MainDrains(c: Conn, msgs: seq<seq<byte>>) returns (k: nat)
    requires Ok(c) && c.io.Idle? && Sendable(msgs) && c.log.stream <= EncodeAll(msgs) && FitSession(msgs, c.recvSize)
    ensures var d := MainSteps(c, k); d.main.Free? && d.events == [] && d.log.stream == c.log.stream && d.delivered == Payloads(Frames(c.log.stream))
    decreases MainWork(c)
  {
    hide *;
    if c.main.Free? && c.events == [] {
      k := 0;
      NothingQueued(c);
      MainStepsAre(c, 0);
    } else {
      if c.main.Holding? {
        HeldFits(c, msgs);
        PopOk(c);
      } else {
        TakeOk(c);
      }
      MainProgress(c);
      k := MainDrains(MainStep(c), msgs);
      MainStepsAre(c, k);
      k := k + 1;
    }
  }

  lemma MainStepsAre(c: Conn, k: nat)
    ensures MainSteps(c, 0) == c && MainSteps(c, k + 1) == MainSteps(MainStep(c), k)
  {
    hide MainStep;
  }

  // ---------------------------------------------------------------- length words

  /** One round of the parser's loop, up to the next. */
  function Round(c: Conn): Conn
    requires RingOk(c.ring) && c.io.Loop?
  {
    var d := LoopStep(c);
    if !RingOk(d.ring) then d
    else if d.io.Short? then IoStep(d, None)
    else if d.io.Mark? && RingOk(IoStep(d, None).ring) then IoStep(IoStep(d, None), None)
    else d
  }

  /** The length of a frame as the check computes it. */
  lemma WordCases(w: nat)
    requires w < 0x1_0000_0000
    ensures ToInt32(HEADER + w) ==
      if w <= MAX_PAYLOAD then HEADER + w else if w < 0xFFFF_FFF8 then HEADER + w - 0x1_0000_0000 else w - 0xFFFF_FFF8
  {
  }

  lemma Judged(c: Conn)
    requires RingOk(c.ring) && c.io.Loop? && c.need == 0 && |c.header| == HEADER && HEADER <= c.io.n <= |Todo(c)|
    requires FromWord(Todo(c)[4..8]) == MAGIC
    ensures var b := Ahead(c, c.io.n);
            LoopStep(c) == HeaderStep(c.(header := b[..8], len := ToInt32(HEADER + Length(Todo(c)))), c.io.n, c.io.used, c.io.p)
  {
    hide FromWord, Copied, Todo, HeaderStep, Ahead;
    var u, n := Todo(c), c.io.n;
    assert Ahead(c, n) == u[..n] by { AheadIs(c, n); }
    CopiedWhole(c.header, u[..n][..8]);
    assert u[..n][..8][..4] == u[..n][..4] == u[..4] && u[..n][4..8] == u[4..8];
  }

  lemma AheadIs(c: Conn, n: nat)
    requires n <= |Todo(c)|
    ensures Ahead(c, n) == Todo(c)[..n]
  {
    hide Todo;
  }

  /**
   What one round does with a header that has the right magic number, by its length word w.  With w up to the
   largest payload it passes bytes.  Beyond that the sum wraps: the connection is closed exactly for
   w == 0xFFFFFFF7, the loop comes back to where it was, and so never ends, exactly for w == 0xFFFFFFF8,
   and it passes a frame shorter than a header for the words above; for all others `n` grows.
   */
  lemma LoopEndsExactly(c: Conn)
    requires RingOk(c.ring) && c.io.Loop? && c.need == 0 && c.io.used == 0 && |c.header| == HEADER && HEADER <= c.io.n <= |Todo(c)|
    requires FromWord(Todo(c)[4..8]) == MAGIC
    ensures var d, w := Round(c), Length(Todo(c));
            && (d.io.Report? <==> w == 0xFFFF_FFF7)
            && (d.io == c.io <==> w == 0xFFFF_FFF8)
            && (d.io.Loop? && d.io.n < c.io.n <==> w <= MAX_PAYLOAD || w > 0xFFFF_FFF8)
            && (d.io.Loop? && d.io.n > c.io.n <==> MAX_PAYLOAD < w < 0xFFFF_FFF7)
            && (w == 0xFFFF_FFF8 ==> d == c.(header := Todo(c)[..8], len := 0))
  {
    hide *;
    Judged(c);
    EightIs();
    var b, w := Ahead(c, c.io.n), Length(Todo(c));
    AheadFront(c);
    WordCases(w);
    RoundIs(c, b[..8], ToInt32(HEADER + w));
    MaxIs();
  }

  lemma MaxIs()
    ensures HEADER == 8 && MAX_PAYLOAD == 0x7FFF_FFF7
  {
  }

  lemma AheadFront(c: Conn)
    requires c.io.Loop? && HEADER <= c.io.n <= |Todo(c)|
    ensures |Ahead(c, c.io.n)| >= 8 && Ahead(c, c.io.n)[..8] == Todo(c)[..8]
    ensures Length(Todo(c)) < 0x1_0000_0000
  {
    hide FromWord, Todo;
  }

  lemma RoundIs(c: Conn, h: seq<byte>, r: int)
    requires RingOk(c.ring) && c.io.Loop? && c.need == 0 && c.io.used == 0 && c.io.n >= HEADER
    requires LoopStep(c) == HeaderStep(c.(header := h, len := r), c.io.n, 0, c.io.p)
    ensures var d := Round(c);
            && (d.io.Report? <==> r == -1) && (d.io.Loop? <==> r != -1)
            && (r == 0 ==> d == c.(header := h, len := 0))
            && (r > 0 ==> d.io.n == if r <= c.io.n then c.io.n - r else 0)
            && (r < -1 ==> d.io.n == c.io.n - r)
  {
    hide Ahead, LoopStep;
  }

  function Rounds(c: Conn, k: nat): Conn
    requires RingOk(c.ring) && c.io.Loop?
  {
    if k == 0 then c
    else
      var d := Rounds(c, k - 1);
      if RingOk(d.ring) && d.io.Loop? then Round(d) else d
  }

  lemma SameTodo(c: Conn, d: Conn)
    requires d == c.(header := d.header, len := d.len) && |c.header| == HEADER && |Todo(c)| >= 8 && (d == c || d.header == Todo(c)[..8])
    ensures Todo(d) == Todo(c) && |d.header| == HEADER && Todo(d)[..8] == Todo(c)[..8]
  {
  }

  lemma RoundsNone(c: Conn)
    requires RingOk(c.ring) && c.io.Loop?
    ensures Rounds(c, 0) == c
  {
  }

  lemma RoundsNext(c: Conn, k: nat)
    requires RingOk(c.ring) && c.io.Loop? && k > 0
    ensures var d := Rounds(c, k - 1); RingOk(d.ring) && d.io.Loop? ==> Rounds(c, k) == Round(d)
  {
    hide Round;
  }

  /** After any number of rounds the parser is where it was. */
  lemma {:induction false} NeverEnds(c: Conn, k: nat)
    requires RingOk(c.ring) && c.io.Loop? && c.need == 0 && c.io.used == 0 && |c.header| == HEADER && HEADER <= c.io.n <= |Todo(c)|
    requires FromWord(Todo(c)[4..8]) == MAGIC && Length(Todo(c)) == 0xFFFF_FFF8
    ensures Rounds(c, k) == if k == 0 then c else c.(header := Todo(c)[..8], len := 0)
    decreases k
  {
    hide *;
    EightIs();
    if k == 0 {
      RoundsNone(c);
    } else {
      NeverEnds(c, k - 1);
      var d := Rounds(c, k - 1);
      SameTodo(c, d);
      LoopEndsExactly(d);
      RoundsNext(c, k);
    }
  }
}
