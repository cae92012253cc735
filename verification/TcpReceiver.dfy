/**
 The receiving half of a TCP connection: the incremental frame parser that runs
 when the socket is readable, and the main thread that pops finished frames.
 */
module TcpReceiver {
  import opened Bytes
  import opened FrameStream
  import opened LoopBuffer

  /** Most bytes taken by one `recv`. */
  const SOCKET_CHUNK: nat := 64 * 1024

  datatype Event = Recv(len: nat) | Error

  /**
   How the parser's position relates to the stream received so far: `taken`
   are the frames already popped, `queued` those with an event pending, `cur`
   the part of the next frame the parser has passed, `todo` what it has not
   looked at.  `contents` is what the ring stores.
   */
  ghost predicate Book(stream: seq<byte>, taken: seq<seq<byte>>, queued: seq<seq<byte>>,
                       contents: seq<byte>, cur: seq<byte>, todo: seq<byte>)
  {
    && stream == Flatten(taken) + contents
    && contents == Flatten(queued) + cur + todo
    && Frames(stream) == taken + queued + Frames(cur + todo)
    && Rest(stream) == Rest(cur + todo)
  }

  /** What is left of the stream is what is left of the bytes not finished with. */
  lemma BookRest(stream: seq<byte>, taken: seq<seq<byte>>, queued: seq<seq<byte>>,
                 contents: seq<byte>, todo: seq<byte>)
    requires Book(stream, taken, queued, contents, [], todo)
    ensures Rest(stream) == Rest(todo)
  {
    assert [] + todo == todo;
  }

  /** The parser moves over `k` bytes of the current frame. */
  lemma BookMove(stream: seq<byte>, taken: seq<seq<byte>>, queued: seq<seq<byte>>,
                 contents: seq<byte>, cur: seq<byte>, todo: seq<byte>, k: nat)
    requires Book(stream, taken, queued, contents, cur, todo) && k <= |todo|
    ensures Book(stream, taken, queued, contents, cur + todo[..k], todo[k..])
  {
    hide Flatten, Frames, Rest;
    assert (cur + todo[..k]) + todo[k..] == cur + todo;
    assert Flatten(queued) + (cur + todo[..k]) + todo[k..] == Flatten(queued) + cur + todo;
  }

  /** The current frame is complete: an event is queued for it. */
  lemma BookFrame(stream: seq<byte>, taken: seq<seq<byte>>, queued: seq<seq<byte>>,
                  contents: seq<byte>, cur: seq<byte>, todo: seq<byte>)
    requires Book(stream, taken, queued, contents, cur, todo)
    requires HasFrame(cur) && FrameLength(cur) == |cur|
    ensures Book(stream, taken, queued + [cur], contents, [], todo)
  {
    hide Flatten, Frames, Rest, HasFrame, FrameLength;
    FrameFirst(cur, todo);
    FlattenSnoc(queued, cur);
    assert [] + todo == todo;
    assert Flatten(queued) + cur + [] == Flatten(queued) + cur;
    assert taken + (queued + [cur]) + Frames(todo) == taken + queued + ([cur] + Frames(todo));
  }

  /** The next `k` bytes complete the current frame. */
  lemma BookFinish(stream: seq<byte>, taken: seq<seq<byte>>, queued: seq<seq<byte>>,
                   contents: seq<byte>, cur: seq<byte>, todo: seq<byte>, k: nat)
    requires Book(stream, taken, queued, contents, cur, todo) && k <= |todo|
    requires HasFrame(cur + todo[..k]) && FrameLength(cur + todo[..k]) == |cur| + k
    ensures Book(stream, taken, queued + [cur + todo[..k]], contents, [], todo[k..])
  {
    hide *;
    BookMove(stream, taken, queued, contents, cur, todo, k);
    BookFrame(stream, taken, queued, contents, cur + todo[..k], todo[k..]);
  }

  /** Bytes arrive from the socket. */
  lemma BookArrive(stream: seq<byte>, taken: seq<seq<byte>>, queued: seq<seq<byte>>,
                   contents: seq<byte>, cur: seq<byte>, todo: seq<byte>, data: seq<byte>)
    requires Book(stream, taken, queued, contents, cur, todo)
    ensures Book(stream + data, taken, queued, contents + data, cur, todo + data)
  {
    hide Flatten, Frames, Rest;
    Extend(stream, data);
    Extend(cur + todo, data);
    Assoc(cur, todo, data);
    Assoc(Flatten(taken), contents, data);
    Assoc(Flatten(queued) + cur, todo, data);
    Assoc(taken + queued, Frames(cur + todo), Frames(Rest(stream) + data));
  }

  /** The main thread pops the oldest frame. */
  lemma BookPop(stream: seq<byte>, taken: seq<seq<byte>>, queued: seq<seq<byte>>,
                contents: seq<byte>, cur: seq<byte>, todo: seq<byte>)
    requires Book(stream, taken, queued, contents, cur, todo) && queued != []
    ensures |queued[0]| <= |Flatten(queued)| <= |contents|
    ensures contents[..|queued[0]|] == queued[0]
    ensures Book(stream, taken + [queued[0]], queued[1..], contents[|queued[0]|..], cur, todo)
  {
    var f, q := queued[0], queued[1..];
    assert queued == [f] + q;
    hide Flatten, Frames, Rest;
    FlattenCons(f, q);
    FlattenSnoc(taken, f);
    var tail := Flatten(q) + cur + todo;
    assert contents == f + tail by {
      Assoc(f, Flatten(q), cur);
      Assoc(f, Flatten(q) + cur, todo);
    }
    assert contents[|f|..] == tail;
    Assoc(Flatten(taken), f, tail);
    Assoc(taken, [f], q);
  }

  /** The events queued for a list of finished frames. */
  function Recvs(fs: seq<seq<byte>>): (es: seq<Event>)
    ensures |es| == |fs|
  {
    seq(|fs|, i requires 0 <= i < |fs| => Recv(|fs[i]|))
  }

  lemma RecvsSnoc(fs: seq<seq<byte>>, f: seq<byte>)
    ensures Recvs(fs + [f]) == Recvs(fs) + [Recv(|f|)]
  {
  }

  /** `need` more bytes complete the frame of `len` bytes that `cur` begins; 0 when no frame is open. */
  predicate OpenFrame(need: int, len: int, cur: seq<byte>)
  {
    && 0 <= need
    && (need == 0 ==> cur == [] && len == 0)
    && (need > 0 ==> |cur| >= HEADER && GoodHeader(cur) && FrameLength(cur) == |cur| + need == len)
  }

  /** With no frame open, a stream whose rest is not oversized starts with a good header or a wrong magic number. */
  lemma HeaderCases(u: seq<byte>)
    requires |u| >= HEADER && !Oversized(Rest(u))
    ensures !GoodHeader(u) ==> FromWord(u[4..8]) != MAGIC
    ensures !GoodHeader(u) ==> Frames(u) == [] && Rest(u) == u && BadStart(u)
  {
  }

  /** A frame not complete yet yields nothing. */
  lemma OpenYieldsNothing(need: int, len: int, cur: seq<byte>)
    requires OpenFrame(need, len, cur)
    ensures Frames(cur) == [] && Rest(cur) == cur && !BadStart(cur)
  {
  }

  /** Bytes that complete the open frame make it a whole one. */
  lemma CompletedHeader(cur: seq<byte>, more: seq<byte>, len: int)
    requires OpenFrame(|more|, len, cur) && more != []
    ensures HasFrame(cur + more) && FrameLength(cur + more) == |cur + more| == len
  {
    SameHeader(cur, more);
  }

  /** Bytes that do not complete the open frame leave it open. */
  lemma OpenMoves(need: int, len: int, cur: seq<byte>, more: seq<byte>)
    requires OpenFrame(need, len, cur) && |more| < need
    ensures OpenFrame(need - |more|, len, cur + more)
  {
    SameHeader(cur, more);
  }

  /** The array `a` holds, from cell `p` on, the `n` bytes of `u` behind the first `used`. */
  ghost predicate Run(a: seq<byte>, p: int, u: seq<byte>, used: nat, n: nat)
  {
    0 <= p && p + n <= |a| && used + n <= |u| && a[p..p + n] == u[used..used + n]
  }

  lemma RunWas(a: seq<byte>, p: int, u: seq<byte>, n: nat)
    requires 0 <= p && p + n <= |a| && n <= |u| && a[p..p + n] == u[..n]
    ensures Run(a, p, u, 0, n)
  {
  }

  lemma RunIs(a: seq<byte>, p: int, u: seq<byte>, n: nat)
    requires Run(a, p, u, 0, n)
    ensures a[p..p + n] == u[..n]
  {
  }

  /** A run loses a prefix, whether or not the prefix is cut from `u` as well. */
  lemma RunSlides(a: seq<byte>, p: int, u: seq<byte>, used: nat, n: nat, k: nat)
    requires Run(a, p, u, used, n) && k <= n
    ensures Run(a, p + k, u, used + k, n - k)
    ensures Run(a, p + k, u[used + k..], 0, n - k)
  {
    assert a[p + k..p + n] == a[p..p + n][k..];
    assert u[used + k..used + n] == u[used..used + n][k..];
  }

  lemma BookMarked(stream: seq<byte>, taken: seq<seq<byte>>, queued: seq<seq<byte>>,
                   contents: seq<byte>, cur: seq<byte>, todo: seq<byte>)
    requires Book(stream, taken, queued, contents, cur, todo)
    ensures |contents| == |Flatten(queued)| + |cur| + |todo|
  {
  }

  /**
   The parser sees a header at the front of a run of `n` of the unparsed bytes `u`: the frame it
   announces, whether complete in the run or only begun there.
   */
  lemma RunHeader(u: seq<byte>, n: nat)
    requires HEADER <= n <= |u| && !Oversized(Rest(u))
    ensures var r := CheckHeader(u[..n][..8], u[..n]);
            if r == -1 then BadStart(u)
            else
              && r >= HEADER
              && (r <= n ==> HasFrame(u[..r]) && FrameLength(u[..r]) == r)
              && (n < r ==> OpenFrame(r - n, r, u[..n]))
  {
    hide Frames, Rest, FromWord, Length, CheckHeader, Oversized, GoodHeader;
    HeaderCases(u);
    HeaderOfRun(u, n);
    CheckHeaderMeans(u[..n]);
    if GoodHeader(u) && FrameLength(u) <= n {
      HeaderOfRun(u, FrameLength(u));
    }
  }

  /** The header of a stream is the header of any run at its front. */
  lemma HeaderOfRun(u: seq<byte>, n: nat)
    requires HEADER <= n <= |u|
    ensures Length(u[..n]) == Length(u) && (GoodHeader(u[..n]) <==> GoodHeader(u))
    ensures u[..n][4..8] == u[4..8]
  {
    assert u == u[..n] + u[n..];
    SameHeader(u[..n], u[n..]);
  }

  /** The eight header bytes pieced together are enough to judge the unparsed bytes `u`. */
  lemma SplitHeader(u: seq<byte>)
    requires HEADER <= |u| && !Oversized(Rest(u))
    ensures var r := CheckHeader(u[..8], u[..8]);
            if r == -1 then BadStart(u)
            else
              && r >= HEADER
              && (r == HEADER ==> HasFrame(u[..8]) && FrameLength(u[..8]) == HEADER)
              && (r > HEADER ==> OpenFrame(r - HEADER, r, u[..8]))
  {
    RunHeader(u, 8);
    assert u[..8][..8] == u[..8];
  }

  lemma TwoHalves(u: seq<byte>, n: nat, a: seq<byte>, b: seq<byte>)
    requires n < HEADER <= |u| && a == u[..n] && b == u[n..]
    ensures a + b[..HEADER - n] == u[..HEADER]
  {
  }

  /** The parser's bookkeeping: bytes received, frames popped, frames with a pending event, consumed part of the open frame. */
  datatype Log = Log(stream: seq<byte>, taken: seq<seq<byte>>, queued: seq<seq<byte>>, cur: seq<byte>)

  /** Events, deliveries and the ring's contents agree with the stream; `todo` is not parsed yet. */
  ghost predicate Sync(log: Log, events: seq<Event>, delivered: seq<seq<byte>>, contents: seq<byte>, todo: seq<byte>)
  {
    && Book(log.stream, log.taken, log.queued, contents, log.cur, todo)
    && events == Recvs(log.queued)
    && (forall i :: 0 <= i < |log.taken| ==> |log.taken[i]| >= HEADER)
    && (forall i :: 0 <= i < |log.queued| ==> |log.queued[i]| >= HEADER)
    && delivered == Payloads(log.taken)
  }

  lemma SyncEmpty()
    ensures Sync(Log([], [], [], []), [], [], [], []) && Frames([] + []) == []
  {
  }

  lemma SyncMove(log: Log, events: seq<Event>, delivered: seq<seq<byte>>, contents: seq<byte>, todo: seq<byte>, k: nat)
    requires Sync(log, events, delivered, contents, todo) && k <= |todo|
    ensures Sync(log.(cur := log.cur + todo[..k]), events, delivered, contents, todo[k..])
  {
    hide Book;
    BookMove(log.stream, log.taken, log.queued, contents, log.cur, todo, k);
  }

  lemma SyncFinish(log: Log, events: seq<Event>, delivered: seq<seq<byte>>, contents: seq<byte>, todo: seq<byte>, k: nat)
    requires Sync(log, events, delivered, contents, todo) && k <= |todo|
    requires HasFrame(log.cur + todo[..k]) && FrameLength(log.cur + todo[..k]) == |log.cur| + k
    ensures Sync(log.(queued := log.queued + [log.cur + todo[..k]], cur := []), events + [Recv(|log.cur| + k)],
                 delivered, contents, todo[k..])
  {
    hide Book, Recvs, Payloads, GoodHeader, Length;
    BookFinish(log.stream, log.taken, log.queued, contents, log.cur, todo, k);
    RecvsSnoc(log.queued, log.cur + todo[..k]);
  }

  lemma SyncArrive(log: Log, events: seq<Event>, delivered: seq<seq<byte>>, contents: seq<byte>, todo: seq<byte>, data: seq<byte>)
    requires Sync(log, events, delivered, contents, todo)
    ensures Sync(log.(stream := log.stream + data), events, delivered, contents + data, todo + data)
  {
    hide Book, Recvs, Payloads;
    BookArrive(log.stream, log.taken, log.queued, contents, log.cur, todo, data);
  }

  /** The oldest event is for the oldest frame in the ring; popping it delivers that frame's payload. */
  lemma SyncPop(log: Log, events: seq<Event>, delivered: seq<seq<byte>>, contents: seq<byte>, todo: seq<byte>)
    requires Sync(log, events, delivered, contents, todo) && events != []
    ensures log.queued != [] && |log.queued| == |events| && events[0] == Recv(|log.queued[0]|)
    ensures HEADER <= |log.queued[0]| <= |contents| - |todo| && contents[..|log.queued[0]|] == log.queued[0]
    ensures Sync(log.(taken := log.taken + [log.queued[0]], queued := log.queued[1..]), events[1..],
                 delivered + [log.queued[0][HEADER..]], contents[|log.queued[0]|..], todo)
  {
    BookPop(log.stream, log.taken, log.queued, contents, log.cur, todo);
    BookMarked(log.stream, log.taken, log.queued, contents, log.cur, todo);
    RecvsHead(log.queued);
    PayloadsSnoc(log.taken, log.queued[0]);
    hide Book, Flatten, Frames, Rest, Recvs, Payloads;
  }

  lemma RecvsHead(fs: seq<seq<byte>>)
    requires fs != []
    ensures Recvs(fs)[0] == Recv(|fs[0]|) && Recvs(fs)[1..] == Recvs(fs[1..])
  {
  }

  lemma PayloadsSnoc(fs: seq<seq<byte>>, f: seq<byte>)
    requires (forall i :: 0 <= i < |fs| ==> |fs[i]| >= HEADER) && |f| >= HEADER
    ensures forall i :: 0 <= i < |fs + [f]| ==> |(fs + [f])[i]| >= HEADER
    ensures Payloads(fs + [f]) == Payloads(fs) + [f[HEADER..]]
  {
    PayloadsConcat(fs, [f]);
  }

  /** With nothing complete in the unparsed bytes, every complete frame has been popped or has its event. */
  lemma SyncAll(log: Log, events: seq<Event>, delivered: seq<seq<byte>>, contents: seq<byte>, todo: seq<byte>)
    requires Sync(log, events, delivered, contents, todo)
    ensures Rest(log.stream) == Rest(log.cur + todo)
    ensures Frames(log.cur + todo) == [] ==> log.taken + log.queued == Frames(log.stream)
  {
    hide Frames, Rest;
  }

  /** The events for finished frames; a closed connection has one error event behind them. */
  ghost function Finished(closed: bool, events: seq<Event>): seq<Event>
  {
    if closed && events != [] then events[..|events| - 1] else events
  }

  lemma FinishedPop(closed: bool, events: seq<Event>)
    requires events != [] && events[0].Recv?
    requires closed ==> events == Finished(closed, events) + [Error]
    ensures Finished(closed, events) != [] && Finished(closed, events)[0] == events[0]
    ensures Finished(closed, events[1..]) == Finished(closed, events)[1..]
    ensures closed ==> events[1..] == Finished(closed, events[1..]) + [Error]
  {
  }

  class Receiver {
    const ring: LoopBuff
    var header: seq<byte>               // scratch copy of the header being looked at
    const recvSize: nat                 // capacity of the session's buffer
    var closed: bool
    var needData: int                   // bytes still missing from the open frame
    var packetLen: int                  // length of the open frame
    var events: seq<Event>              // waiting for the main thread
    var delivered: seq<seq<byte>>       // payloads handed to the session

    ghost var log: Log
    ghost var skipped: bool             // a frame too long for the session was left in the ring

    ghost predicate Shape()
      reads this, ring
    {
      && ring.Valid() && |header| == HEADER
    }

    ghost function Pending(): seq<Event>
      reads this
    {
      Finished(closed, events)
    }

    ghost predicate Valid()
      reads this, ring, ring.buf
      ensures Valid() ==> Shape() && (!closed ==> !skipped)
    {
      && Shape()
      && (!closed ==> !skipped)
      && (!skipped ==> ring.MarksOk() && InStep())
      && (!closed ==> OpenFrame(needData, packetLen, log.cur))
      && (!closed ==> if needData > 0 then ring.Unmarked() == [] else |ring.Unmarked()| < HEADER)
    }

    /** Ring, events and deliveries agree with the stream, and no complete frame is left unparsed. */
    ghost predicate InStep()
      reads this, ring, ring.buf
      requires ring.Valid() && ring.MarksOk()
    {
      && Sync(log, Pending(), delivered, ring.Contents(), ring.Unmarked())
      && Frames(log.cur + ring.Unmarked()) == []
      && (closed ==> events == Pending() + [Error])
    }

    /** Still parsing: `todo` is not parsed yet. */
    ghost predicate Parsing(todo: seq<byte>)
      reads this, ring, ring.buf
    {
      Shape() && ring.MarksOk() && !closed && !skipped && Sync(log, events, delivered, ring.Contents(), todo)
    }

    /** The parser loop: `n` bytes ahead in one stretch, `used` bytes passed but not marked yet. */
    ghost predicate Scan(n: int, used: int, p: int)
      reads this, ring, ring.buf
    {
      && Shape() && ring.MarksOk()
      && 0 <= n && 0 <= used && used + n <= |ring.Unmarked()|
      && Parsing(ring.Unmarked()[used..])
      && OpenFrame(needData, packetLen, log.cur)
      && (needData == 0 ==> used == 0)
      && (used + n == |ring.Unmarked()| || (needData == 0 && 0 < n < HEADER && ring.useCur + n == ring.total))
      && (n > 0 ==> Ahead(n, used, p))
    }

    /** From cell `p` on the array holds the `n` unmarked bytes behind the first `used`. */
    ghost predicate Ahead(n: nat, used: nat, p: int)
      reads this, ring, ring.buf
      requires Shape() && ring.MarksOk() && used + n <= |ring.Unmarked()|
    {
      && p == ring.useCur + used && p + n <= ring.total
      && Run(ring.buf[..], p, ring.Unmarked(), used, n)
    }

    constructor (n: nat, session: nat)
      requires 0 < n
      ensures Valid() && !closed && fresh(ring) && fresh(ring.buf)
      ensures log == Log([], [], [], []) && events == [] && delivered == [] && recvSize == session
    {
      var r := new LoopBuff(n);
      ring := r;
      header := seq(HEADER, _ => 0);
      recvSize := session;
      closed, skipped := false, false;
      needData, packetLen := 0, 0;
      events, delivered := [], [];
      log := Log([], [], [], []);
      new;
      hide *;
      Begins();
    }

    lemma Begins()
      requires ring.Valid() && ring.MarksOk() && ring.Contents() == [] && |header| == HEADER && !closed && !skipped
      requires needData == 0 && packetLen == 0 && events == [] && delivered == [] && log == Log([], [], [], [])
      ensures Valid()
    {
      hide LoopBuff.Valid, LoopBuff.MarksOk, LoopBuff.Contents, Sync, Rest, HasFrame, GoodHeader, FrameLength;
      assert ring.Unmarked() == [];
      hide LoopBuff.Unmarked;
      SyncEmpty();
    }

    /** Copies bytes into the scratch header. */
    method BuildRecvPkgHeader(src: seq<byte>, offset: nat) returns (ok: bool)
      requires |header| == HEADER
      modifies this`header
      ensures ok == (|src| + offset <= HEADER)
      ensures header == if ok then Copied(old(header), offset, src) else old(header)
    {
      if |src| + offset > HEADER {
        return false;
      }
      header := Copied(header, offset, src);
      ok := true;
    }

    /** 0: not enough bytes for a header; -1: bad header; otherwise the length of the frame. */
    method ParsePacket(b: seq<byte>) returns (r: int)
      requires |header| == HEADER
      ensures r == if |b| < HEADER then 0 else CheckHeader(header, b)
    {
      if |b| < HEADER {
        return 0;
      }
      r := CheckHeader(header, b);
    }

    /** Marks `used + k` bytes, the last `k` of which complete the current frame, and queues its event. */
    method Finish(used: nat, k: nat)
      requires Shape() && ring.MarksOk() && 0 < k && used + k <= |ring.Unmarked()|
      requires Parsing(ring.Unmarked()[used..])
      requires var f := log.cur + ring.Unmarked()[used..][..k]; HasFrame(f) && FrameLength(f) == |f| == packetLen
      modifies this`events, this`packetLen, this`needData, this`log, ring`useCur, ring`useLoop
      ensures Shape() && ring.MarksOk() && Parsing(ring.Unmarked())
      ensures ring.Unmarked() == old(ring.Unmarked())[used + k..]
      ensures ring.useCur == old(ring.useCur) + used + k
           || (ring.useCur == old(ring.useCur) + used + k - ring.total && old(ring.useCur) + used + k >= ring.total)
      ensures needData == 0 && packetLen == 0 && log.cur == []
      ensures log.stream == old(log.stream) && log.taken == old(log.taken)
    {
      hide LoopBuff.Valid, LoopBuff.MarksOk, LoopBuff.Contents, LoopBuff.Unmarked, HasFrame, FrameLength, Sync;
      ghost var todo := ring.Unmarked()[used..];
      SyncFinish(log, events, delivered, ring.Contents(), todo, k);
      assert todo[k..] == ring.Unmarked()[used + k..];
      var done := ring.CostUsedBuff(used + k);
      events := events + [Recv(packetLen)];
      log := log.(queued := log.queued + [log.cur + todo[..k]], cur := []);
      packetLen := 0;
      needData := 0;
    }

    /** One round of the parser with a frame open: finish it, or swallow what there is. */
    method StepOpen(n: int, used: int, parsed: int, ghost pUse: int) returns (n': int, used': int, parsed': int)
      requires Scan(n, used, pUse + parsed) && needData != 0 && 0 < n
      modifies this`events, this`packetLen, this`needData, this`log, ring`useCur, ring`useLoop
      ensures Scan(n', used', pUse + parsed')
      ensures |ring.Unmarked()| - used' < old(|ring.Unmarked()|) - used
      ensures log.stream == old(log.stream) && log.taken == old(log.taken)
    {
      hide LoopBuff.Valid, LoopBuff.MarksOk, LoopBuff.Contents, LoopBuff.Unmarked, HasFrame, FrameLength, GoodHeader, Sync, Run;
      n', used', parsed' := n, used, parsed;
      ghost var u := ring.Unmarked();
      ghost var todo := u[used..];
      if n >= needData {
        var k := needData;
        n' := n - k;
        parsed' := parsed + k;
        CompletedHeader(log.cur, todo[..k], packetLen);
        Finish(used, k);
        used' := 0;
        assert ring.Unmarked()[0..] == ring.Unmarked();
        if n' > 0 {
          RunSlides(ring.buf[..], pUse + parsed, u, used, n, k);
        }
      } else {
        SyncMove(log, events, delivered, ring.Contents(), todo, n);
        OpenMoves(needData, packetLen, log.cur, todo[..n]);
        needData := needData - n;
        used' := used + n;
        n' := 0;
        log := log.(cur := log.cur + todo[..n]);
        assert todo[n..] == u[used + n..];
      }
    }

    /** A header at the front of the run announces a frame of `packetLen` bytes. */
    method StepFrame(n: int, used: int, parsed: int, ghost pUse: int) returns (n': int, used': int, parsed': int)
      requires Shape() && ring.MarksOk() && 0 < n == |ring.Unmarked()|
      requires needData == 0 && log.cur == [] && used == 0
      requires Ahead(n, 0, pUse + parsed) && Parsing(ring.Unmarked())
      requires HEADER <= packetLen
      requires packetLen <= n ==> HasFrame(ring.Unmarked()[..packetLen]) && FrameLength(ring.Unmarked()[..packetLen]) == packetLen
      requires n < packetLen ==> OpenFrame(packetLen - n, packetLen, ring.Unmarked()[..n])
      modifies this`events, this`packetLen, this`needData, this`log, ring`useCur, ring`useLoop
      ensures Scan(n', used', pUse + parsed')
      ensures |ring.Unmarked()| - used' < old(|ring.Unmarked()|)
      ensures log.stream == old(log.stream) && log.taken == old(log.taken)
    {
      hide LoopBuff.Valid, LoopBuff.MarksOk, LoopBuff.Contents, LoopBuff.Unmarked, HasFrame, FrameLength, GoodHeader, Sync, Run;
      n', used', parsed' := n, used, parsed;
      ghost var u := ring.Unmarked();
      assert u[0..] == u;
      if n >= packetLen {
        n' := n - packetLen;
        var k := packetLen;
        parsed' := parsed + used + k;
        assert [] + u[..k] == u[..k];
        Finish(used, k);
        used' := 0;
        assert ring.Unmarked()[0..] == ring.Unmarked();
        if n' > 0 {
          RunSlides(ring.buf[..], pUse + parsed, u, 0, n, k);
        }
      } else {
        SyncMove(log, events, delivered, ring.Contents(), u, n);
        assert [] + u[..n] == u[..n];
        needData := packetLen - n;
        used' := used + n;
        n' := 0;
        log := log.(cur := u[..n]);
      }
    }

    /** The last `k` bytes of a split header lie at the front of a run of `newLen` bytes, and are the whole frame's last. */
    method SplitEnds(newLen: nat, k: nat, ghost pUse: int)
      requires Shape() && ring.MarksOk() && 0 < k <= newLen == |ring.Unmarked()|
      requires Ahead(newLen, 0, pUse) && Parsing(ring.Unmarked()) && packetLen == HEADER
      requires var h := log.cur + ring.Unmarked()[..k]; HasFrame(h) && FrameLength(h) == |h| == HEADER
      modifies this`events, this`packetLen, this`needData, this`log, ring`useCur, ring`useLoop
      ensures Scan(newLen - k, 0, pUse + k)
      ensures |ring.Unmarked()| == old(|ring.Unmarked()|) - k
      ensures log.stream == old(log.stream) && log.taken == old(log.taken)
    {
      hide LoopBuff.Valid, LoopBuff.MarksOk, LoopBuff.Contents, LoopBuff.Unmarked, HasFrame, FrameLength, GoodHeader, Sync, Run;
      ghost var u := ring.Unmarked();
      assert u[0..] == u;
      RunSlides(ring.buf[..], pUse, u, 0, newLen, k);
      Finish(0, k);
      assert ring.Unmarked()[0..] == ring.Unmarked();
    }

    /** The same, when a longer frame begins with the header. */
    method SplitOpens(newLen: nat, k: nat, ghost pUse: int)
      requires Shape() && ring.MarksOk() && 0 < k <= newLen == |ring.Unmarked()|
      requires Ahead(newLen, 0, pUse) && Parsing(ring.Unmarked()) && packetLen > HEADER
      requires OpenFrame(packetLen - HEADER, packetLen, log.cur + ring.Unmarked()[..k])
      modifies this`needData, this`log
      ensures Scan(newLen - k, k, pUse + k)
      ensures log.stream == old(log.stream) && log.taken == old(log.taken)
    {
      hide LoopBuff.Valid, LoopBuff.MarksOk, LoopBuff.Contents, LoopBuff.Unmarked, HasFrame, FrameLength, GoodHeader, Sync, Run;
      ghost var u := ring.Unmarked();
      RunSlides(ring.buf[..], pUse, u, 0, newLen, k);
      SyncMove(log, events, delivered, ring.Contents(), u, k);
      needData := packetLen - HEADER;
      log := log.(cur := log.cur + u[..k]);
    }

    method StepSplitFrame(newLen: nat, k: nat, ghost pUse: int) returns (n': int, used': int, parsed': int)
      requires Shape() && ring.MarksOk() && 0 < k <= newLen == |ring.Unmarked()|
      requires Ahead(newLen, 0, pUse) && Parsing(ring.Unmarked())
      requires HEADER <= packetLen
      requires var h := log.cur + ring.Unmarked()[..k];
               && (packetLen == HEADER ==> HasFrame(h) && FrameLength(h) == |h| == HEADER)
               && (packetLen > HEADER ==> OpenFrame(packetLen - HEADER, packetLen, h))
      modifies this`events, this`packetLen, this`needData, this`log, ring`useCur, ring`useLoop
      ensures Scan(n', used', pUse + parsed')
      ensures |ring.Unmarked()| - used' == old(|ring.Unmarked()|) - k
      ensures log.stream == old(log.stream) && log.taken == old(log.taken)
    {
      hide *;
      used', parsed', n' := k, k, newLen - k;
      if packetLen == HEADER {
        SplitEnds(newLen, k, pUse);
        used' := 0;
      } else {
        SplitOpens(newLen, k, pUse);
      }
    }

    /** A bad header: report it and close. */
    method Fail()
      requires Shape() && ring.MarksOk() && Parsing(ring.Unmarked())
      requires BadStart(log.cur + ring.Unmarked())
      modifies this`events, this`closed
      ensures closed && Valid() && BadStart(Rest(log.stream)) && log == old(log)
    {
      hide LoopBuff.Valid, LoopBuff.MarksOk, LoopBuff.Contents, LoopBuff.Unmarked, Sync, BadStart, Frames, Rest;
      ghost var t := log.cur + ring.Unmarked();
      SyncAll(log, events, delivered, ring.Contents(), ring.Unmarked());
      events := events + [Error];
      closed := true;
      BadStays(t, []);
      assert t + [] == t;
    }

    /** Pieces a header together from the last `n` cells of the array and the run at its front. */
    method AssembleHeader(n: int, b: seq<byte>) returns (p: int, newLen: int)
      requires Shape() && ring.MarksOk()
      requires 0 < n < HEADER <= |ring.Unmarked()| && b == ring.Unmarked()[..n]
      requires ring.useCur + n == ring.total
      modifies ring`useCur, ring`useLoop, this`header
      ensures Shape() && ring.MarksOk()
      ensures ring.Contents() == old(ring.Contents()) && ring.Unmarked() == old(ring.Unmarked())[n..]
      ensures newLen == |ring.Unmarked()| && Ahead(newLen, 0, p)
      ensures header == old(ring.Unmarked())[..HEADER]
    {
      hide LoopBuff.Valid, LoopBuff.MarksOk, LoopBuff.Contents, LoopBuff.Unmarked, Copied, Run;
      ghost var u, h := ring.Unmarked(), header;
      var copied := BuildRecvPkgHeader(b, 0);
      var done := ring.CostUsedBuff(n);
      p, newLen := ring.GetUsedCursorPtr();
      var rest := ring.buf[p..p + newLen];
      assert rest == u[n..] == u[n..][..newLen];
      RunWas(ring.buf[..], p, u[n..], newLen);
      var k := HEADER - n;
      copied := BuildRecvPkgHeader(rest[..k], n);
      CopiedHalves(h, b, rest[..k]);
      TwoHalves(u, n, b, rest);
    }

    /** The next header is split over the end of the array. */
    method StepSplit(n: int, b: seq<byte>)
      returns (n': int, used': int, parsed': int, pUse': int, stop: bool)
      requires Shape() && ring.MarksOk() && Parsing(ring.Unmarked())
      requires needData == 0 && packetLen == 0 && log.cur == []
      requires 0 < n < HEADER <= |ring.Unmarked()| && b == ring.Unmarked()[..n]
      requires ring.useCur + n == ring.total
      requires !Oversized(Rest(log.stream))
      modifies this`events, this`packetLen, this`needData, this`log, this`closed
      modifies ring`useCur, ring`useLoop, this`header
      ensures closed <==> stop
      ensures stop ==> used' == 0
      ensures closed ==> Valid() && BadStart(Rest(log.stream))
      ensures !stop ==> Scan(n', used', pUse' + parsed')
      ensures !stop ==> |ring.Unmarked()| - used' < old(|ring.Unmarked()|)
      ensures log.stream == old(log.stream) && log.taken == old(log.taken)
    {
      hide LoopBuff.Valid, LoopBuff.MarksOk, LoopBuff.Contents, LoopBuff.Unmarked, HasFrame, FrameLength, GoodHeader, Sync, Run, CheckHeader, BadStart, Oversized, OpenFrame;
      ghost var u := ring.Unmarked();
      SyncAll(log, events, delivered, ring.Contents(), u);
      SyncMove(log, events, delivered, ring.Contents(), u, n);
      assert [] + u[..n] == u[..n] && [] + u == u;
      SplitHeader(u);
      var p, newLen := AssembleHeader(n, b);
      log := log.(cur := u[..n]);
      n', used', parsed', pUse', stop := 0, 0, 0, p, false;
      var k := HEADER - n;
      assert u[..n] + u[n..] == u;
      TwoHalves(u, n, u[..n], u[n..]);
      packetLen := ParsePacket(header);
      if 0 >= packetLen {
        stop := true;
        Fail();
      } else {
        n', used', parsed' := StepSplitFrame(newLen, k, p);
      }
    }

    /** No frame is open and fewer bytes than a header are left. */
    ghost predicate AtRest()
      reads this, ring, ring.buf
    {
      && Shape() && ring.MarksOk() && Parsing(ring.Unmarked())
      && needData == 0 && packetLen == 0 && log.cur == [] && |ring.Unmarked()| < HEADER
    }

    /** Reads the header at the front of the run, if it is all there. */
    method ReadHeader(n: int, p: int) returns (b: seq<byte>)
      requires Shape() && ring.MarksOk() && 0 < n <= |ring.Unmarked()| && Ahead(n, 0, p)
      requires !Oversized(Rest(ring.Unmarked()))
      modifies this`header, this`packetLen
      ensures Shape() && b == ring.Unmarked()[..n]
      ensures n < HEADER ==> packetLen == 0
      ensures n >= HEADER && packetLen == -1 ==> BadStart(ring.Unmarked())
      ensures n >= HEADER && packetLen != -1 ==>
        && packetLen >= HEADER
        && (packetLen <= n ==> HasFrame(ring.Unmarked()[..packetLen]) && FrameLength(ring.Unmarked()[..packetLen]) == packetLen)
        && (n < packetLen ==> OpenFrame(packetLen - n, packetLen, ring.Unmarked()[..n]))
    {
      hide LoopBuff.Valid, LoopBuff.MarksOk, LoopBuff.Contents, LoopBuff.Unmarked, HasFrame, FrameLength, GoodHeader, Sync, Run, CheckHeader, BadStart, Oversized, Copied, OpenFrame;
      ghost var u := ring.Unmarked();
      b := ring.buf[p..p + n];
      RunIs(ring.buf[..], p, u, n);
      if n >= HEADER {
        CopiedWhole(header, b[..8]);
        RunHeader(u, n);
      }
      var copied := BuildRecvPkgHeader(b[..if HEADER > n then n else HEADER], 0);
      packetLen := ParsePacket(b);
    }

    /** One round with no frame open: look at the next header. */
    method StepHeader(n: int, used: int, parsed: int, pUse: int)
      returns (n': int, used': int, parsed': int, pUse': int, stop: bool)
      requires Scan(n, used, pUse + parsed) && needData == 0 && 0 < n
      requires !Oversized(Rest(log.stream))
      modifies this`events, this`packetLen, this`needData, this`log, this`closed
      modifies ring`useCur, ring`useLoop, this`header
      ensures closed ==> stop && Valid() && BadStart(Rest(log.stream))
      ensures stop && !closed ==> AtRest()
      ensures stop ==> used' == 0
      ensures !stop ==> Scan(n', used', pUse' + parsed')
      ensures !stop ==> |ring.Unmarked()| - used' < old(|ring.Unmarked()|) - used
      ensures log.stream == old(log.stream) && log.taken == old(log.taken)
    {
      hide LoopBuff.Valid, LoopBuff.MarksOk, LoopBuff.Contents, LoopBuff.Unmarked, HasFrame, FrameLength, GoodHeader, Sync, Run, BadStart, Oversized, Frames, Rest;
      ghost var u := ring.Unmarked();
      n', used', parsed', pUse', stop := n, used, parsed, pUse, false;
      assert u[0..] == u && [] + u == u;
      SyncAll(log, events, delivered, ring.Contents(), u);
      var b := ReadHeader(n, pUse + parsed);
      if packetLen == -1 {
        packetLen := 0;
        stop := true;
        Fail();
      } else if packetLen == 0 {
        var done := ring.CostUsedBuff(used);
        needData := 0;
        if HEADER > n {
          var has := ring.GetUseLen();
          if HEADER <= has {
            n', used', parsed', pUse', stop := StepSplit(n, b);
          } else {
            stop := true;
          }
        }
      } else {
        n', used', parsed' := StepFrame(n, used, parsed, pUse);
      }
    }

    /** `recv` has put `data` behind the in-cursor; the ring takes it. */
    method Arrive(data: seq<byte>)
      requires Valid() && !closed && 0 < |data| <= ring.InRoom()
      modifies ring, ring.buf, this`log
      ensures Shape() && ring.MarksOk() && ring.buf == old(ring.buf)
      ensures Parsing(ring.Unmarked()) && OpenFrame(needData, packetLen, log.cur)
      ensures log == old(log).(stream := old(log.stream) + data)
      ensures 0 < ring.FirstRun() == |ring.Unmarked()| || (needData == 0 && 0 < ring.FirstRun() < HEADER)
    {
      hide LoopBuff.Valid, LoopBuff.MarksOk, LoopBuff.Contents, LoopBuff.Unmarked, HasFrame, FrameLength, GoodHeader, Sync, Run, LoopBuff.FirstRun, LoopBuff.Staged, Rest;
      SyncArrive(log, events, delivered, ring.Contents(), ring.Unmarked(), data);
      ring.StoreFree(data);
      var done := ring.CostBuff(|data|);
      log := log.(stream := log.stream + data);
    }

    /** The parser stops with nothing complete left: all bytes passed, or less than a header ahead. */
    lemma Settled()
      requires Shape() && ring.MarksOk() && Parsing(ring.Unmarked()) && OpenFrame(needData, packetLen, log.cur)
      requires if needData > 0 then ring.Unmarked() == [] else |ring.Unmarked()| < HEADER
      ensures Valid() && !BadStart(Rest(log.stream))
    {
      hide LoopBuff.Valid, LoopBuff.MarksOk, LoopBuff.Contents, LoopBuff.Unmarked, Sync;
      SyncAll(log, events, delivered, ring.Contents(), ring.Unmarked());
      if needData > 0 {
        OpenYieldsNothing(needData, packetLen, log.cur);
        assert log.cur + [] == log.cur;
      }
    }

    /** The parser loop of one read. */
    method Parse()
      requires Shape() && ring.MarksOk() && Parsing(ring.Unmarked()) && OpenFrame(needData, packetLen, log.cur)
      requires 0 < ring.FirstRun() == |ring.Unmarked()| || (needData == 0 && 0 < ring.FirstRun() < HEADER)
      requires !Oversized(Rest(log.stream))
      modifies this`events, this`packetLen, this`needData, this`log, this`closed
      modifies ring`useCur, ring`useLoop, this`header
      ensures Valid()
      ensures closed <==> BadStart(Rest(log.stream))
      ensures log.stream == old(log.stream) && log.taken == old(log.taken)
    {
      hide LoopBuff.Valid, LoopBuff.MarksOk, LoopBuff.Contents, LoopBuff.Unmarked, HasFrame, FrameLength, GoodHeader, Sync, Run, LoopBuff.FirstRun, Rest, Frames, BadStart, Oversized;
      assert ring.Unmarked()[0..] == ring.Unmarked();
      var used, parsed, stop := 0, 0, false;
      var pUse, n := ring.GetUsedCursorPtr();
      RunWas(ring.buf[..], pUse, ring.Unmarked(), n);
      while 0 < n && !stop
        invariant log.stream == old(log.stream) && log.taken == old(log.taken)
        invariant closed ==> stop && Valid() && BadStart(Rest(log.stream))
        invariant stop && !closed ==> AtRest()
        invariant stop ==> used == 0
        invariant !stop ==> Scan(n, used, pUse + parsed)
        decreases !stop, if stop then 0 else |ring.Unmarked()| - used
      {
        if 0 != needData {
          n, used, parsed := StepOpen(n, used, parsed, pUse);
        } else {
          n, used, parsed, pUse, stop := StepHeader(n, used, parsed, pUse);
        }
      }
      if used != 0 {
        var done := ring.CostUsedBuff(used);
      }
      if !closed {
        Settled();
      }
    }

    /** Every complete frame of the stream has been popped or has its event. */
    lemma Complete()
      requires Valid() && !skipped
      ensures log.taken + log.queued == Frames(log.stream)
    {
      hide LoopBuff.Valid, LoopBuff.MarksOk, LoopBuff.Contents, LoopBuff.Unmarked, Sync, OpenFrame;
      SyncAll(log, Pending(), delivered, ring.Contents(), ring.Unmarked());
    }

    /** How many bytes the socket is offered: all that fit in one stretch, from the front again if the ring is empty. */
    ghost function Offers(): nat
      reads ring, ring.buf
      requires ring.Valid()
    {
      if ring.Contents() == [] then ring.total else ring.InRoom()
    }

    /** An empty ring is reset before each read. */
    method Reset()
      requires Valid() && !closed
      modifies ring`inCur, ring`outCur, ring`useCur, ring`loop, ring`useLoop
      ensures Valid() && ring.free == old(ring.free)
      ensures ring.InRoom() == old(Offers())
    {
      hide LoopBuff.Valid, LoopBuff.MarksOk, LoopBuff.Contents, LoopBuff.Unmarked, HasFrame, FrameLength, GoodHeader, Sync, Run, Frames, OpenFrame;
      var empty := ring.IsEmpty();
      if empty {
        assert ring.Unmarked() == [];
        ring.Clear();
        assert ring.Unmarked() == [];
      }
    }

    /** The peer has closed its side. */
    method EndOfStream()
      requires Valid() && !closed
      modifies this`events, this`closed
      ensures Valid() && closed && events == old(events) + [Error]
    {
      hide LoopBuff.Valid, LoopBuff.MarksOk, LoopBuff.Contents, LoopBuff.Unmarked, HasFrame, FrameLength, GoodHeader, Sync, Run, Frames, OpenFrame;
      events := events + [Error];
      closed := true;
    }

    /**
     The socket is readable: takes bytes into the ring and parses them.  `data` is what the socket
     would yield; an empty `data` is the end of the stream.  Afterwards every complete frame of the
     stream has its event, and the connection is closed exactly when the stream ended or goes on
     with a bad header.
     */
    method OnRecv(data: seq<byte>) returns (n: nat)
      requires Valid() && !closed
      requires forall k :: 0 <= k <= |data| ==> !Oversized(Rest(log.stream + data[..k]))
      modifies this, ring, ring.buf
      ensures Valid() && !skipped
      ensures delivered == old(delivered) && log.taken == old(log.taken)
      ensures n <= |data| && log.stream == old(log.stream) + data[..n]
      ensures n <= SOCKET_CHUNK && (n == |data| || n == SOCKET_CHUNK || n == old(Offers()))
      ensures data != [] && 0 < old(ring.free) ==> 0 < n
      ensures n == 0 ==> events == old(events) + (if closed then [Error] else [])
      ensures n == 0 ==> (closed <==> data == [] && 0 < old(ring.free))
      ensures n > 0 ==> (closed <==> BadStart(Rest(log.stream)))
      ensures log.taken + log.queued == Frames(log.stream)
    {
      hide Valid, Rest, Frames, Oversized, BadStart, OpenFrame, LoopBuff.Valid, LoopBuff.MarksOk, LoopBuff.Contents,
           LoopBuff.Unmarked, Parsing, Offers, LoopBuff.InRoom;
      Reset();
      Complete();
      var pIn, room := ring.GetInCursorPtr();
      if 0 >= room {
        return 0;
      }
      room := if SOCKET_CHUNK < room then SOCKET_CHUNK else room;
      n := if |data| < room then |data| else room;
      if n == 0 {
        EndOfStream();
        return;
      }
      Arrive(data[..n]);
      Parse();
      Complete();
    }

    /** Pops `len` bytes, strips the header and hands the payload over. */
    method Take(len: nat) returns (ok: bool)
      requires Shape() && HEADER <= len
      modifies this`delivered, ring`outCur, ring`free, ring`loop
      ensures Shape()
      ensures ok == (len <= old(|ring.Contents()|))
      ensures ring.Contents() == if ok then old(ring.Contents())[len..] else old(ring.Contents())
      ensures delivered == if ok then old(delivered) + [old(ring.Contents())[HEADER..len]] else old(delivered)
      ensures ok && old(ring.MarksOk()) && len <= old(ring.Marked()) ==> ring.MarksOk() && ring.Unmarked() == old(ring.Unmarked())
    {
      hide LoopBuff.Valid, LoopBuff.Contents, LoopBuff.Unmarked, LoopBuff.MarksOk;
      ghost var c := ring.Contents();
      var popped, frame := ring.PopBuff(len);
      ok := popped;
      if ok {
        assert c[HEADER..len] == frame[HEADER..];
        delivered := delivered + [frame[HEADER..]];
      }
    }

    /** A frame too long for the session's buffer stays in the ring. */
    method Skip()
      requires Valid() && events != [] && events[0].Recv?
      modifies this`events, this`closed, this`skipped
      ensures Valid() && skipped && closed && events == old(events[1..]) + [Error]
    {
      hide LoopBuff.Valid, LoopBuff.Contents, LoopBuff.Unmarked, LoopBuff.MarksOk, Sync, Frames, OpenFrame, Rest, Recvs;
      events := events[1..] + [Error];
      closed := true;
      skipped := true;
    }

    /** Pops the frame of the oldest event. */
    method Pop(len: nat)
      requires Valid() && events != [] && events[0] == Recv(len) && HEADER <= len <= recvSize
      modifies this`events, this`delivered, this`log, ring`outCur, ring`free, ring`loop
      ensures Valid() && log.stream == old(log.stream) && events == old(events[1..])
      ensures var ok := Poppable(len, recvSize, old(ring.Contents()));
              && ring.Contents() == (if ok then old(ring.Contents())[len..] else old(ring.Contents()))
              && delivered == (if ok then old(delivered) + [old(ring.Contents())[HEADER..len]] else old(delivered))
      ensures !skipped ==> log.taken + log.queued == old(log.taken + log.queued) && |log.taken| == old(|log.taken|) + 1
    {
      hide LoopBuff.Valid, LoopBuff.Contents, LoopBuff.Unmarked, LoopBuff.MarksOk, Sync, Frames, OpenFrame, Rest, Recvs;
      if !skipped {
        FinishedPop(closed, events);
        SyncPop(log, Pending(), delivered, ring.Contents(), ring.Unmarked());
        assert log.taken + log.queued == (log.taken + [log.queued[0]]) + log.queued[1..];
      }
      hide Finished;
      events := events[1..];
      var ok := Take(len);
      if !ok {
        return;
      }
      if !skipped {
        log := log.(taken := log.taken + [log.queued[0]], queued := log.queued[1..]);
      }
    }

    /** The main thread handles the oldest event of a finished frame: it pops the frame and hands the payload to the session. */
    method ProcRecv()
      requires Valid() && events != [] && events[0].Recv? && HEADER <= events[0].len
      modifies this`events, this`closed, this`delivered, this`log, this`skipped
      modifies ring`outCur, ring`free, ring`loop
      ensures Valid() && log.stream == old(log.stream)
      ensures ring.Contents() == if Poppable(old(events[0].len), recvSize, old(ring.Contents()))
                                 then old(ring.Contents())[old(events[0].len)..] else old(ring.Contents())
      ensures delivered == if Poppable(old(events[0].len), recvSize, old(ring.Contents()))
                           then old(delivered) + [old(ring.Contents())[HEADER..old(events[0].len)]] else old(delivered)
      ensures events == old(events[1..]) + (if old(events[0].len) > recvSize then [Error] else [])
      ensures skipped == (old(skipped) || old(events[0].len) > recvSize)
      ensures !skipped ==> log.taken + log.queued == old(log.taken + log.queued) && |log.taken| == old(|log.taken|) + 1
    {
      hide Valid, LoopBuff.Valid, LoopBuff.Contents, LoopBuff.Unmarked, LoopBuff.MarksOk;
      var len := events[0].len;
      if recvSize < len {
        Skip();
      } else {
        Pop(len);
      }
    }
  }

  /** The main thread pops a frame of `len` bytes: it fits the session's buffer and the ring holds that many bytes. */
  predicate Poppable(len: nat, size: nat, contents: seq<byte>)
    ensures Poppable(len, size, contents) ==> len <= |contents|
  {
    len <= size && 0 < len <= |contents|
  }
}
