/**
 A reliable UDP socket: two sliding windows with their buffer pools and two byte
 rings, proved against the 8-bit model of `UdpWindow`.
 */
module UdpSocket {
  import opened Options
  import opened Bytes
  import opened LoopBuffer
  import opened UdpWindow
  import opened UdpPool
  import opened UdpBuffers
  import opened UdpTransfer
  import opened UdpProtocol

  const CLOSED: byte := 5

  /** The windows hold what the model says; `extra` is the receive buffer being filled. */
  ghost predicate InStep(m: Sock, sw: Window, sf: seq<byte>, rw: Window, rf: seq<byte>, extra: multiset<byte>)
  {
    && Sized(m) && sw.begin == m.sb && rw.begin == m.rb
    && SendOk(sw, sf, m.flight) && RecvOk(rw, rf, m.slots, extra)
  }

  // ---------------------------------------------------------------- one arriving datagram

  /** A receive buffer is taken for the datagram and filled with its first 512 bytes. */
  method TakeBuffer(w: Window, ghost c: seq<byte>, ghost m: Sock, d: seq<byte>) returns (r: Window, id: byte, ghost c': seq<byte>)
    requires Sized(m) && w.begin == m.rb && RecvOk(w, c, m.slots, multiset{}) && AtRest(m) && |d| <= BUFFER
    ensures RecvOk(r, c', m.slots, multiset{id}) && r.begin == w.begin
    ensures id < 32 && |r.pool| == 32 && |r.pool[id]| == BUFFER && r.pool[id][..|d|] == d
  {
    RecvAllocate(w, c, m.slots, Slot(m.rb));
    hide RecvOk, Slot;
    id := w.freeId;
    r := Allocated(w);
    c' := c[1..];
    RecvShape(r, c', m.slots, multiset{id});
    var b := d + r.pool[id][|d|..];
    RecvWrite(r, c', m.slots, id, b);
    r := r.(pool := r.pool[id := b]);
  }

  lemma RecvShape(w: Window, c: seq<byte>, slots: seq<Option<Data>>, extra: multiset<byte>)
    requires RecvOk(w, c, slots, extra)
    ensures Shaped(w) && w.end == Add8(w.begin, 32) && |slots| == 32
    ensures forall j :: 0 <= j < 32 ==> (w.bufId[j] < 32 <==> slots[j].Some?)
  {
    hide PoolOk;
    forall j | 0 <= j < 32 ensures w.bufId[j] < 32 <==> slots[j].Some? {
      assert SlotHolds(w, j, slots[j]);
    }
  }

  /** The filled buffer goes into its slot when the number is wanted, and back to the pool otherwise. */
  method Store(w: Window, ghost c: seq<byte>, ghost m: Sock, id: byte, syn: byte, size: nat)
    returns (r: Window, ghost c': seq<byte>, received: bool)
    requires Sized(m) && w.begin == m.rb && RecvOk(w, c, m.slots, multiset{id}) && HEADER <= size <= BUFFER
    ensures id < 32 && |w.pool| == 32 && |w.pool[id]| == BUFFER
    ensures received == Accepts(m, syn)
    ensures r.begin == w.begin && RecvOk(r, c', Stored(m, syn, w.pool[id][HEADER..size]).slots, multiset{})
  {
    RecvShape(w, c, m.slots, multiset{id});
    RecvFree(w, c, m.slots, id);
    hide RecvOk, Add8, IsValidIndex, Slot;
    r, c' := w, c;
    received := false;
    if IsValidIndex(w.begin, w.end, syn) {
      var j := Slot(syn);
      if w.bufId[j] >= 32 {
        RecvStore(w, c, m.slots, id, j, size);
        r := w.(bufId := w.bufId[j := id], size := w.size[j := size]);
        received := true;
      }
    }
    if !received {
      r := Freed(w, id);
      c' := [id] + c;
    }
  }

  /** What an established datagram leaves to deliver. */
  function Leaves(m: Sock, p: Packet): (t: Sock)
    requires Sized(m)
    ensures Sized(t)
  {
    Stored(Acked(m, p.ack), p.syn, p.data)
  }

  /** The front packet leaves the receive window. */
  lemma TakeFront(m: Sock, rw: Window, rf: seq<byte>)
    requires Sized(m) && rw.begin == m.rb && RecvOk(rw, rf, m.slots, multiset{}) && m.slots[Slot(m.rb)].Some?
    ensures Shaped(rw)
    ensures var j := Slot(rw.begin); var id, size := rw.bufId[j], rw.size[j];
            && id < 32 && rw.freeId <= 32 && HEADER <= size <= BUFFER
            && rw.pool[id][HEADER..size] == FrontData(m)
            && FrontTaken(rw).begin == Pop(m).rb
            && RecvOk(FrontTaken(rw), [id] + rf, Pop(m).slots, multiset{})
  {
    FrontTakenOk(rw, rf, m.slots);
    assert SlotHolds(rw, Slot(rw.begin), m.slots[Slot(rw.begin)]);
    hide RecvOk, Slot, Add8;
  }

  lemma NothingSent(w: Window, c: seq<byte>, w': Window)
    requires PoolOk(w, c, multiset{}) && w' == w.(begin := w'.begin, end := w'.begin)
    ensures SendOk(w', c, [])
  {
    PoolSame(w, w', c, multiset{});
    assert multiset(SendIds(w', 0)) == multiset{};
    hide PoolOk;
  }

  /** Fills free cells that lie in one stretch. */
  method Place(ring: LoopBuff, src: seq<byte>)
    requires ring.Valid() && |src| <= ring.InRoom()
    modifies ring, ring.buf
    ensures ring.Valid() && ring.buf == old(ring.buf) && ring.total == old(ring.total)
    ensures ring.Contents() == old(ring.Contents()) + src
    ensures |src| == old(ring.InRoom()) ==> ring.InRoom() == ring.free
  {
    hide LoopBuff.Contents, LoopBuff.MarksOk, LoopBuff.Staged;
    if |src| == 0 {
      assert ring.Contents() + src == ring.Contents();
      return;
    }
    ring.StoreFree(src);
    var done := ring.CostBuff(|src|);
  }

  /** Puts a payload into the ring, in two parts when it wraps; when it does not fit, only the first part goes in. */
  method Put(ring: LoopBuff, data: Data) returns (ok: bool, ghost part: nat)
    requires ring.Valid()
    modifies ring, ring.buf
    ensures ring.Valid() && ring.buf == old(ring.buf) && ring.total == old(ring.total)
    ensures ok <==> |data| <= old(ring.free)
    ensures part <= |data| && ring.Contents() == old(ring.Contents()) + if ok then data else data[..part]
  {
    hide LoopBuff.Contents, LoopBuff.MarksOk, LoopBuff.Staged, LoopBuff.Valid;
    ok, part := true, 0;
    ghost var c0 := ring.Contents();
    var p, room := ring.GetInCursorPtr();
    if |data| <= room {
      Place(ring, data);
    } else {
      Place(ring, data[..room]);
      part := room;
      var p2, n := ring.GetInCursorPtr();
      if n < |data| - room {
        return false, part;
      }
      Place(ring, data[room..]);
      assert c0 + data[..room] + data[room..] == c0 + data;
    }
  }

  /** `k` packets delivered: what is left in the window, and what the ring holds. */
  ghost predicate Delivering(t: Sock, w: Window, c: seq<byte>, k: nat, before: seq<byte>, now: seq<byte>)
  {
    && Sized(t) && k <= Ready(t, 32)
    && w.begin == Popped(t, k).rb && RecvOk(w, c, Popped(t, k).slots, multiset{})
    && now == before + Flatten(Fronts(t, k))
  }

  lemma DeliveryStarts(t: Sock, w: Window, c: seq<byte>, before: seq<byte>)
    requires Sized(t) && w.begin == t.rb && RecvOk(w, c, t.slots, multiset{})
    ensures Delivering(t, w, c, 0, before, before)
  {
    hide RecvOk;
    assert Popped(t, 0) == t && Fronts(t, 0) == [] && Flatten([]) == [];
    assert before + [] == before;
  }

  /** While a packet is ready, the window does not start behind the last ready one. */
  lemma DeliveryGuard(t: Sock, w: Window, c: seq<byte>, k: nat, before: seq<byte>, now: seq<byte>)
    requires Delivering(t, w, c, k, before, now)
    ensures w.begin == Add8(t.rb, Ready(t, 32)) <==> k == Ready(t, 32)
  {
    PoppedBegin(t, k);
    AddCase(t.rb, k);
    AddCase(t.rb, Ready(t, 32));
    hide RecvOk, Add8, Ready, Popped, Fronts;
  }

  lemma DeliveryStep(t: Sock, w: Window, c: seq<byte>, k: nat, before: seq<byte>, now: seq<byte>)
    requires Delivering(t, w, c, k, before, now) && k < Ready(t, 32)
    ensures Shaped(w)
    ensures var j := Slot(w.begin); var id, size := w.bufId[j], w.size[j];
            && id < 32 && w.freeId <= 32 && HEADER <= size <= BUFFER
            && w.pool[id][HEADER..size] == Fronts(t, k + 1)[k]
            && Delivering(t, FrontTaken(w), [id] + c, k + 1, before, now + w.pool[id][HEADER..size])
  {
    ReadyFront(t, 32, k);
    PoppedNext(t, k);
    TakeFront(Popped(t, k), w, c);
    FlattenSnoc(Fronts(t, k), FrontData(Popped(t, k)));
    hide RecvOk, FrontTaken, Slot, Flatten, Ready, Popped, Fronts, Pop, FrontData;
    Assoc(before, Flatten(Fronts(t, k)), FrontData(Popped(t, k)));
  }

  /** A packet that does not fit means that all together do not fit. */
  lemma DoesNotFit(t: Sock, k: nat, n: nat)
    requires Sized(t) && k < n
    ensures |Flatten(Fronts(t, k))| + |Fronts(t, k + 1)[k]| <= |Flatten(Fronts(t, n))|
  {
    PoppedNext(t, k);
    FlattenSnoc(Fronts(t, k), FrontData(Popped(t, k)));
    FrontsPrefix(t, k + 1, n);
    FlattenPrefix(Fronts(t, k + 1), Fronts(t, n));
    hide Flatten, Popped, Fronts, FrontData;
  }

  /** Moves the packets up to `last` into the ring, in order, freeing their buffers. */
  method Deliver(ring: LoopBuff, w: Window, ghost c: seq<byte>, ghost t: Sock, last: byte)
    returns (r: Window, ghost c': seq<byte>, ok: bool, any: bool, ghost whole: nat, ghost part: nat)
    requires ring.Valid() && Sized(t) && w.begin == t.rb && RecvOk(w, c, t.slots, multiset{})
    requires Add8(last, 1) == Add8(t.rb, Ready(t, 32))
    modifies ring, ring.buf
    ensures ring.Valid() && ring.buf == old(ring.buf) && ring.total == old(ring.total)
    ensures whole <= Ready(t, 32) && any == (whole > 0)
    ensures r.begin == Popped(t, whole).rb && RecvOk(r, c', Popped(t, whole).slots, multiset{})
    ensures ok <==> |Flatten(Fronts(t, Ready(t, 32)))| <= old(ring.free)
    ensures ok ==> whole == Ready(t, 32) && ring.Contents() == old(ring.Contents()) + Flatten(Fronts(t, whole))
    ensures !ok ==> whole < Ready(t, 32) && part <= |Fronts(t, whole + 1)[whole]|
    ensures !ok ==> ring.Contents() == old(ring.Contents()) + Flatten(Fronts(t, whole)) + Fronts(t, whole + 1)[whole][..part]
  {
    hide LoopBuff.Contents, LoopBuff.Valid, RecvOk, FrontTaken, Slot, Add8, Flatten, Ready, Popped, Fronts, Delivering;
    ghost var before := ring.Contents();
    r, c', ok, any, whole, part := w, c, true, false, 0, 0;
    DeliveryStarts(t, w, c, before);
    DeliveryGuard(t, w, c, 0, before, before);
    while r.begin != Add8(last, 1)
      invariant ring.Valid() && ring.buf == old(ring.buf) && ring.total == old(ring.total)
      invariant whole <= Ready(t, 32) && any == (whole > 0)
      invariant r.begin == Add8(last, 1) <==> whole == Ready(t, 32)
      invariant Delivering(t, r, c', whole, before, ring.Contents())
      decreases Ready(t, 32) - whole
    {
      DeliveryStep(t, r, c', whole, before, ring.Contents());
      var j := Slot(r.begin);
      var id := r.bufId[j];
      var data := r.pool[id][HEADER..r.size[j]];
      ghost var now := ring.Contents();
      DoesNotFit(t, whole, Ready(t, 32));
      ok, part := Put(ring, data);
      if !ok {
        DeliveryMeans(t, r, c', whole, before, now);
        return;
      }
      c' := [id] + c';
      r := FrontTaken(r);
      any, whole := true, whole + 1;
      DeliveryGuard(t, r, c', whole, before, ring.Contents());
    }
    DeliveryMeans(t, r, c', whole, before, ring.Contents());
  }

  lemma DeliveryMeans(t: Sock, w: Window, c: seq<byte>, k: nat, before: seq<byte>, now: seq<byte>)
    requires Delivering(t, w, c, k, before, now)
    ensures w.begin == Popped(t, k).rb && RecvOk(w, c, Popped(t, k).slots, multiset{})
    ensures now == before + Flatten(Fronts(t, k))
  {
    hide RecvOk, Flatten;
  }

  lemma AckFlight(m: Sock, ack: byte)
    requires Sized(m) && IsValidIndex(m.sb, SendEnd(m), ack)
    ensures Sub8(Add8(ack, 1), m.sb) == Sub8(ack, m.sb) + 1 <= |m.flight|
  {
    SendCount(m);
    SubCase(ack, m.sb);
    AddCase(ack, 1);
    SubCase(Add8(ack, 1), m.sb);
    hide Add8, Sub8;
  }

  /** Handles the acknowledgement a datagram carries. */
  method TakeAck(w: Window, ghost c: seq<byte>, ghost m: Sock, ack: byte) returns (r: Window, ghost c': seq<byte>)
    requires Sized(m) && w.begin == m.sb && SendOk(w, c, m.flight)
    ensures r.begin == Acked(m, ack).sb && SendOk(r, c', Acked(m, ack).flight)
  {
    SendEnds(w, c, m);
    hide SendOk, IsValidIndex, Add8, Sub8;
    r, c' := w, c;
    if IsValidIndex(w.begin, w.end, ack) {
      AckFlight(m, ack);
      r, c' := FreeUpTo(w, c, m.flight, ack);
    }
  }

  lemma SendEnds(w: Window, c: seq<byte>, m: Sock)
    requires SendOk(w, c, m.flight) && w.begin == m.sb
    ensures w.end == SendEnd(m)
  {
  }

  /** Without a new packet nothing is ready: the front slot is still empty. */
  lemma NothingReady(m: Sock, p: Packet)
    requires Sized(m) && AtRest(m) && !Accepts(Acked(m, p.ack), p.syn)
    ensures Ready(Leaves(m, p), 32) == 0
  {
    hide Add8, Sub8, IsValidIndex, Slot;
  }

  lemma ReadDatagram(d: seq<byte>, b: seq<byte>)
    requires HEADER <= |d| <= |b| && b[..|d|] == d
    ensures b[0] == d[0] && b[1] == Read(d).syn && b[2] == Read(d).ack && b[HEADER..|d|] == Read(d).data
  {
    assert b[HEADER..|d|] == b[..|d|][HEADER..];
    assert forall i :: 0 <= i < |d| ==> b[i] == b[..|d|][i];
  }

  /** What the socket keeps of a datagram. */
  function Cut(d: seq<byte>): (r: seq<byte>)
    ensures |r| <= BUFFER
  {
    if |d| <= BUFFER then d else d[..BUFFER]
  }

  lemma AckedSame(m: Sock, ack: byte)
    requires Sized(m)
    ensures Acked(m, ack).rb == m.rb && Acked(m, ack).slots == m.slots && Sized(Acked(m, ack))
  {
    hide Add8, Sub8, IsValidIndex;
  }

  lemma StoredSame(m: Sock, p: Packet)
    requires Sized(m)
    ensures var t := Stored(m, p.syn, p.data); Sized(t) && t.rb == m.rb && t.sb == m.sb && t.flight == m.flight
  {
    hide Accepts, Slot;
  }

  lemma PoppedSame(t: Sock, k: nat)
    requires Sized(t)
    ensures Sized(Popped(t, k)) && Popped(t, k).sb == t.sb && Popped(t, k).flight == t.flight
  {
    PoppedBegin(t, k);
  }

  lemma PoppedNone(t: Sock)
    requires Sized(t)
    ensures Popped(t, 0) == t && Fronts(t, 0) == [] && Flatten([]) == []
  {
  }

  lemma LastReadyOk(t: Sock, w: Window, c: seq<byte>)
    requires Sized(t) && w.begin == t.rb && RecvOk(w, c, t.slots, multiset{})
    ensures Shaped(w) && SameOccupied(w, t)
  {
    RecvShape(w, c, t.slots, multiset{});
    hide RecvOk;
  }

  lemma LastNext(t: Sock, last: byte)
    requires Sized(t)
    requires last == if Ready(t, 32) == 0 then Sub8(t.rb, 1) else Add8(t.rb, Ready(t, 32) - 1)
    ensures Add8(last, 1) == Add8(t.rb, Ready(t, 32))
  {
    hide *;
    if Ready(t, 32) == 0 {
      BackAndForth(t.rb);
    } else {
      OneFurther(t.rb, Ready(t, 32) - 1);
    }
  }

  lemma BackAndForth(b: byte)
    ensures Add8(Sub8(b, 1), 1) == Add8(b, 0)
  {
  }

  lemma OneFurther(b: byte, k: nat)
    ensures Add8(Add8(b, k), 1) == Add8(b, k + 1)
  {
    Numbers(b + k, 1);
  }

  /**
   What an arriving datagram does.  Too short, or in a state other than established: the socket closes.
   Otherwise it has the effect the model says; the bytes it releases go into the receive ring, which
   has `room` bytes free, and the socket closes exactly when they do not all fit.
   */
  ghost predicate Outcome(m: Sock, d: seq<byte>, room: nat, m': Sock, more: seq<byte>, closed: bool, any: bool, whole: nat, part: nat)
  {
    && Sized(m)
    && if |d| < HEADER || d[0] != ESTABLISHED then
         closed && !any && m' == m && more == []
       else if |Flatten(Released(m, Read(d)))| <= room then
         && !closed && m' == Received(m, Read(d)) && AtRest(m')
         && more == Flatten(Released(m, Read(d))) && any == (Released(m, Read(d)) != [])
       else
         var t := Leaves(m, Read(d));
         && closed && whole < Ready(t, 32) && part <= |Fronts(t, whole + 1)[whole]|
         && m' == Popped(t, whole) && more == Flatten(Fronts(t, whole)) + Fronts(t, whole + 1)[whole][..part]
  }

  /** The same in the socket's own fields. */
  lemma OutcomeFields(m: Sock, d: seq<byte>, room: nat, m': Sock, more: seq<byte>, closed: bool, any: bool, whole: nat, part: nat)
    requires Outcome(m, d, room, m', more, closed, any, whole, part)
    ensures |d| < 3 || d[0] != 4 ==> closed && m' == m && more == []
    ensures |d| >= 3 && d[0] == 4 ==> AckTaken(m, d[2], m')
    ensures !closed ==> |d| >= 3 && |m.slots| == 32 && |m'.slots| == 32 && exists ds :: SlotsTaken(m, d[1], d[3..], m', ds) && more == Flatten(ds)
  {
    if |d| >= 3 && d[0] == 4 {
      var p := Read(d);
      if !closed {
        hide Received, Released, SlotsTaken, AckTaken, Flatten;
        ReceivedFields(m, p);
      } else {
        AckedFields(m, p.ack);
        PoppedSame(Leaves(m, p), whole);
        StoredSame(Acked(m, p.ack), p);
        hide Acked, Popped, Stored, Received, Released, Flatten, Fronts, Ready, AckTaken;
        AckSame(m, p.ack, Acked(m, p.ack), m');
      }
    }
  }

  /** The windows and the ring take a datagram that is long enough; buffer `id` holds it. */
  method Process(ring: LoopBuff, sw: Window, ghost sf: seq<byte>, rw: Window, ghost rf: seq<byte>, ghost m: Sock, id: byte, d: seq<byte>)
    returns (sw': Window, ghost sf': seq<byte>, rw': Window, ghost rf': seq<byte>, ghost m': Sock, ghost more: seq<byte>, ok: bool, any: bool, ghost whole: nat, ghost part: nat)
    requires ring.Valid() && InStep(m, sw, sf, rw, rf, multiset{id}) && AtRest(m)
    requires HEADER <= |d| <= BUFFER && id < 32 && |rw.pool| == 32 && |rw.pool[id]| == BUFFER && rw.pool[id][..|d|] == d && d[0] == ESTABLISHED
    modifies ring, ring.buf
    ensures ring.Valid() && ring.buf == old(ring.buf) && ring.total == old(ring.total)
    ensures InStep(m', sw', sf', rw', rf', multiset{})
    ensures ring.Contents() == old(ring.Contents()) + more
    ensures Outcome(m, d, old(ring.free), m', more, !ok, any, whole, part)
  {
    hide RecvOk, SendOk, Slot, LoopBuff.Contents, LoopBuff.Valid, Acked, Stored, Accepts, Popped, Fronts, Ready, Flatten, Add8, Sub8, Read;
    ok, any, whole, part := true, false, 0, 0;
    var b := rw.pool[id];
    ReadDatagram(d, b);
    ghost var p := Read(d);
    sw', sf' := TakeAck(sw, sf, m, b[2]);
    AckedSame(m, p.ack);
    var received;
    rw', rf', received := Store(rw, rf, Acked(m, p.ack), id, b[1], |d|);
    ghost var t := Leaves(m, p);
    StoredSame(Acked(m, p.ack), p);
    ReceivedAtRest(m, p);
    if received {
      LastReadyOk(t, rw', rf');
      var last := LastReady(rw', Sub8(rw'.begin, 1), t);
      LastNext(t, last);
      rw', rf', ok, any, whole, part := Deliver(ring, rw', rf', t, last);
    } else {
      NothingReady(m, p);
      PoppedNone(t);
      assert ring.Contents() + [] == ring.Contents();
    }
    m' := Popped(t, whole);
    more := Flatten(Fronts(t, whole)) + if ok then [] else Fronts(t, whole + 1)[whole][..part];
    PoppedSame(t, whole);
    assert Flatten(Fronts(t, whole)) + [] == Flatten(Fronts(t, whole));
    assert ok || old(ring.Contents()) + Flatten(Fronts(t, whole)) + Fronts(t, whole + 1)[whole][..part] == old(ring.Contents()) + more;
  }

  /** The windows and the ring take any datagram. */
  method Handle(ring: LoopBuff, sw: Window, ghost sf: seq<byte>, rw: Window, ghost rf: seq<byte>, ghost m: Sock, d: seq<byte>)
    returns (sw': Window, ghost sf': seq<byte>, rw': Window, ghost rf': seq<byte>, ghost m': Sock, ghost more: seq<byte>, ok: bool, any: bool, ghost whole: nat, ghost part: nat)
    requires ring.Valid() && InStep(m, sw, sf, rw, rf, multiset{}) && AtRest(m) && |d| <= BUFFER
    modifies ring, ring.buf
    ensures ring.Valid() && ring.buf == old(ring.buf) && ring.total == old(ring.total)
    ensures ring.Contents() == old(ring.Contents()) + more
    ensures |d| >= HEADER && d[0] == ESTABLISHED ==> InStep(m', sw', sf', rw', rf', multiset{})
    ensures ok ==> InStep(m', sw', sf', rw', rf', multiset{}) && AtRest(m')
    ensures Outcome(m, d, old(ring.free), m', more, !ok, any, whole, part)
  {
    hide RecvOk, SendOk, Slot, LoopBuff.Contents, LoopBuff.Valid, Received, Released, Popped, Fronts, Ready, Flatten, Read, Leaves;
    var empty := ring.IsEmpty();
    if empty {
      ring.Clear();
    }
    var v, id, vf := TakeBuffer(rw, rf, m, d);
    if |d| < HEADER || d[0] != ESTABLISHED {
      assert ring.Contents() + [] == ring.Contents();
      return sw, sf, v, vf, m, [], false, false, 0, 0;
    }
    sw', sf', rw', rf', m', more, ok, any, whole, part := Process(ring, sw, sf, v, vf, m, id, d);
  }

  // ---------------------------------------------------------------- sending

  /** The payloads numbered from the `run` bytes the ring offers; an empty one when nothing at all is in flight. */
  function Numbered(m: Sock, run: seq<byte>, control: real, probe: bool): (ps: seq<Data>)
    requires Sized(m)
    ensures |m.flight + ps| <= WINDOW
  {
    var ps := Fills(run, m.sb, SendEnd(m), 32 - |m.flight|, control);
    if m.flight + ps == [] && probe then [[]] else ps
  }

  /** What goes to the socket: the packets that are due, or else the acknowledgement that is owed. */
  function Plan(m: Sock, control: real, due: seq<bool>, force: bool, owed: bool): (out: seq<seq<byte>>)
    requires |due| == 32
  {
    var out := Transmission(m, 0, control, due, force);
    if out == [] && owed then [Bits(PureAck(m))] else out
  }

  /** What gets numbered: pieces as long as one can be numbered; only if that leaves nothing in flight, an empty one when probing. */
  lemma NumberedMeans(m: Sock, run: seq<byte>, control: real, probe: bool)
    requires Sized(m)
    ensures var ps, end, room := Numbered(m, run, control, probe), (m.sb + |m.flight|) % 256, 32 - |m.flight|;
            if m.flight == [] && !Numberable(run, m.sb, m.sb, 32, control, 0) then ps == if probe then [[]] else []
            else
              && (forall i :: 0 <= i < |ps| ==> Numberable(run, m.sb, end, room, control, i) && ps[i] == Stretch(run, i))
              && !Numberable(run, m.sb, end, room, control, |ps|)
  {
    FillsMeans(run, m.sb, SendEnd(m), 32 - |m.flight|, control);
    assert SendEnd(m) == (m.sb + |m.flight|) % 256;
    assert m.flight == [] ==> SendEnd(m) == m.sb;
    hide Fills, Numberable, Stretch;
  }

  /** What is planned to go out: the packets that are due, or, when there are none, the acknowledgement that is owed. */
  lemma PlanMeans(m: Sock, control: real, due: seq<bool>, force: bool, owed: bool) returns (idx: seq<nat>)
    requires |due| == 32
    ensures var out := Plan(m, control, due, force, owed);
            if idx == [] && owed then out == [[4, (m.sb - 1) % 256, (m.rb - 1) % 256]]
            else SendsAll(m, 0, control, due, force, idx, out)
    ensures forall i: nat :: i in idx <==> i < |m.flight| && WithinReach(m, 0, i, control) && IsDue(m, 0, i, due, force)
  {
    idx := TransmissionMeans(m, 0, control, due, force);
    assert PureAck(m) == Packet(true, (m.sb - 1) % 256, (m.rb - 1) % 256, []);
    assert Bits(PureAck(m)) == [4, (m.sb - 1) % 256, (m.rb - 1) % 256];
    hide Transmission, WithinReach, IsDue, OnWire;
  }

  /** An empty packet keeps a silent connection alive. */
  method AddProbe(w: Window, ghost c: seq<byte>, ack: byte) returns (r: Window, ghost c': seq<byte>)
    requires SendOk(w, c, [])
    ensures r.begin == w.begin && SendOk(r, c', [[]])
  {
    RoomFacts(w, c, []);
    hide SendOk, Appended, Packed;
    var b := Packed(w.pool[w.freeId], w.end, ack, []);
    AppendedNext(w, c, [], b, []);
    ghost var none: seq<Data> := [];
    assert none + [[]] == [[]];
    r := Appended(w, b, HEADER);
    c' := c[1..];
  }

  /** Numbers new packets from what the ring offers. */
  method Refill(ring: LoopBuff, w: Window, ghost c: seq<byte>, ghost m: Sock, ack: byte, control: real, probe: bool)
    returns (r: Window, ghost c': seq<byte>, ghost ps: seq<Data>)
    requires ring.Valid() && Sized(m) && w.begin == m.sb && SendOk(w, c, m.flight)
    modifies ring
    ensures ring.Valid() && ring.buf == old(ring.buf) && ring.buf[..] == old(ring.buf[..])
    ensures ps == Numbered(m, old(ring.Contents()[..ring.OutRun()]), control, probe)
    ensures r.begin == m.sb && SendOk(r, c', m.flight + ps)
    ensures old(ring.Contents()) == Flatten(ps) + ring.Contents()
  {
    hide LoopBuff.Contents, LoopBuff.Valid, SendOk, Fills, Flatten;
    var p, n := ring.GetOutCursorPtr();
    var run := if n == 0 then [] else ring.buf[p..p + n];
    ghost var all := ring.Contents();
    assert run == all[..ring.OutRun()];
    SendEnds(w, c, m);
    var used;
    r, c', used := FillWindow(w, c, m.flight, run, ack, control);
    ps := Fills(run, m.sb, SendEnd(m), 32 - |m.flight|, control);
    if used > 0 {
      var done := ring.DiscardBuff(used);
    }
    assert all == all[..used] + all[used..] && all[..used] == run[..used];
    FlattenEmpties();
    WindowEnds(r, c', m.flight + ps, 0);
    if r.begin == r.end {
      if probe {
        assert m.flight + ps == [];
        r, c' := AddProbe(r, c', ack);
        ps := [[]];
        assert m.flight + ps == [[]];
      }
    }
  }

  /** Transmits what is due, and the acknowledgement that is still owed after that. */
  method SendOut(w: Window, ghost c: seq<byte>, ghost m: Sock, ack: byte, control: real, due: seq<bool>, force: bool, owed: bool,
                 sends: nat, again: bool)
    returns (r: Window, ok: bool, out: seq<seq<byte>>, owed': bool)
    requires SendOk(w, c, m.flight) && m.sb == w.begin && ack == Sub8(m.rb, 1) && |due| == 32
    ensures r.begin == w.begin && SendOk(r, c, m.flight) && owed' == (owed && out == [])
    ensures var plan := Plan(m, control, due, force, owed);
            && |out| == (if sends < |plan| then sends else |plan|) && out == plan[..|out|]
            && (ok <==> |out| == |plan| || again)
  {
    hide SendOk, Transmission, Sub8;
    var refused;
    r, out, refused := Transmit(w, c, m, ack, control, due, force, sends);
    owed' := owed && out == [];
    if refused {
      return r, again, out, owed';
    }
    ok := true;
    if owed' {
      if sends == 0 {
        return r, again, out, owed';
      }
      out := [[ESTABLISHED, Sub8(r.begin, 1), ack]];
      assert out[0] == Bits(PureAck(m));
      owed' := false;
    }
  }

  lemma FlattenEmpties()
    ensures Flatten([]) == [] && Flatten([[]]) == []
  {
  }

  // ---------------------------------------------------------------- handshake

  function NoSlots(): (s: seq<Option<Data>>)
    ensures |s| == 32
  {
    seq(32, _ => None)
  }

  /** Every slot is one of the 32 from any position on. */
  lemma SlotHit(b: byte, j: nat) returns (k: nat)
    requires j < 32
    ensures k < 32 && Slot(b + k) == j
  {
    k := (j - b) % 32;
    assert (b + k) % 32 == j;
  }

  /** Empties the slots of a receive window. */
  method ClearSlots(w: Window, ghost c: seq<byte>) returns (r: Window)
    requires PoolOk(w, c, multiset{}) && w.end == Add8(w.begin, 32)
    ensures r.begin == w.begin && RecvOk(r, c, NoSlots(), multiset{})
  {
    r := w;
    assert Shaped(w);
    hide Slot, Add8, PoolOk;
    ghost var k := 0;
    var i := w.begin;
    RingEnd(w.begin, 0);
    while i != w.end
      invariant k <= 32 && i == Add8(w.begin, k) && (k == 32 <==> i == w.end)
      invariant Shaped(r) && r == w.(bufId := r.bufId, size := r.size)
      invariant forall l :: 0 <= l < k ==> At(r, l) == 32
      decreases 32 - k
    {
      var j := i % 32;
      SlotOf(w.begin, k);
      ClearedOne(r, j, k);
      r := r.(bufId := r.bufId[j := 32], size := r.size[j := 0]);
      RingEnd(w.begin, k);
      i := Add8(i, 1);
      k := k + 1;
    }
    forall j | 0 <= j < 32 ensures r.bufId[j] == 32 {
      var l := SlotHit(w.begin, j);
      assert At(r, l) == 32;
    }
    HeldNone(r.bufId);
    hide HeldIn;
    assert HeldIn(r.bufId) + multiset{} == multiset{};
    PoolSame(w, r, c, multiset{});
  }

  lemma ClearedOne(w: Window, j: nat, k: nat)
    requires Shaped(w) && j == Slot(w.begin + k) && forall l :: 0 <= l < k ==> At(w, l) == 32
    ensures var r := w.(bufId := w.bufId[j := 32], size := w.size[j := 0]);
            Shaped(r) && forall l :: 0 <= l < k + 1 ==> At(r, l) == 32
  {
    var r := w.(bufId := w.bufId[j := 32], size := w.size[j := 0]);
    hide Slot;
    forall l | 0 <= l < k + 1 ensures At(r, l) == 32 {
      assert l < k ==> At(w, l) == 32;
    }
  }

  /** Takes the packets up to `last` out of the window; a handshake packet carries no data. */
  method TakeOut(w: Window, ghost c: seq<byte>, ghost t: Sock, last: byte) returns (r: Window, ghost c': seq<byte>)
    requires Sized(t) && w.begin == t.rb && RecvOk(w, c, t.slots, multiset{})
    requires Add8(last, 1) == Add8(t.rb, Ready(t, 32))
    ensures r.begin == Popped(t, Ready(t, 32)).rb && RecvOk(r, c', Popped(t, Ready(t, 32)).slots, multiset{})
  {
    hide RecvOk, FrontTaken, Slot, Add8, Ready, Popped, Fronts, Delivering;
    r, c' := w, c;
    ghost var k, now := 0, [];
    DeliveryStarts(t, w, c, []);
    DeliveryGuard(t, w, c, 0, [], []);
    while r.begin != Add8(last, 1)
      invariant k <= Ready(t, 32) && (r.begin == Add8(last, 1) <==> k == Ready(t, 32))
      invariant Delivering(t, r, c', k, [], now)
      decreases Ready(t, 32) - k
    {
      DeliveryStep(t, r, c', k, [], now);
      var j := Slot(r.begin);
      var id := r.bufId[j];
      now := now + r.pool[id][HEADER..r.size[j]];
      c' := [id] + c';
      r := FrontTaken(r);
      k := k + 1;
      DeliveryGuard(t, r, c', k, [], now);
    }
    DeliveryMeans(t, r, c', k, [], now);
  }

  /** The peer's first packet, number 1, goes through the empty window. */
  method TakeFirst(w: Window, ghost c: seq<byte>, id: byte, start: byte) returns (r: Window, ghost c': seq<byte>)
    requires w.begin == 1 && start == 0 && RecvOk(w, c, NoSlots(), multiset{id})
    ensures r.begin == 2 && RecvOk(r, c', NoSlots(), multiset{})
  {
    hide RecvOk, SameOccupied, Slot;
    ghost var m := Sock(1, [], 1, NoSlots());
    var received;
    r, c', received := Store(w, c, m, id, 1, HEADER);
    assert w.pool[id][HEADER..HEADER] == [];
    FirstModel();
    ghost var t := Stored(m, 1, []);
    LastReadyOk(t, r, c');
    var last := LastReady(r, start, t);
    LastNext(t, last);
    r, c' := TakeOut(r, c', t, last);
  }

  lemma FirstModel()
    ensures var t := Stored(Sock(1, [], 1, NoSlots()), 1, []);
            t.rb == 1 && Ready(t, 32) == 1 && Popped(t, 1).rb == 2 && Popped(t, 1).slots == NoSlots()
  {
    var t := Stored(Sock(1, [], 1, NoSlots()), 1, []);
    assert t == Sock(1, [], 1, NoSlots()[1 := Some([])]);
    ReadyScan(t, 32, 1);
    assert Popped(t, 1) == Popped(Pop(t), 0);
    assert Pop(t).slots == NoSlots();
  }

  /** The first packet of an end, number 1 and empty, enters its send window. */
  method AddFirst(w: Window, ghost c: seq<byte>, b: seq<byte>) returns (r: Window, ghost c': seq<byte>)
    requires SendOk(w, c, []) && |b| == BUFFER
    ensures r.begin == w.begin && SendOk(r, c', [[]])
  {
    hide SendOk, Appended;
    RoomFacts(w, c, []);
    ghost var none: seq<Data> := [];
    assert none + [[]] == [[]] && b[HEADER..HEADER + |none|] == [];
    AppendedNext(w, c, [], b, []);
    r := Appended(w, b, HEADER);
    c' := c[1..];
  }

  /** The header a datagram is read into; missing bytes keep what was there before. */
  function HeadOf(d: seq<byte>, was: seq<byte>): (h: seq<byte>)
    requires |was| == HEADER
    ensures |h| == HEADER
  {
    if |d| >= HEADER then d[..HEADER] else d + was[|d|..]
  }

  /** Windows before the handshake: empty, starting at 1, all buffers free, receive slots not yet cleared. */
  ghost predicate Unused(sw: Window, sf: seq<byte>, rw: Window, rf: seq<byte>)
  {
    && SendOk(sw, sf, []) && sw.begin == 1
    && PoolOk(rw, rf, multiset{}) && rw.begin == 1 && rw.end == 33
  }

  /** What both ends are after the handshake: one empty packet in flight, the peer's taken out of the window. */
  function Shaken(): Sock
  {
    Sock(1, [[]], 2, NoSlots())
  }

  lemma ShakenRests()
    ensures Sized(Shaken()) && AtRest(Shaken()) && Bits(PacketAt(Shaken(), 0)) == [ESTABLISHED, 1, 1]
  {
    assert Bits(PacketAt(Shaken(), 0)) == [ESTABLISHED, 1, 1] + [];
  }

  method AcceptWindows(sw: Window, ghost sf: seq<byte>, rw: Window, ghost rf: seq<byte>)
    returns (sw': Window, ghost sf': seq<byte>, rw': Window, ghost rf': seq<byte>, reply: seq<byte>)
    requires Unused(sw, sf, rw, rf)
    ensures InStep(Shaken(), sw', sf', rw', rf', multiset{}) && AtRest(Shaken()) && reply == Bits(PacketAt(Shaken(), 0)) == [ESTABLISHED, 1, 1]
  {
    rw' := ClearSlots(rw, rf);
    hide SendOk, RecvOk, PoolOk, Slot, AtRest, Sized;
    SizedRest(Sock(1, [], 1, NoSlots()));
    var id;
    rw', id, rf' := TakeBuffer(rw', rf, Sock(1, [], 1, NoSlots()), [CONNECTING, 1, 0]);
    rw', rf' := TakeFirst(rw', rf', id, Sub8(sw.begin, 1));
    ghost var none: seq<Data> := [];
    assert none[0..] == none;
    sw', sf' := FreeUpTo(sw, sf, none, 0);
    RoomFacts(sw', sf', none);
    var syn, ack := sw'.end, Sub8(rw'.begin, 1);
    var b := WithHeader(sw'.pool[sw'.freeId], ESTABLISHED, syn, ack);
    sw', sf' := AddFirst(sw', sf', b);
    reply := [ESTABLISHED, syn, ack];
    ShakenRests();
  }

  lemma SizedRest(m: Sock)
    requires m.slots == NoSlots() && |m.flight| <= 32
    ensures Sized(m) && AtRest(m)
  {
  }

  method ConnectWindows(sw: Window, ghost sf: seq<byte>, rw: Window, ghost rf: seq<byte>, answer: seq<byte>)
    returns (ok: bool, sw': Window, ghost sf': seq<byte>, rw': Window, ghost rf': seq<byte>, sent: seq<byte>)
    requires Unused(sw, sf, rw, rf)
    ensures sent == [CONNECTING, 1, 0]
    ensures |answer| >= HEADER ==> (ok <==> answer[..HEADER] == [ESTABLISHED, 1, 1])
    ensures ok ==> InStep(Shaken(), sw', sf', rw', rf', multiset{}) && AtRest(Shaken())
  {
    rw' := ClearSlots(rw, rf);
    hide SendOk, RecvOk, PoolOk, Slot, AtRest, Sized;
    SizedRest(Sock(1, [[]], 1, NoSlots()));
    RoomFacts(sw, sf, []);
    var syn, ack := sw.end, Sub8(rw.begin, 1);
    sent := [CONNECTING, syn, ack];
    sw', sf' := AddFirst(sw, sf, sw.pool[sw.freeId]);
    var h := if |answer| >= HEADER then answer[..HEADER] else answer;
    var id;
    rw', id, rf' := TakeBuffer(rw', rf, Sock(1, [[]], 1, NoSlots()), h);
    var b := rw'.pool[id];
    FirstThree(b, h);
    if b[2] != 1 || b[1] != 1 || b[0] != ESTABLISHED {
      return false, sw', sf', rw', rf', sent;
    }
    ghost var one: seq<Data> := [[]];
    assert one[0..] == one;
    sw', sf' := FreeUpTo(sw', sf', one, ack);
    rw', rf' := TakeFirst(rw', rf', id, Sub8(sw'.begin, 1));
    ok := true;
    ShakenRests();
  }

  lemma FirstThree(b: seq<byte>, h: seq<byte>)
    requires |h| <= HEADER <= |b| && b[..|h|] == h
    ensures |h| == HEADER ==> (h == [ESTABLISHED, 1, 1] <==> b[0] == ESTABLISHED && b[1] == 1 && b[2] == 1)
  {
    if |h| == HEADER {
      assert h == [b[0], b[1], b[2]];
    }
  }

  class UdpConnectSock {
    const sendRing: LoopBuff
    const recvRing: LoopBuff
    var sendWin: Window
    var recvWin: Window
    var state: byte
    var sendAck: bool              // an acknowledgement is owed
    ghost var model: Sock
    ghost var sendFree: seq<byte>  // the free lists, in order
    ghost var recvFree: seq<byte>

    ghost predicate Rings()
      reads this, sendRing, recvRing
    {
      && sendRing.Valid() && recvRing.Valid()
      && sendRing != recvRing && sendRing.buf != recvRing.buf
    }

    ghost predicate Valid()
      reads this, sendRing, recvRing
    {
      && Rings()
      && InStep(model, sendWin, sendFree, recvWin, recvFree, multiset{})
      && AtRest(model)
    }

    ghost predicate Initial()
      reads this, sendRing, recvRing
    {
      Rings() && Unused(sendWin, sendFree, recvWin, recvFree)
    }

    /** `w0` and `v0` are whatever the embedded windows held before. */
    constructor (sendSize: nat, recvSize: nat, w0: Window, v0: Window)
      requires 0 < sendSize && 0 < recvSize && Shaped(w0) && Shaped(v0)
      ensures Initial() && fresh(sendRing) && fresh(recvRing) && fresh(sendRing.buf) && fresh(recvRing.buf)
      ensures sendRing.Contents() == [] && recvRing.Contents() == []
    {
      var a := new LoopBuff(recvSize);
      var b := new LoopBuff(sendSize);
      var v, vf := ClearBuffer(v0);
      var w, wf := ClearBuffer(w0);
      sendRing, recvRing := b, a;
      state, sendAck := 0, false;
      sendWin, sendFree := w.(begin := 1, end := 1), wf;
      recvWin, recvFree := v.(begin := 1, end := Add8(1, 32)), vf;
      model := Sock(1, [], 1, []);
      new;
      NothingSent(w, wf, sendWin);
      PoolSame(v, recvWin, vf, multiset{});
      hide PoolOk, SendOk, LoopBuff.Contents;
    }

    /** Free bytes in the receive ring. */
    ghost function Room(): nat
      reads recvRing
      requires recvRing.Valid()
    {
      recvRing.free
    }

    /** A datagram arrives. */
    method OnRecv(datagram: seq<byte>) returns (ghost more: seq<byte>, any: bool, ghost whole: nat, ghost part: nat)
      requires Valid() && state == ESTABLISHED
      modifies this, recvRing, recvRing.buf
      ensures Rings() && recvRing.buf == old(recvRing.buf) && recvRing.total == old(recvRing.total)
      ensures state == ESTABLISHED || state == CLOSED
      ensures state == ESTABLISHED ==> Valid()
      ensures sendRing.Contents() == old(sendRing.Contents())
      ensures recvRing.Contents() == old(recvRing.Contents()) + more
      ensures sendAck == (old(sendAck) || any)
      ensures Outcome(old(model), Cut(datagram), old(recvRing.free), model, more, state == CLOSED, any, whole, part)
      ensures |datagram| < 3 || datagram[0] != 4 ==> state == CLOSED && model == old(model) && more == []
      ensures |datagram| >= 3 && datagram[0] == 4 ==> AckTaken(old(model), datagram[2], model)
      ensures state == ESTABLISHED ==>
        && |datagram| >= 3 && |old(model).slots| == 32 && |model.slots| == 32
        && exists ds :: SlotsTaken(old(model), datagram[1], Cut(datagram)[3..], model, ds) && more == Flatten(ds)
    {
      hide LoopBuff.Contents, LoopBuff.Valid, InStep, AtRest, Outcome, Cut, AckTaken, SlotsTaken, Flatten;
      var d, ok := Cut(datagram), true;
      CutFront(datagram);
      sendWin, sendFree, recvWin, recvFree, model, more, ok, any, whole, part :=
        Handle(recvRing, sendWin, sendFree, recvWin, recvFree, model, d);
      OutcomeFields(old(model), d, old(recvRing.free), model, more, !ok, any, whole, part);
      sendAck := sendAck || any;
      if !ok {
        state := CLOSED;
      }
    }

    /**
     New packets are numbered, due ones transmitted.  `sends` datagrams are taken by the network before
     it refuses one, with `again` for a refusal that is no error; clock and congestion control decide
     `control`, `probe`, `due` and `force`.
     */
    method PostSend(control: real, probe: bool, due: seq<bool>, force: bool, sends: nat, again: bool)
      returns (ok: bool, out: seq<seq<byte>>)
      requires Valid() && state == ESTABLISHED && |due| == 32
      modifies this, sendRing
      ensures Valid() && state == ESTABLISHED
      ensures recvWin == old(recvWin) && recvRing.Contents() == old(recvRing.Contents())
      ensures var ps := Numbered(old(model), old(sendRing.Contents()[..sendRing.OutRun()]), control, probe);
              && model == old(model).(flight := old(model).flight + ps)
              && old(sendRing.Contents()) == Flatten(ps) + sendRing.Contents()
      ensures var plan := Plan(model, control, due, force, old(sendAck));
              && |out| == (if sends < |plan| then sends else |plan|) && out == plan[..|out|]
              && (ok <==> |out| == |plan| || again)
      ensures sendAck == (old(sendAck) && out == [])
    {
      hide LoopBuff.Contents, LoopBuff.Valid, SendOk, RecvOk, Numbered, Plan, Sub8, Flatten, Slot, LoopBuff.OutRun;
      var ack := Sub8(recvWin.begin, 1);
      ghost var ps;
      sendWin, sendFree, ps := Refill(sendRing, sendWin, sendFree, model, ack, control, probe);
      model := model.(flight := model.flight + ps);
      sendWin, ok, out, sendAck := SendOut(sendWin, sendFree, model, ack, control, due, force, sendAck, sends, again);
    }

    /**
     The listening side: a first datagram with state connecting, number 1 and acknowledgement 0 opens
     the connection and is answered by packet 1, acknowledging packet 1.
     */
    method Accept(datagram: seq<byte>) returns (ok: bool, reply: seq<byte>)
      requires Initial() && datagram != []
      modifies this
      ensures Rings()
      ensures ok <==> HeadOf(datagram, [255, 255, 255]) == [CONNECTING, 1, 0]
      ensures !ok ==> Initial() && state == old(state) && reply == []
      ensures ok ==> Valid() && model == Shaken() && state == ESTABLISHED && sendAck && reply == Bits(PacketAt(model, 0)) == [ESTABLISHED, 1, 1]
    {
      hide LoopBuff.Valid, Unused, InStep, HeadOf, AtRest;
      var h := HeadOf(datagram, [255, 255, 255]);
      if h[2] != 0 || h[1] != 1 || h[0] != CONNECTING {
        return false, [];
      }
      state := ESTABLISHED;
      sendWin, sendFree, recvWin, recvFree, reply := AcceptWindows(sendWin, sendFree, recvWin, recvFree);
      sendAck := true;
      model := Shaken();
      ok := true;
    }

    /**
     The calling side: its packet 1 goes out with state connecting, and the answer must be packet 1,
     acknowledging packet 1.  Nothing is freed for it: the loop that should do so compares with the
     acknowledgement of the packet it sent itself.
     */
    method Connect(answer: seq<byte>) returns (ok: bool, sent: seq<byte>)
      requires Initial()
      modifies this
      ensures Rings() && sent == [CONNECTING, 1, 0]
      ensures |answer| >= HEADER ==> (ok <==> answer[..HEADER] == [ESTABLISHED, 1, 1])
      ensures ok ==> Valid() && model == Shaken() && state == ESTABLISHED && sendAck == old(sendAck)
    {
      hide LoopBuff.Valid, Unused, InStep, AtRest;
      state := CONNECTING;
      ok, sendWin, sendFree, recvWin, recvFree, sent := ConnectWindows(sendWin, sendFree, recvWin, recvFree, answer);
      if ok {
        state := ESTABLISHED;
        model := Shaken();
      }
    }
  }

  lemma CutFront(d: seq<byte>)
    ensures (|Cut(d)| >= 3 <==> |d| >= 3) && (|d| >= 3 ==> Cut(d)[0] == d[0] && Cut(d)[1] == d[1] && Cut(d)[2] == d[2])
  {
  }

  /** The handshake leaves both ends in the state from which the protocol's runs start. */
  lemma ShakenConnected()
    ensures Shaken() == Connected().a.s == Connected().b.s
    ensures Read(Bits(PacketAt(Shaken(), 0))) == Wire(Dgram(true, 1, 1, []))
    ensures Connected().fromB == {Dgram(true, 1, 1, [])}
  {
    ShakenRests();
  }

  /**
   A socket that takes a datagram of its peer does what the protocol allows: it receives it, or, when
   the receive ring is full, closes after part of it.
   */
  lemma ReceiptRefines(e: End, m: Sock, d: Dgram, room: nat, m': Sock, more: seq<byte>, closed: bool, any: bool, whole: nat, part: nat)
    requires Agree(e, m) && !e.closed && d.established && Fresh(e, d) && d.ack < EndOf(e) && d.syn < e.rb + WINDOW
    requires Outcome(m, Bits(Wire(d)), room, m', more, closed, any, whole, part)
    ensures var act := if closed then Overflow(d, whole, part) else Receive(d);
            && Enabled(e, act, {d}) && m' == Act8(m, act)
            && ActU(e, act).put == e.put + more && ActU(e, act).closed == closed && Agree(ActU(e, act), m')
  {
    hide *;
    OutcomeCases(m, d, room, m', more, closed, any, whole, part);
    if closed {
      LeavesAgrees(e, m, d);
      OverflowRefines(e, m, d, whole, part);
      Assoc(e.put, Flatten(FrontsU(Kept(e, d), whole)), FrontsU(Kept(e, d), whole + 1)[whole][..part]);
    } else {
      ReceiveRefines(e, m, d);
    }
  }

  lemma OutcomeCases(m: Sock, d: Dgram, room: nat, m': Sock, more: seq<byte>, closed: bool, any: bool, whole: nat, part: nat)
    requires d.established && Outcome(m, Bits(Wire(d)), room, m', more, closed, any, whole, part)
    ensures Sized(m)
    ensures !closed ==> m' == Received(m, Wire(d)) && more == Flatten(Released(m, Wire(d)))
    ensures closed ==> var t := Leaves(m, Wire(d));
                       && whole < Ready(t, 32) && part <= |Fronts(t, whole + 1)[whole]| && m' == Popped(t, whole)
                       && more == Flatten(Fronts(t, whole)) + Fronts(t, whole + 1)[whole][..part]
  {
    ReadBits(Wire(d));
    assert Bits(Wire(d))[0] == ESTABLISHED;
    hide Leaves, Received, Released, Flatten, Bits, Read, Fronts, Popped, Ready;
  }

  lemma ReceiveRefines(e: End, m: Sock, d: Dgram)
    requires Agree(e, m) && !e.closed && d.established && Fresh(e, d) && d.ack < EndOf(e) && d.syn < e.rb + WINDOW
    ensures Sized(m)
    ensures Enabled(e, Receive(d), {d}) && Act8(m, Receive(d)) == Received(m, Wire(d))
    ensures !ActU(e, Receive(d)).closed && ActU(e, Receive(d)).put == e.put + Flatten(Released(m, Wire(d)))
    ensures Agree(ActU(e, Receive(d)), Received(m, Wire(d)))
  {
    ReceiveAgrees(e, m, d);
    ReceivedOpen(e, d);
    hide Agree, ReceivedU, ReleasedU, Received, Released, Flatten;
    AgreeSame(ReceivedU(e, d), ActU(e, Receive(d)), Received(m, Wire(d)));
  }

  lemma ReceivedOpen(e: End, d: Dgram)
    ensures ReceivedU(e, d).closed == e.closed
  {
    KeptPut(Kept(e, d), ReadyU(Kept(e, d), 32));
    hide PoppedU, ReadyU;
  }

  lemma LeavesAgrees(e: End, m: Sock, d: Dgram)
    requires Agree(e, m) && Fresh(e, d) && d.ack < EndOf(e) && d.syn < e.rb + WINDOW
    ensures Sized(m) && Agree(Kept(e, d), Leaves(m, Wire(d))) && Kept(e, d).put == e.put
  {
    AckAgrees(e, m, d.ack);
    StoreAgrees(AckedU(e, d.ack), Acked(m, d.ack % 256), d.syn, d.data);
    hide Agree, Acked, Stored;
  }

  lemma OverflowRefines(e: End, m: Sock, d: Dgram, whole: nat, part: nat)
    requires Sized(m) && Agree(Kept(e, d), Leaves(m, Wire(d))) && d.established && Fresh(e, d) && !e.closed
    requires var t := Leaves(m, Wire(d)); whole < Ready(t, 32) && part <= |Fronts(t, whole + 1)[whole]|
    ensures var t, act := Leaves(m, Wire(d)), Overflow(d, whole, part);
            && Enabled(e, act, {d}) && Popped(t, whole) == Act8(m, act) && ActU(e, act).closed
            && Fronts(t, whole) == FrontsU(Kept(e, d), whole) && Fronts(t, whole + 1) == FrontsU(Kept(e, d), whole + 1)
            && Agree(ActU(e, act), Popped(t, whole))
            && ActU(e, act).put == Kept(e, d).put + Flatten(Fronts(t, whole)) + Fronts(t, whole + 1)[whole][..part]
  {
    var t, t8 := Kept(e, d), Leaves(m, Wire(d));
    ReadyAgrees(t, t8, 32);
    PoppedAgrees(t, t8, whole);
    PoppedAgrees(t, t8, whole + 1);
    hide Ready, ReadyU, FrontsU, Fronts;
    KeptPut(t, whole);
    hide PoppedU, Popped, Flatten, AckedU, StoredU, Kept;
    AgreeSame(PoppedU(t, whole), ActU(e, Overflow(d, whole, part)), Popped(t8, whole));
  }

  lemma {:induction false} KeptPut(e: End, k: nat)
    ensures PoppedU(e, k).put == e.put && PoppedU(e, k).closed == e.closed
    decreases k
  {
    if k > 0 {
      KeptPut(PopU(e), k - 1);
    }
  }

  /** Numbering and transmitting are steps the protocol allows: a fill, then datagrams of this end only. */
  lemma SendingRefines(e: End, m: Sock, run: seq<byte>, control: real, probe: bool, due: seq<bool>, force: bool, owed: bool, x: nat)
    requires Agree(e, m) && 1 <= e.rb && !e.closed && |due| == 32
    ensures var ps := Numbered(m, run, control, probe);
            var e', m' := ActU(e, Fill(ps)), Act8(m, Fill(ps));
            && Enabled(e, Fill(ps), {}) && m' == m.(flight := m.flight + ps) && Agree(e', m')
            && var plan := Plan(m', control, due, force, owed);
               x < |plan| ==> plan[x] == Bits(Wire(PureAckU(e'))) ||
                              exists n :: e'.sb <= n < EndOf(e') && plan[x] == Bits(Wire(DgramAt(e', n)))
  {
    var ps := Numbered(m, run, control, probe);
    var e', m' := ActU(e, Fill(ps)), Act8(m, Fill(ps));
    FillAgrees(e, m, ps);
    var plan := Plan(m', control, due, force, owed);
    hide Numbered, Bits, SlotsAgree;
    SendAgrees(e', m', 0);
    if x < |Transmission(m', 0, control, due, force)| {
      var i := TransmissionSound(m', 0, control, due, force, x);
      SendAgrees(e', m', i);
      assert e'.sb <= e'.sb + i < EndOf(e');
      assert plan[x] == Bits(Wire(DgramAt(e', e'.sb + i)));
    }
  }

  lemma FillAgrees(e: End, m: Sock, ps: seq<Data>)
    requires Agree(e, m) && |m.flight + ps| <= WINDOW
    ensures Agree(ActU(e, Fill(ps)), Act8(m, Fill(ps)))
  {
    var u := ActU(e, Fill(ps));
    assert u.log[u.sb - 1..] == e.log[e.sb - 1..] + ps;
  }
}
