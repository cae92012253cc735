/**
 The loops over the sliding windows: numbering new packets, transmitting the ones
 that are due, freeing acknowledged ones, and finding what can be delivered.
 Each works on the window it is given and is proved against the 8-bit model.
 */
module UdpTransfer {
  import opened Options
  import opened Bytes
  import opened UdpWindow
  import opened UdpPool
  import opened UdpBuffers

  const ESTABLISHED: byte := 4
  const CONNECTING: byte := 3

  /** Payload bytes that fit one buffer. */
  const PAYLOAD: nat := 509

  /** The bytes of a packet: state, number, acknowledgement, payload. */
  function Bits(p: Packet): seq<byte>
  {
    [if p.established then ESTABLISHED else CONNECTING, p.syn, p.ack] + p.data
  }

  /** What a datagram of at least three bytes says. */
  function Read(d: seq<byte>): Packet
    requires HEADER <= |d|
  {
    Packet(d[0] == ESTABLISHED, d[1], d[2], d[HEADER..])
  }

  lemma ReadBits(p: Packet)
    requires p.established
    ensures |Bits(p)| == HEADER + |p.data| && Read(Bits(p)) == p
  {
  }

  /** A buffer with a new header. */
  function WithHeader(b: seq<byte>, p: byte, syn: byte, ack: byte): (r: seq<byte>)
    requires HEADER <= |b|
    ensures |r| == |b| && r[HEADER..] == b[HEADER..]
  {
    [p, syn, ack] + b[HEADER..]
  }

  // ---------------------------------------------------------------- acknowledgements

  /** Frees every packet up to `ack`. */
  method FreeUpTo(w: Window, ghost c: seq<byte>, ghost flight: seq<Data>, ack: byte) returns (r: Window, ghost c': seq<byte>)
    requires SendOk(w, c, flight) && Sub8(Add8(ack, 1), w.begin) <= |flight|
    ensures r.begin == Add8(ack, 1)
    ensures SendOk(r, c', flight[Sub8(Add8(ack, 1), w.begin)..])
  {
    hide SendOk, At, FrontFreed, Add8, Sub8;
    r, c' := w, c;
    ghost var n, k := Sub8(Add8(ack, 1), w.begin), 0;
    SubIsZero(w.begin, Add8(ack, 1));
    while r.begin != Add8(ack, 1)
      invariant k <= n && r.begin == Add8(w.begin, k) && (k == n <==> r.begin == Add8(ack, 1))
      invariant SendOk(r, c', flight[k..])
      decreases n - k
    {
      FrontNext(r, c', flight[k..]);
      c' := [At(r, 0)] + c';
      assert flight[k..][1..] == flight[k + 1..];
      r := FrontFreed(r);
      StepsTo(w.begin, Add8(ack, 1), k);
      k := k + 1;
    }
  }

  lemma FrontNext(w: Window, c: seq<byte>, flight: seq<Data>)
    requires SendOk(w, c, flight) && flight != []
    ensures Shaped(w) && At(w, 0) < 32 && w.freeId <= 32
    ensures FrontFreed(w).begin == Add8(w.begin, 1)
    ensures SendOk(FrontFreed(w), [At(w, 0)] + c, flight[1..])
  {
    FrontFreedOk(w, c, flight);
  }

  lemma AddCase(a: byte, k: nat)
    requires k < 256
    ensures Add8(a, k) == if a + k < 256 then a + k else a + k - 256
  {
  }

  lemma SubCase(b: byte, a: byte)
    ensures Sub8(b, a) == if a <= b then b - a else b - a + 256
  {
  }

  lemma SubIsZero(a: byte, b: byte)
    ensures a == Add8(a, 0) && (Sub8(b, a) == 0 <==> a == b) && Sub8(b, a) >= 0
  {
    SubCase(b, a);
  }

  lemma StepsTo(a: byte, b: byte, k: nat)
    requires k < Sub8(b, a)
    ensures Add8(Add8(a, k), 1) == Add8(a, k + 1)
    ensures k + 1 == Sub8(b, a) <==> Add8(a, k + 1) == b
  {
    AddCase(a, k);
    AddCase(a, k + 1);
    AddCase(Add8(a, k), 1);
    SubCase(b, a);
    hide Add8, Sub8;
  }

  // ---------------------------------------------------------------- what can be delivered

  /** Slots and buffers agree on which numbers have arrived. */
  predicate SameOccupied(w: Window, s: Sock)
    requires Shaped(w) && Sized(s)
  {
    && s.rb == w.begin && w.end == Add8(w.begin, 32)
    && forall j :: 0 <= j < 32 ==> (w.bufId[j] < 32 <==> s.slots[j].Some?)
  }

  /** The slot of the k-th number of the receive window. */
  function SlotAt(s: Sock, k: nat): Option<Data>
    requires Sized(s)
  {
    s.slots[Slot(s.rb + k)]
  }

  lemma PopAt(s: Sock, k: nat)
    requires Sized(s) && k < 31
    ensures SlotAt(Pop(s), k) == SlotAt(s, k + 1)
  {
    SlotAdd(s.rb, 1, k);
    SlotApart(s.rb, k + 1);
    hide Slot, Add8;
  }

  lemma PopAts(s: Sock, n: nat)
    requires Sized(s) && n <= 31
    ensures forall k :: 0 <= k < n ==> SlotAt(Pop(s), k) == SlotAt(s, k + 1)
  {
    forall k | 0 <= k < n ensures SlotAt(Pop(s), k) == SlotAt(s, k + 1) {
      PopAt(s, k);
    }
  }

  /** Scanning from the front finds as many packets as popping one by one. */
  lemma {:induction false} ReadyScan(s: Sock, n: nat, k: nat)
    requires Sized(s) && k <= n <= 32
    requires forall j :: 0 <= j < k ==> SlotAt(s, j).Some?
    requires k < n ==> SlotAt(s, k).None?
    ensures Ready(s, n) == k
    decreases n
  {
    if k > 0 {
      PopAts(s, n - 1);
      forall j | 0 <= j < k - 1 ensures SlotAt(Pop(s), j).Some? {
        assert SlotAt(Pop(s), j) == SlotAt(s, j + 1);
      }
      hide Pop;
      ReadyScan(Pop(s), n - 1, k - 1);
      assert SlotAt(s, 0).Some?;
    } else if n > 0 {
      assert SlotAt(s, 0).None?;
    }
  }

  /** The last number that arrived without a gap, or `start` when the front one has not. */
  method LastReady(w: Window, start: byte, ghost s: Sock) returns (a: byte)
    requires Shaped(w) && Sized(s) && SameOccupied(w, s)
    ensures a == if Ready(s, 32) == 0 then start else Add8(w.begin, Ready(s, 32) - 1)
  {
    hide Slot, Add8, Ready;
    a := start;
    var i := w.begin;
    ghost var k := 0;
    RingEnd(w.begin, 0);
    while i != w.end
      invariant k <= 32 && i == Add8(w.begin, k) && (k == 32 <==> i == w.end)
      invariant forall j :: 0 <= j < k ==> SlotAt(s, j).Some?
      invariant a == if k == 0 then start else Add8(w.begin, k - 1)
      decreases 32 - k
    {
      SlotOf(w.begin, k);
      assert SlotAt(s, k) == s.slots[i % 32];
      if w.bufId[i % 32] >= 32 {
        break;
      }
      a := i;
      RingEnd(w.begin, k);
      i := Add8(i, 1);
      k := k + 1;
    }
    ReadyScan(s, 32, k);
  }

  lemma SlotOf(b: byte, k: nat)
    ensures Slot(b + k) == Add8(b, k) % 32
  {
    SlotAdd(b, k, 0);
  }

  lemma RingEnd(b: byte, k: nat)
    requires k <= 32
    ensures b == Add8(b, 0) && Add8(b, 0) != Add8(b, 32)
    ensures Add8(Add8(b, k), 1) == Add8(b, k + 1)
    ensures k + 1 == 32 <==> Add8(b, k + 1) == Add8(b, 32)
  {
    AddCase(b, k);
    AddCase(b, k + 1);
    AddCase(b, 32);
    AddCase(b, 0);
    AddCase(Add8(b, k), 1);
    hide Add8;
  }

  // ---------------------------------------------------------------- numbering new packets

  /**
   The payloads that get a number: pieces of `run`, each as long as a buffer allows, while a buffer
   is free and the window is not wider than `control`.  The width is a difference of two bytes taken
   in `int`: once the end has wrapped it is negative and stops nothing, so `room` is the only bound.
   */
  function Fills(run: seq<byte>, begin: byte, end: byte, room: nat, control: real): (ps: seq<Data>)
    ensures |ps| <= room
    decreases room
  {
    if room == 0 || run == [] || (end - begin) as real > control then []
    else
      var k := Piece(|run|);
      [run[..k]] + Fills(run[k..], begin, Add8(end, 1), room - 1, control)
  }

  function Piece(n: nat): (k: nat)
    ensures k <= n && k <= PAYLOAD && (0 < n ==> 0 < k)
  {
    if n < PAYLOAD then n else PAYLOAD
  }

  /** The pieces are a prefix of the bytes offered, none of them empty. */
  lemma {:induction false} FillsPrefix(run: seq<byte>, begin: byte, end: byte, room: nat, control: real)
    ensures Flatten(Fills(run, begin, end, room, control)) <= run
    ensures forall i :: 0 <= i < |Fills(run, begin, end, room, control)| ==> 0 < |Fills(run, begin, end, room, control)[i]| <= PAYLOAD
    decreases room
  {
    var ps := Fills(run, begin, end, room, control);
    if ps != [] {
      var k := Piece(|run|);
      FillsPrefix(run[k..], begin, Add8(end, 1), room - 1, control);
      FlattenCons(run[..k], ps[1..]);
      assert run == run[..k] + run[k..];
    }
  }

  /** An i-th piece is numbered: there is room, there are bytes, and the window is not wider than `control`. */
  predicate Numberable(run: seq<byte>, begin: byte, end: byte, room: nat, control: real, i: nat)
  {
    i < room && 509 * i < |run| && !(((end + i) % 256 - begin) as real > control)
  }

  /** The i-th stretch of 509 bytes, or what there is of it. */
  function Stretch(run: seq<byte>, i: nat): seq<byte>
    requires 509 * i <= |run|
  {
    run[509 * i..if 509 * i + 509 < |run| then 509 * i + 509 else |run|]
  }

  /** Pieces are numbered as long as one can be, each of them full but perhaps the last. */
  lemma {:induction false} FillsMeans(run: seq<byte>, begin: byte, end: byte, room: nat, control: real)
    ensures var ps := Fills(run, begin, end, room, control);
            && (forall i :: 0 <= i < |ps| ==> Numberable(run, begin, end, room, control, i) && ps[i] == Stretch(run, i))
            && !Numberable(run, begin, end, room, control, |ps|)
    decreases room
  {
    var ps := Fills(run, begin, end, room, control);
    if ps != [] {
      var k := Piece(|run|);
      var more := Fills(run[k..], begin, Add8(end, 1), room - 1, control);
      FillsMeans(run[k..], begin, Add8(end, 1), room - 1, control);
      assert ps == [run[..k]] + more && k == if |run| < 509 then |run| else 509;
      hide Fills, Numberable, Stretch, Add8;
      FirstPiece(run, begin, end, room, control);
      forall i | 0 <= i < |ps| ensures Numberable(run, begin, end, room, control, i) && ps[i] == Stretch(run, i) {
        if i > 0 {
          assert Numberable(run[k..], begin, Add8(end, 1), room - 1, control, i - 1) && more[i - 1] == Stretch(run[k..], i - 1);
          NextPiece(run, begin, end, room, control, i - 1);
        }
      }
      NextPiece(run, begin, end, room, control, |more|);
    }
  }

  lemma FirstPiece(run: seq<byte>, begin: byte, end: byte, room: nat, control: real)
    requires Fills(run, begin, end, room, control) != []
    ensures Numberable(run, begin, end, room, control, 0) && Stretch(run, 0) == run[..if |run| < 509 then |run| else 509]
  {
  }

  lemma NextPiece(run: seq<byte>, begin: byte, end: byte, room: nat, control: real, i: nat)
    requires room > 0 && run != []
    ensures var k := if |run| < 509 then |run| else 509;
            && (Numberable(run[k..], begin, Add8(end, 1), room - 1, control, i) <==> Numberable(run, begin, end, room, control, i + 1))
            && (Numberable(run, begin, end, room, control, i + 1) ==> Stretch(run[k..], i) == Stretch(run, i + 1))
  {
    assert (Add8(end, 1) + i) % 256 == (end + (i + 1)) % 256 by {
      NextNumber(end, i);
    }
    hide Add8;
  }

  lemma NextNumber(b: byte, i: nat)
    ensures (Add8(b, 1) + i) % 256 == (b + (i + 1)) % 256
  {
    if b == 255 {
      Turns(i, 1);
    }
  }

  /** A buffer whose header and payload have been written. */
  function Packed(b: seq<byte>, syn: byte, ack: byte, data: Data): (r: seq<byte>)
    requires |b| == BUFFER && |data| <= PAYLOAD
    ensures |r| == BUFFER && r[HEADER..HEADER + |data|] == data
  {
    [ESTABLISHED, syn, ack] + data + b[HEADER + |data|..]
  }

  /** Numbers as many pieces of `run` as there is room for. */
  method FillWindow(w: Window, ghost c: seq<byte>, ghost flight: seq<Data>, run: seq<byte>, ack: byte, control: real)
    returns (r: Window, ghost c': seq<byte>, used: nat)
    requires SendOk(w, c, flight)
    ensures r.begin == w.begin && used <= |run|
    ensures var ps := Fills(run, w.begin, w.end, 32 - |flight|, control);
            SendOk(r, c', flight + ps) && Flatten(ps) == run[..used]
  {
    hide *;
    r, c', used := w, c, 0;
    var size: nat := |run|;
    FillingStart(w, c, flight, run, control);
    ghost var all, ps := Fills(run, w.begin, w.end, 32 - |flight|, control), [];
    while r.freeId < 32 && size > 0
      invariant used + size == |run|
      invariant Filling(w, flight, run, control, all, r, c', ps, used)
      decreases size
    {
      if (r.end - r.begin) as real > control {
        break;
      }
      var k := Piece(size);
      FillingRoom(w, flight, run, control, all, r, c', ps, used);
      var b := Packed(r.pool[r.freeId], r.end, ack, run[used..used + k]);
      FillingStep(w, flight, run, control, all, r, c', ps, used, ack);
      r := Appended(r, b, HEADER + k);
      c' := c'[1..];
      ps := ps + [run[used..used + k]];
      size, used := size - k, used + k;
    }
    FillingEnd(w, flight, run, control, all, r, c', ps, used);
  }

  /** Where filling stands: `ps` numbered so far, `used` bytes of `run` taken. */
  ghost predicate Filling(w: Window, flight: seq<Data>, run: seq<byte>, control: real, all: seq<Data>,
                          r: Window, c': seq<byte>, ps: seq<Data>, used: nat)
  {
    && used <= |run| && r.begin == w.begin && |flight + ps| <= 32
    && SendOk(r, c', flight + ps) && Flatten(ps) == run[..used]
    && all == ps + Fills(run[used..], w.begin, r.end, 32 - |flight + ps|, control)
  }

  lemma FillingStart(w: Window, c: seq<byte>, flight: seq<Data>, run: seq<byte>, control: real)
    requires SendOk(w, c, flight)
    ensures |flight| <= 32
    ensures Filling(w, flight, run, control, Fills(run, w.begin, w.end, 32 - |flight|, control), w, c, [], 0)
  {
    hide PoolOk, SendHolds;
    assert run[0..] == run && flight + [] == flight && run[..0] == [];
  }

  lemma FillingRoom(w: Window, flight: seq<Data>, run: seq<byte>, control: real, all: seq<Data>,
                    r: Window, c': seq<byte>, ps: seq<Data>, used: nat)
    requires Filling(w, flight, run, control, all, r, c', ps, used)
    ensures r.begin == w.begin && Shaped(r) && |r.pool| == 32 && (r.freeId < 32 ==> |r.pool[r.freeId]| == BUFFER)
  {
    hide PoolOk, SendHolds;
  }

  lemma FillingStep(w: Window, flight: seq<Data>, run: seq<byte>, control: real, all: seq<Data>,
                    r: Window, c': seq<byte>, ps: seq<Data>, used: nat, ack: byte)
    requires Filling(w, flight, run, control, all, r, c', ps, used) && Shaped(r)
    requires r.freeId < 32 && used < |run| && (r.end - r.begin) as real <= control
    ensures var k := Piece(|run| - used); var data := run[used..used + k];
            var b := Packed(r.pool[r.freeId], r.end, ack, data);
            && 0 < k && c' != []
            && Filling(w, flight, run, control, all, Appended(r, b, HEADER + k), c'[1..], ps + [data], used + k)
  {
    var k := Piece(|run| - used);
    var data := run[used..used + k];
    var b := Packed(r.pool[r.freeId], r.end, ack, data);
    hide SendOk, Appended, Add8, Packed, Flatten, Fills, Shaped;
    RoomFacts(r, c', flight + ps);
    AppendedNext(r, c', flight + ps, b, data);
    FillsStep(run, used, ps, w.begin, r.end, 32 - |flight + ps|, control);
    assert (flight + ps) + [data] == flight + (ps + [data]);
  }

  lemma FillingEnd(w: Window, flight: seq<Data>, run: seq<byte>, control: real, all: seq<Data>,
                   r: Window, c': seq<byte>, ps: seq<Data>, used: nat)
    requires Filling(w, flight, run, control, all, r, c', ps, used)
    requires r.freeId >= 32 || used == |run| || (r.end - r.begin) as real > control
    ensures r.begin == w.begin && used <= |run| && SendOk(r, c', flight + all) && Flatten(all) == run[..used]
  {
    hide SendOk, Flatten;
    RoomFacts(r, c', flight + ps);
    assert ps + [] == ps;
  }

  /** By the partition of the pool, a buffer is free exactly when fewer than 32 packets are in flight. */
  lemma RoomFacts(w: Window, c: seq<byte>, flight: seq<Data>)
    requires SendOk(w, c, flight)
    ensures Shaped(w) && |flight| <= 32 && w.end == Add8(w.begin, |flight|)
    ensures w.freeId < 32 <==> |flight| < 32
  {
    SomeFree(w, c, multiset(SendIds(w, |flight|)));
  }

  lemma AppendedNext(w: Window, c: seq<byte>, flight: seq<Data>, b: seq<byte>, data: Data)
    requires SendOk(w, c, flight) && w.freeId < 32
    requires |b| == BUFFER && |data| <= PAYLOAD && b[HEADER..HEADER + |data|] == data
    ensures Shaped(w) && c != []
    ensures SendOk(Appended(w, b, HEADER + |data|), c[1..], flight + [data])
    ensures Appended(w, b, HEADER + |data|).begin == w.begin
    ensures Appended(w, b, HEADER + |data|).end == Add8(w.end, 1)
  {
    AppendedOk(w, c, flight, b, HEADER + |data|);
    hide SendOk, Add8;
  }

  lemma FillsStep(run: seq<byte>, used: nat, ps: seq<Data>, begin: byte, end: byte, room: nat, control: real)
    requires used < |run| && 0 < room && (end - begin) as real <= control
    requires Flatten(ps) == run[..used]
    ensures var k := Piece(|run| - used); var data := run[used..used + k];
            && ps + Fills(run[used..], begin, end, room, control)
               == (ps + [data]) + Fills(run[used + k..], begin, Add8(end, 1), room - 1, control)
            && Flatten(ps + [data]) == run[..used + k]
  {
    var k := Piece(|run| - used);
    assert run[used..][..k] == run[used..used + k] && run[used..][k..] == run[used + k..];
    FlattenSnoc(ps, run[used..used + k]);
    hide Flatten;
    assert run[..used + k] == run[..used] + run[used..used + k];
  }

  // ---------------------------------------------------------------- transmission

  /** Stops the loop: the distance is again a difference of bytes taken in `int`. */
  predicate Beyond(begin: byte, i: byte, control: real)
  {
    (i - begin) as real >= control
  }

  /**
   The datagrams transmitted from the k-th packet in flight on: those that are due, and the first
   one reached when a retry is forced.  `due` is by slot.
   */
  function Transmission(s: Sock, k: nat, control: real, due: seq<bool>, force: bool): (out: seq<seq<byte>>)
    requires |due| == 32
    decreases |s.flight| - k
  {
    if k >= |s.flight| || Beyond(s.sb, Add8(s.sb, k), control) then []
    else if due[Slot(s.sb + k)] || force then [Bits(PacketAt(s, k))] + Transmission(s, k + 1, control, due, false)
    else Transmission(s, k + 1, control, due, force)
  }

  /** No packet from the k-th to the i-th is as far from the window's start as `control`. */
  predicate WithinReach(s: Sock, k: nat, i: nat, control: real)
  {
    forall j :: k <= j <= i ==> !(Offset(s.sb, j) as real >= control)
  }

  /** How far the j-th packet's number is from the window's start, as a difference of bytes. */
  function Offset(b: byte, j: nat): int
  {
    (b + j) % 256 - b
  }

  /** The packet is due, or it is the first one and a retry is forced. */
  predicate IsDue(s: Sock, k: nat, i: nat, due: seq<bool>, force: bool)
    requires |due| == 32
  {
    due[(s.sb + i) % 32] || (force && i == k)
  }

  /** The i-th packet in flight as it is on the wire. */
  function OnWire(s: Sock, i: nat): seq<byte>
    requires i < |s.flight|
  {
    [4, (s.sb + i) % 256, (s.rb - 1) % 256] + s.flight[i]
  }

  /** `idx` are the packets that are sent, in order: all that are in flight, within reach and due, and `out` their bytes. */
  ghost predicate SendsAll(s: Sock, k: nat, control: real, due: seq<bool>, force: bool, idx: seq<nat>, out: seq<seq<byte>>)
    requires |due| == 32
  {
    && |idx| == |out| && (forall x, y :: 0 <= x < y < |idx| ==> idx[x] < idx[y])
    && (forall x :: 0 <= x < |idx| ==> idx[x] < |s.flight| && out[x] == OnWire(s, idx[x]))
    && forall i: nat :: i in idx <==> k <= i < |s.flight| && WithinReach(s, k, i, control) && IsDue(s, k, i, due, force)
  }

  /** Transmitted are, in order and once each, exactly the packets in flight that are due and within reach. */
  lemma {:induction false} TransmissionMeans(s: Sock, k: nat, control: real, due: seq<bool>, force: bool) returns (idx: seq<nat>)
    requires |due| == 32
    ensures SendsAll(s, k, control, due, force, idx, Transmission(s, k, control, due, force))
    decreases |s.flight| - k
  {
    TransmissionStep(s, k, control, due, force);
    hide *;
    if k >= |s.flight| || Offset(s.sb, k) as real >= control {
      idx := [];
      NoneSent(s, k, control, due, force);
    } else if IsDue(s, k, k, due, force) {
      var more := TransmissionMeans(s, k + 1, control, due, false);
      idx := [k] + more;
      OneSent(s, k, control, due, force, more, Transmission(s, k + 1, control, due, false));
    } else {
      idx := TransmissionMeans(s, k + 1, control, due, force);
      OneSkipped(s, k, control, due, force, idx, Transmission(s, k + 1, control, due, force));
    }
  }

  lemma TransmissionStep(s: Sock, k: nat, control: real, due: seq<bool>, force: bool)
    requires |due| == 32
    ensures Transmission(s, k, control, due, force) ==
      if k >= |s.flight| || Offset(s.sb, k) as real >= control then []
      else if IsDue(s, k, k, due, force) then [OnWire(s, k)] + Transmission(s, k + 1, control, due, false)
      else Transmission(s, k + 1, control, due, force)
    ensures !IsDue(s, k, k, due, force) ==> !force
  {
  }

  lemma NoneSent(s: Sock, k: nat, control: real, due: seq<bool>, force: bool)
    requires |due| == 32 && (k >= |s.flight| || Offset(s.sb, k) as real >= control)
    ensures SendsAll(s, k, control, due, force, [], [])
  {
    hide IsDue, Offset;
  }

  lemma OneSent(s: Sock, k: nat, control: real, due: seq<bool>, force: bool, more: seq<nat>, out: seq<seq<byte>>)
    requires |due| == 32 && k < |s.flight| && !(Offset(s.sb, k) as real >= control) && IsDue(s, k, k, due, force)
    requires SendsAll(s, k + 1, control, due, false, more, out)
    ensures SendsAll(s, k, control, due, force, [k] + more, [OnWire(s, k)] + out)
  {
    hide Offset, OnWire;
    var all, bytes := [k] + more, [OnWire(s, k)] + out;
    assert forall x :: 0 <= x < |more| ==> more[x] in more;
    forall x | 0 <= x < |all| ensures all[x] < |s.flight| && bytes[x] == OnWire(s, all[x]) {
      if x > 0 {
        assert all[x] == more[x - 1] && bytes[x] == out[x - 1];
      }
    }
    forall x, y | 0 <= x < y < |all| ensures all[x] < all[y] {
      assert all[y] == more[y - 1];
      if x > 0 {
        assert all[x] == more[x - 1];
      }
    }
    forall i: nat ensures i in [k] + more <==> k <= i < |s.flight| && WithinReach(s, k, i, control) && IsDue(s, k, i, due, force) {
      if i > k {
        assert IsDue(s, k, i, due, force) == IsDue(s, k + 1, i, due, false);
        assert WithinReach(s, k, i, control) == WithinReach(s, k + 1, i, control);
      }
    }
  }

  lemma OneSkipped(s: Sock, k: nat, control: real, due: seq<bool>, force: bool, idx: seq<nat>, out: seq<seq<byte>>)
    requires |due| == 32 && k < |s.flight| && !(Offset(s.sb, k) as real >= control) && !IsDue(s, k, k, due, force) && !force
    requires SendsAll(s, k + 1, control, due, force, idx, out)
    ensures SendsAll(s, k, control, due, force, idx, out)
  {
    hide Offset, OnWire;
    forall i: nat ensures i in idx <==> k <= i < |s.flight| && WithinReach(s, k, i, control) && IsDue(s, k, i, due, force) {
      if i > k {
        assert IsDue(s, k, i, due, force) == IsDue(s, k + 1, i, due, force);
        assert WithinReach(s, k, i, control) == WithinReach(s, k + 1, i, control);
      }
    }
  }

  /** Only packets in flight are transmitted. */
  lemma {:induction false} TransmissionSound(s: Sock, k: nat, control: real, due: seq<bool>, force: bool, x: nat) returns (i: nat)
    requires |due| == 32 && x < |Transmission(s, k, control, due, force)|
    ensures k <= i < |s.flight| && Transmission(s, k, control, due, force)[x] == Bits(PacketAt(s, i))
    decreases |s.flight| - k
  {
    hide Slot, Add8, Bits, PacketAt;
    if due[Slot(s.sb + k)] || force {
      if x == 0 {
        i := k;
      } else {
        i := TransmissionSound(s, k + 1, control, due, false, x - 1);
      }
    } else {
      i := TransmissionSound(s, k + 1, control, due, force, x);
    }
  }

  /** Every packet in flight that is due and within reach is transmitted. */
  lemma {:induction false} TransmissionComplete(s: Sock, k: nat, control: real, due: seq<bool>, force: bool, i: nat)
    requires |due| == 32 && k <= i < |s.flight| && due[Slot(s.sb + i)]
    requires forall j :: k <= j <= i ==> !Beyond(s.sb, Add8(s.sb, j), control)
    ensures Bits(PacketAt(s, i)) in Transmission(s, k, control, due, force)
    decreases |s.flight| - k
  {
    hide Slot, Add8, Bits, PacketAt;
    assert !Beyond(s.sb, Add8(s.sb, k), control);
    if k < i {
      TransmissionComplete(s, k + 1, control, due, force && !(due[Slot(s.sb + k)] || force), i);
    }
  }

  /** Transmits what is due; the socket takes `sends` datagrams and refuses the next. */
  method Transmit(w: Window, ghost c: seq<byte>, ghost s: Sock, ack: byte, control: real, due: seq<bool>, force: bool, sends: nat)
    returns (r: Window, out: seq<seq<byte>>, refused: bool)
    requires SendOk(w, c, s.flight) && s.sb == w.begin && ack == Sub8(s.rb, 1) && |due| == 32
    ensures SendOk(r, c, s.flight) && r == w.(pool := r.pool)
    ensures var all := Transmission(s, 0, control, due, force);
            |out| <= |all| && out == all[..|out|] && (refused <==> sends < |all|) && (if refused then |out| == sends else out == all)
  {
    hide *;
    r, out := w, [];
    refused := false;
    var force' := force;
    var i := w.begin;
    ghost var k, rest := 0, Transmission(s, 0, control, due, force);
    ghost var all := rest;
    WindowEnds(w, c, s.flight, 0);
    assert out + rest == rest;
    while i != w.end
      invariant k <= |s.flight| <= 32 && i == Add8(w.begin, k) && (k == |s.flight| <==> i == w.end)
      invariant r == w.(pool := r.pool) && SendOk(r, c, s.flight)
      invariant rest == Transmission(s, k, control, due, force') && out + rest == all && |out| <= sends
      decreases |s.flight| - k
    {
      ReachStep(s, k, control, due, force');
      if (i - w.begin) as real >= control {
        break;
      }
      WindowEnds(r, c, s.flight, k);
      if due[i % 32] || force' {
        force' := false;
        var id, size := r.bufId[i % 32], r.size[i % 32];
        HeaderStep(r, c, s, k);
        var b := WithHeader(r.pool[id], ESTABLISHED, i, ack);
        r := r.(pool := r.pool[id := b]);
        if |out| == sends {
          refused := true;
          assert out + rest == all;
          return;
        }
        out := out + [b[..size]];
        assert out + rest[1..] == all;
        rest := rest[1..];
      }
      WindowEnds(r, c, s.flight, k);
      i := Add8(i, 1);
      k := k + 1;
    }
    EndStep(s, k, control, due, force');
    assert out + rest == out;
  }

  lemma WindowEnds(w: Window, c: seq<byte>, flight: seq<Data>, k: nat)
    requires SendOk(w, c, flight)
    ensures |flight| <= 32 && Add8(w.begin, 0) == w.begin && (|flight| == 0 <==> w.begin == w.end)
    ensures |w.bufId| == 32 && |w.size| == 32
    ensures k < |flight| ==> Add8(Add8(w.begin, k), 1) == Add8(w.begin, k + 1) && (k + 1 == |flight| <==> Add8(w.begin, k + 1) == w.end)
  {
    hide PoolOk, SendHolds;
    if k < |flight| {
      AddCase(w.begin, k);
      AddCase(w.begin, k + 1);
      AddCase(Add8(w.begin, k), 1);
    }
    AddCase(w.begin, |flight|);
    AddCase(w.begin, 0);
    hide Add8;
  }

  /** What the k-th step of the loop contributes. */
  lemma ReachStep(s: Sock, k: nat, control: real, due: seq<bool>, force: bool)
    requires |due| == 32 && k < |s.flight|
    ensures Slot(s.sb + k) == Add8(s.sb, k) % 32
    ensures var i := Add8(s.sb, k);
            Transmission(s, k, control, due, force) ==
              if (i - s.sb) as real >= control then []
              else if due[i % 32] || force then [Bits(PacketAt(s, k))] + Transmission(s, k + 1, control, due, false)
              else Transmission(s, k + 1, control, due, force)
  {
    SlotOf(s.sb, k);
    hide Slot, Add8, PacketAt, Bits;
  }

  lemma EndStep(s: Sock, k: nat, control: real, due: seq<bool>, force: bool)
    requires |due| == 32 && (k == |s.flight| || (k < |s.flight| && (Add8(s.sb, k) - s.sb) as real >= control))
    ensures Transmission(s, k, control, due, force) == []
  {
  }

  /** The rewritten buffer is the k-th packet, as numbered. */
  lemma HeaderStep(w: Window, c: seq<byte>, s: Sock, k: nat)
    requires SendOk(w, c, s.flight) && s.sb == w.begin && k < |s.flight|
    ensures |w.bufId| == 32 && |w.size| == 32 && |w.pool| == 32
    ensures var i := Add8(w.begin, k);
            var id, size := w.bufId[i % 32], w.size[i % 32];
            && id < 32 && HEADER <= |w.pool[id]| == BUFFER && size <= BUFFER
            && var b := WithHeader(w.pool[id], ESTABLISHED, i, Sub8(s.rb, 1));
               && |b| == BUFFER && SendOk(w.(pool := w.pool[id := b]), c, s.flight)
               && b[..size] == Bits(PacketAt(s, k))
  {
    SlotOf(w.begin, k);
    var i := Add8(w.begin, k);
    var id, size := w.bufId[i % 32], w.size[i % 32];
    hide Slot, Add8, Sub8, PoolOk, SendIds;
    assert id == At(w, k) && size == SizeAt(w, k);
    assert Holds(w, id, size, s.flight[k]);
    RewriteOk(w, c, s.flight, k, WithHeader(w.pool[id], ESTABLISHED, i, Sub8(s.rb, 1)));
  }

  // ---------------------------------------------------------------- delivery

  /** Popping one more packet. */
  lemma {:induction false} PoppedNext(s: Sock, k: nat)
    requires Sized(s)
    ensures Popped(s, k + 1) == Pop(Popped(s, k))
    ensures Fronts(s, k + 1) == Fronts(s, k) + [FrontData(Popped(s, k))]
    decreases k
  {
    hide Pop;
    if k > 0 {
      PoppedNext(Pop(s), k - 1);
    } else {
      assert Popped(Pop(s), 0) == Pop(s);
      assert Fronts(Pop(s), 0) == [];
    }
  }

  function FrontData(s: Sock): Data
    requires Sized(s)
  {
    if s.slots[Slot(s.rb)].Some? then s.slots[Slot(s.rb)].value else []
  }

  /** Until all ready packets are popped, the front slot is occupied. */
  lemma {:induction false} ReadyFront(s: Sock, n: nat, k: nat)
    requires Sized(s) && k < Ready(s, n)
    ensures var t := Popped(s, k); t.slots[Slot(t.rb)].Some?
    decreases k
  {
    hide Pop, Slot;
    if k > 0 {
      ReadyFront(Pop(s), n - 1, k - 1);
    }
  }

  lemma {:induction false} PoppedBegin(s: Sock, k: nat)
    requires Sized(s)
    ensures Popped(s, k).rb == Add8(s.rb, k) && Popped(s, k).sb == s.sb && Popped(s, k).flight == s.flight
    decreases k
  {
    if k > 0 {
      PoppedBegin(Pop(s), k - 1);
      Numbers(s.rb + 1, k - 1);
    }
  }

  lemma {:induction false} FrontsPrefix(s: Sock, k: nat, n: nat)
    requires Sized(s) && k <= n
    ensures Fronts(s, k) <= Fronts(s, n)
    decreases k
  {
    if k > 0 {
      hide Pop;
      FrontsPrefix(Pop(s), k - 1, n - 1);
    }
  }
}
