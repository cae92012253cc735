/**
 What one end of the reliable UDP protocol does, on 8-bit numbers and on
 unbounded ones, and why the two agree.

 `Sock` is the state the socket keeps: window positions are `unsigned char`.
 `End` is the same state with packets numbered 1, 2, 3, ... without bound and
 with the payloads of all packets ever numbered.
 */
module UdpWindow {
  import opened Options
  import opened Bytes

  /** Slots in a window, and buffers in its pool. */
  const WINDOW: nat := 32

  /**
   How far behind a delivered number may be.  With window positions modulo 256 and 32
   numbers ahead of a position accepted, 224 numbers behind it can be told apart.
   */
  const MAX_AGE: nat := 224

  /** The slot of a packet number; window size and numbering modulus make it the same for 8-bit numbers. */
  function Slot(n: nat): (i: nat)
    ensures i < 32
  {
    n % 32
  }

  lemma SlotFacts(m: nat, n: nat)
    ensures Slot(n % 256) == Slot(n)
    ensures m <= n < m + 32 ==> (Slot(m) == Slot(n) <==> m == n)
    ensures Slot(m) == Slot(m + 32)
  {
    SlotTurns(n % 256, n / 256 * 8);
    assert n % 256 + n / 256 * 8 * 32 == n;
    hide Slot;
    if m <= n < m + 32 {
      SlotApart(m, n - m);
    }
    SlotTurns(m, 1);
  }

  lemma SlotTurns(a: nat, q: nat)
    ensures Slot(a + q * 32) == Slot(a)
  {
  }

  lemma SlotApart(m: nat, k: nat)
    requires k < 32
    ensures Slot(m) == Slot(m + k) <==> k == 0
  {
  }

  type Data = seq<byte>

  /** A datagram as it is on the wire. */
  datatype Packet = Packet(established: bool, syn: byte, ack: byte, data: Data)

  // ---------------------------------------------------------------- 8-bit numbers

  /** Send window [sb, sb + |flight|) and receive window [rb, rb + 32), modulo 256. */
  datatype Sock = Sock(sb: byte, flight: seq<Data>, rb: byte, slots: seq<Option<Data>>)

  predicate Sized(s: Sock)
  {
    |s.flight| <= WINDOW && |s.slots| == WINDOW
  }

  /** The window test: `id` lies in [begin, end) modulo 256. */
  predicate IsValidIndex(begin: byte, end: byte, id: byte)
  {
    Sub8(id, begin) < Sub8(end, begin)
  }

  function SendEnd(s: Sock): byte
  {
    Add8(s.sb, |s.flight|)
  }

  /** The number of packets in flight is recovered from the two 8-bit ends. */
  lemma SendCount(s: Sock)
    requires |s.flight| <= WINDOW
    ensures Sub8(SendEnd(s), s.sb) == |s.flight|
  {
    var sum := s.sb + |s.flight|;
    assert SendEnd(s) == if sum < 256 then sum else sum - 256;
  }

  /** A cumulative acknowledgement frees every packet up to `ack`. */
  function Acked(s: Sock, ack: byte): (r: Sock)
    requires Sized(s)
    ensures Sized(r)
  {
    SendCount(s);
    hide Add8, Sub8;
    if IsValidIndex(s.sb, SendEnd(s), ack) then
      s.(sb := Add8(ack, 1), flight := s.flight[Sub8(ack, s.sb) + 1..])
    else s
  }

  predicate Accepts(s: Sock, syn: byte)
    requires Sized(s)
  {
    IsValidIndex(s.rb, Add8(s.rb, 32), syn) && s.slots[Slot(syn)].None?
  }

  /** A packet is kept when its number is in the receive window and its slot is empty. */
  function Stored(s: Sock, syn: byte, data: Data): (r: Sock)
    requires Sized(s)
    ensures Sized(r)
  {
    if Accepts(s, syn) then s.(slots := s.slots[Slot(syn) := Some(data)]) else s
  }

  /** How many packets, up to `n`, are there without a gap from the front of the receive window. */
  function Ready(s: Sock, n: nat): (k: nat)
    requires Sized(s)
    ensures k <= n
    decreases n
  {
    if n > 0 && s.slots[Slot(s.rb)].Some? then 1 + Ready(Pop(s), n - 1) else 0
  }

  /** The front packet leaves the receive window. */
  function Pop(s: Sock): (r: Sock)
    requires Sized(s)
    ensures Sized(r)
  {
    s.(slots := s.slots[Slot(s.rb) := None], rb := Add8(s.rb, 1))
  }

  /** The front `k` packets leave the receive window. */
  function Popped(s: Sock, k: nat): (r: Sock)
    requires Sized(s)
    ensures Sized(r)
    decreases k
  {
    if k == 0 then s else Popped(Pop(s), k - 1)
  }

  /** Their payloads. */
  function Fronts(s: Sock, k: nat): (ds: seq<Data>)
    requires Sized(s)
    ensures |ds| == k
    decreases k
  {
    if k == 0 then []
    else [if s.slots[Slot(s.rb)].Some? then s.slots[Slot(s.rb)].value else []] + Fronts(Pop(s), k - 1)
  }

  /** State after an established datagram. */
  function Received(s: Sock, p: Packet): (r: Sock)
    requires Sized(s)
    ensures Sized(r)
  {
    var t := Stored(Acked(s, p.ack), p.syn, p.data);
    Popped(t, Ready(t, 32))
  }

  /** Payloads an established datagram releases, in order. */
  function Released(s: Sock, p: Packet): (ds: seq<Data>)
    requires Sized(s)
  {
    var t := Stored(Acked(s, p.ack), p.syn, p.data);
    Fronts(t, Ready(t, 32))
  }

  /** The i-th packet in flight, with the current acknowledgement. */
  function PacketAt(s: Sock, i: nat): Packet
    requires i < |s.flight|
  {
    Packet(true, Add8(s.sb, i), Sub8(s.rb, 1), s.flight[i])
  }

  /** An acknowledgement without data: its number is the one before the send window. */
  function PureAck(s: Sock): Packet
  {
    Packet(true, Sub8(s.sb, 1), Sub8(s.rb, 1), [])
  }

  // ---------------------------------------------------------------- unbounded numbers

  /**
   `log` holds the payload of every packet ever numbered, packet n at n - 1; packets from `sb` on
   are in flight.  `slots` holds packets received out of order, all numbers below `rb` have been
   put into the receive ring, `put` is what has been put there.
   */
  datatype End = End(sb: nat, log: seq<Data>, rb: nat, slots: map<nat, Data>, put: seq<byte>, closed: bool)

  /** A datagram with the numbers it stands for. */
  datatype Dgram = Dgram(established: bool, syn: nat, ack: nat, data: Data)

  function Wire(d: Dgram): Packet
  {
    Packet(d.established, d.syn % 256, d.ack % 256, d.data)
  }

  function EndOf(e: End): nat
  {
    |e.log| + 1
  }

  function AckedU(e: End, ack: nat): End
  {
    if e.sb <= ack < EndOf(e) then e.(sb := ack + 1) else e
  }

  function StoredU(e: End, syn: nat, data: Data): End
  {
    if e.rb <= syn < e.rb + WINDOW && syn !in e.slots then e.(slots := e.slots[syn := data]) else e
  }

  function ReadyU(e: End, n: nat): (k: nat)
    ensures k <= n
    decreases n
  {
    if n > 0 && e.rb in e.slots then 1 + ReadyU(PopU(e), n - 1) else 0
  }

  function PopU(e: End): End
  {
    e.(slots := e.slots - {e.rb}, rb := e.rb + 1)
  }

  function PoppedU(e: End, k: nat): End
    decreases k
  {
    if k == 0 then e else PoppedU(PopU(e), k - 1)
  }

  function FrontsU(e: End, k: nat): (ds: seq<Data>)
    ensures |ds| == k
    decreases k
  {
    if k == 0 then [] else [if e.rb in e.slots then e.slots[e.rb] else []] + FrontsU(PopU(e), k - 1)
  }

  function ReceivedU(e: End, d: Dgram): End
  {
    var t := StoredU(AckedU(e, d.ack), d.syn, d.data);
    PoppedU(t, ReadyU(t, 32))
  }

  function ReleasedU(e: End, d: Dgram): seq<Data>
  {
    var t := StoredU(AckedU(e, d.ack), d.syn, d.data);
    FrontsU(t, ReadyU(t, 32))
  }

  function DgramAt(e: End, n: nat): Dgram
    requires 1 <= n <= |e.log| && 1 <= e.rb
  {
    Dgram(true, n, e.rb - 1, e.log[n - 1])
  }

  function PureAckU(e: End): Dgram
    requires 1 <= e.sb && 1 <= e.rb
  {
    Dgram(true, e.sb - 1, e.rb - 1, [])
  }

  // ---------------------------------------------------------------- agreement

  /** The 8-bit state is the unbounded one modulo 256 (slots modulo 32). */
  ghost predicate Agree(e: End, s: Sock)
  {
    && 1 <= e.sb <= EndOf(e) <= e.sb + WINDOW
    && s.sb == e.sb % 256 && s.flight == e.log[e.sb - 1..]
    && SlotsAgree(e, s)
  }

  ghost predicate SlotsAgree(e: End, s: Sock)
  {
    && s.rb == e.rb % 256 && |s.slots| == WINDOW
    && (forall n :: n in e.slots ==> e.rb <= n < e.rb + WINDOW)
    && (forall n :: e.rb <= n < e.rb + WINDOW ==>
         s.slots[Slot(n)] == if n in e.slots then Some(e.slots[n]) else None)
  }

  /**
   The 8-bit window test says what the unbounded one says for every number that is not too old
   and not beyond the window; and the bound on the age is exact.
   */
  lemma WindowTest(begin: nat, count: nat, x: nat)
    requires count <= WINDOW && x < begin + 256
    ensures begin <= x + MAX_AGE ==> (IsValidIndex(begin % 256, (begin + count) % 256, x % 256) <==> begin <= x < begin + count)
    ensures begin == x + MAX_AGE + 1 ==> (IsValidIndex(begin % 256, (begin + count) % 256, x % 256) <==> count == WINDOW)
  {
    Distance(begin, begin + count);
    if begin <= x {
      Distance(begin, x);
    } else if begin < x + 256 {
      Distance(begin, x + 256);
      Turns(x, 1);
    }
    hide Sub8;
  }

  lemma AckAgrees(e: End, s: Sock, ack: nat)
    requires Agree(e, s) && e.sb <= ack + MAX_AGE && ack < EndOf(e)
    ensures Agree(AckedU(e, ack), Acked(s, ack % 256))
  {
    hide Add8, Sub8, IsValidIndex;
    WindowTest(e.sb, |s.flight|, ack);
    Numbers(e.sb, |s.flight|);
    if e.sb <= ack {
      Numbers(ack, 1);
      Distance(e.sb, ack);
      Dropped(e.log, e.sb - 1, ack);
      SameSlots(e, s, AckedU(e, ack), Acked(s, ack % 256));
    }
  }

  lemma Numbers(x: nat, k: nat)
    ensures Add8(x % 256, k) == (x + k) % 256
    ensures Sub8(x % 256, k) == (x - k) % 256
  {
    assert x == x / 256 * 256 + x % 256;
    Turns(x % 256 + k, x / 256);
    Turns(x % 256 - k, x / 256);
  }

  /** Whole turns do not matter. */
  lemma Turns(a: int, q: int)
    ensures (a + q * 256) % 256 == a % 256
  {
  }

  lemma Distance(x: nat, y: nat)
    requires x <= y < x + 256
    ensures Sub8(y % 256, x % 256) == y - x
  {
  }

  lemma Dropped(log: seq<Data>, i: nat, j: nat)
    requires i <= j <= |log|
    ensures log[i..][j - i..] == log[j..]
  {
  }

  lemma SameSlots(e: End, s: Sock, e': End, s': Sock)
    requires SlotsAgree(e, s) && e'.rb == e.rb && e'.slots == e.slots && s'.rb == s.rb && s'.slots == s.slots
    ensures SlotsAgree(e', s')
  {
  }

  lemma StoreAgrees(e: End, s: Sock, syn: nat, data: Data)
    requires Agree(e, s) && e.rb <= syn + MAX_AGE && syn < e.rb + WINDOW
    ensures Agree(StoredU(e, syn, data), Stored(s, syn % 256, data))
  {
    WindowTest(e.rb, 32, syn);
    Numbers(e.rb, 32);
    SlotFacts(0, syn);
    hide Slot, Add8, Sub8, IsValidIndex;
    if e.rb <= syn {
      assert s.slots[Slot(syn)] == if syn in e.slots then Some(e.slots[syn]) else None;
      if syn !in e.slots {
        StoreSlots(e, s, syn, data);
      }
    }
  }

  lemma StoreSlots(e: End, s: Sock, syn: nat, data: Data)
    requires SlotsAgree(e, s) && e.rb <= syn < e.rb + 32 && syn !in e.slots
    ensures SlotsAgree(e.(slots := e.slots[syn := data]), s.(slots := s.slots[Slot(syn) := Some(data)]))
  {
    hide Slot;
    forall n | e.rb <= n < e.rb + 32 && n != syn ensures Slot(n) != Slot(syn) {
      SlotFacts(n, syn);
      SlotFacts(syn, n);
    }
  }

  lemma PopAgrees(e: End, s: Sock)
    requires Agree(e, s)
    ensures s.slots[Slot(s.rb)] == if e.rb in e.slots then Some(e.slots[e.rb]) else None
    ensures Agree(PopU(e), Pop(s))
  {
    hide Slot, Add8;
    SlotFacts(0, e.rb);
    Numbers(e.rb, 1);
    PopSlots(e.rb, e.slots, s.slots);
  }

  lemma PopSlots(rb: nat, m: map<nat, Data>, slots: seq<Option<Data>>)
    requires |slots| == 32
    requires forall n :: rb <= n < rb + 32 ==> slots[Slot(n)] == if n in m then Some(m[n]) else None
    requires forall n :: n in m ==> rb <= n < rb + 32
    ensures var m', slots' := m - {rb}, slots[Slot(rb) := None];
            && (forall n :: n in m' ==> rb + 1 <= n < rb + 33)
            && (forall n :: rb + 1 <= n < rb + 33 ==> slots'[Slot(n)] == if n in m' then Some(m'[n]) else None)
  {
    hide Slot;
    SlotTurns(rb, 1);
    forall n | rb + 1 <= n < rb + 32 ensures Slot(n) != Slot(rb) {
      SlotApart(rb, n - rb);
    }
  }

  lemma {:induction false} ReadyAgrees(e: End, s: Sock, n: nat)
    requires Agree(e, s)
    ensures Ready(s, n) == ReadyU(e, n)
    decreases n
  {
    PopAgrees(e, s);
    if n > 0 {
      ReadyAgrees(PopU(e), Pop(s), n - 1);
    }
  }

  lemma {:induction false} PoppedAgrees(e: End, s: Sock, k: nat)
    requires Agree(e, s)
    ensures Agree(PoppedU(e, k), Popped(s, k)) && FrontsU(e, k) == Fronts(s, k)
    decreases k
  {
    PopAgrees(e, s);
    if k > 0 {
      PoppedAgrees(PopU(e), Pop(s), k - 1);
    }
  }

  /**
   One received datagram has the same effect on 8-bit and on unbounded numbers, and
   releases the same payloads, provided neither of its numbers is too old.
   */
  lemma ReceiveAgrees(e: End, s: Sock, d: Dgram)
    requires Agree(e, s)
    requires e.sb <= d.ack + MAX_AGE && d.ack < EndOf(e)
    requires e.rb <= d.syn + MAX_AGE && d.syn < e.rb + WINDOW
    ensures Agree(ReceivedU(e, d), Received(s, Wire(d)))
    ensures ReleasedU(e, d) == Released(s, Wire(d))
  {
    AckAgrees(e, s, d.ack);
    var e1, s1 := AckedU(e, d.ack), Acked(s, d.ack % 256);
    StoreAgrees(e1, s1, d.syn, d.data);
    var e2, s2 := StoredU(e1, d.syn, d.data), Stored(s1, d.syn % 256, d.data);
    ReadyAgrees(e2, s2, 32);
    PoppedAgrees(e2, s2, Ready(s2, 32));
  }

  /** What is sent has the same bytes on the wire. */
  lemma SendAgrees(e: End, s: Sock, i: nat)
    requires Agree(e, s) && 1 <= e.rb
    ensures i < |s.flight| ==> Wire(DgramAt(e, e.sb + i)) == PacketAt(s, i)
    ensures Wire(PureAckU(e)) == PureAck(s)
  {
    AgreeNumbers(e, s);
    assert s.sb == e.sb % 256 && s.flight == e.log[e.sb - 1..];
    hide Agree, EndOf, Add8, Sub8;
    Numbers(e.sb, i);
    Numbers(e.sb, 1);
    Numbers(e.rb, 1);
  }

  lemma AgreeNumbers(e: End, s: Sock)
    requires Agree(e, s)
    ensures 1 <= e.sb <= EndOf(e) && EndOf(e) == |e.log| + 1 && s.sb == e.sb % 256 && s.rb == e.rb % 256 && |s.slots| == WINDOW
    ensures s.flight == e.log[e.sb - 1..] && |s.flight| == EndOf(e) - e.sb && |s.flight| <= WINDOW
  {
  }

  /** A window test on 8-bit numbers is the test on unbounded ones, for a number that is not too old. */
  lemma IndexTest(begin: nat, count: nat, x: nat)
    requires count <= WINDOW && x < begin + 256 && begin <= x + MAX_AGE
    ensures IsValidIndex(begin % 256, Add8(begin % 256, count), x % 256) <==> begin <= x < begin + count
  {
    WindowTest(begin, count, x);
    Numbers(begin, count);
    hide Add8, Sub8, IsValidIndex;
  }

  // ---------------------------------------------------------------- the receive window at rest

  /** Between datagrams the front slot is empty. */
  predicate AtRest(s: Sock)
    requires Sized(s)
  {
    s.slots[Slot(s.rb)].None?
  }

  /** The slots from the n-th behind the front on are empty. */
  predicate EmptyFrom(s: Sock, n: nat)
    requires Sized(s)
  {
    forall m :: s.rb + n <= m < s.rb + 32 ==> s.slots[Slot(m)].None?
  }

  lemma Turned(x: byte)
    ensures Add8(x, 1) == x + 1 || Add8(x, 1) == x + 1 - 256
  {
  }

  lemma EmptyPop(s: Sock, n: nat)
    requires Sized(s) && 0 < n && EmptyFrom(s, n)
    ensures EmptyFrom(Pop(s), n - 1)
  {
    var t := Pop(s);
    SlotTurns(s.rb, 1);
    Turned(s.rb);
    hide Slot, Add8;
    forall m | t.rb + n - 1 <= m < t.rb + 32 ensures t.slots[Slot(m)].None? {
      var m' := m + (s.rb + 1 - t.rb);
      SlotTurns(m, 8);
      assert Slot(m') == Slot(m);
    }
  }

  lemma {:induction false} PoppedAtRest(s: Sock, n: nat)
    requires Sized(s) && n <= 32 && EmptyFrom(s, n)
    ensures AtRest(Popped(s, Ready(s, n)))
    decreases n
  {
    if n > 0 && s.slots[Slot(s.rb)].Some? {
      EmptyPop(s, n);
      PoppedAtRest(Pop(s), n - 1);
    } else if n == 0 {
      assert s.slots[Slot(s.rb)].None?;
    }
  }

  /** Every datagram leaves the front slot empty, so at most 31 packets wait in the receive window. */
  lemma ReceivedAtRest(s: Sock, p: Packet)
    requires Sized(s)
    ensures AtRest(Received(s, p))
  {
    PoppedAtRest(Stored(Acked(s, p.ack), p.syn, p.data), 32);
  }

  // ---------------------------------------------------------------- what a datagram does, field by field

  /** An acknowledgement moves the send window behind the packet it names, if that is in flight, and does nothing otherwise. */
  ghost predicate AckTaken(m: Sock, ack: byte, m': Sock)
  {
    var k := (ack - m.sb) % 256;
    if k < |m.flight| then m'.sb == (ack + 1) % 256 && m'.flight == m.flight[k + 1..]
    else m'.sb == m.sb && m'.flight == m.flight
  }

  /** The receive slots once the packet has been put where it belongs: into its slot, if its number is in the window and the slot is empty. */
  function WithPacket(m: Sock, syn: byte, data: Data): seq<Option<Data>>
    requires |m.slots| == 32
  {
    if (syn - m.rb) % 256 < 32 && m.slots[syn % 32].None? then m.slots[syn % 32 := Some(data)] else m.slots
  }

  /** The cell of the i-th number of the window. */
  function Cell(rb: byte, i: nat): (j: nat)
    ensures j < 32
  {
    (rb + i) % 32
  }

  /** `ds` are the payloads up to the first gap, or to the n-th number; their cells are emptied, and no other. */
  ghost predicate UpToGap(all: seq<Option<Data>>, rb: byte, n: nat, left: seq<Option<Data>>, ds: seq<Data>)
    requires |all| == 32 && |left| == 32
  {
    && |ds| <= n && (|ds| < n ==> all[Cell(rb, |ds|)].None?)
    && (forall i :: 0 <= i < |ds| ==> all[Cell(rb, i)] == Some(ds[i]))
    && forall i :: 0 <= i < 32 ==> left[Cell(rb, i)] == if i < |ds| then None else all[Cell(rb, i)]
  }

  /** The packets at the front of the window up to the first gap leave it, and the window moves by their number. */
  ghost predicate SlotsTaken(m: Sock, syn: byte, data: Data, m': Sock, ds: seq<Data>)
    requires |m.slots| == 32 && |m'.slots| == 32
  {
    m'.rb == (m.rb + |ds|) % 256 && UpToGap(WithPacket(m, syn, data), m.rb, 32, m'.slots, ds)
  }

  lemma NextCell(rb: byte, i: nat)
    ensures Cell(Add8(rb, 1), i) == Cell(rb, i + 1) && Cell(rb, 32) == Cell(rb, 0) == rb % 32
    ensures Add8(Add8(rb, 1), i) == Add8(rb, i + 1) && Add8(rb, 0) == rb
    ensures 0 < i < 32 ==> Cell(rb, i) != Cell(rb, 0)
  {
    if rb == 255 {
      SlotTurns(i, 8);
      Turns(i, 1);
    }
    SlotTurns(rb, 1);
    if 0 < i < 32 {
      SlotApart(rb, i);
    }
    hide Slot, Add8, Cell;
    NextFacts(rb, i);
  }

  lemma NextFacts(rb: byte, i: nat)
    ensures Add8(rb, 1) == if rb == 255 then 0 else rb + 1
    ensures Add8(rb, 0) == rb && Add8(0, i) == i % 256 && Add8(255, i + 1) == (i + 256) % 256
    ensures rb < 255 ==> Add8(rb + 1, i) == Add8(rb, i + 1) && Cell(rb + 1, i) == Cell(rb, i + 1)
    ensures Cell(0, i) == Slot(i) && Cell(rb, i) == Slot(rb + i) && Cell(255, i + 1) == Slot(i + 256)
    ensures Slot(rb) == rb % 32
  {
    assert rb < 255 ==> rb + 1 + i == rb + (i + 1);
  }

  lemma StepToGap(all: seq<Option<Data>>, rb: byte, n: nat, left: seq<Option<Data>>, ds: seq<Data>)
    requires |all| == 32 && |left| == 32 && 0 < n <= 32 && all[rb % 32].Some?
    requires UpToGap(all[rb % 32 := None], Add8(rb, 1), n - 1, left, ds)
    ensures UpToGap(all, rb, n, left, [all[rb % 32].value] + ds)
  {
    var p, rb1, more := all[rb % 32 := None], Add8(rb, 1), [all[rb % 32].value] + ds;
    NextCell(rb, 0);
    if |more| < n {
      NextCell(rb, |ds|);
      NextCell(rb, |more|);
    }
    hide Cell, Add8;
    forall i | 0 <= i < |more| ensures all[Cell(rb, i)] == Some(more[i]) {
      if i > 0 {
        NextCell(rb, i - 1);
        NextCell(rb, i);
        assert p[Cell(rb1, i - 1)] == Some(ds[i - 1]);
      }
    }
    forall i | 0 <= i < 32 ensures left[Cell(rb, i)] == if i < |more| then None else all[Cell(rb, i)] {
      var j: nat := if i > 0 then i - 1 else 31;
      NextCell(rb, j);
      NextCell(rb, i);
      assert left[Cell(rb1, j)] == if j < |ds| then None else p[Cell(rb1, j)];
    }
  }

  /** Popping what is ready takes exactly the packets up to the first gap. */
  lemma {:induction false} PoppedFields(s: Sock, n: nat)
    requires Sized(s) && n <= 32
    ensures var k := Ready(s, n); var t := Popped(s, k);
            && t.sb == s.sb && t.flight == s.flight && t.rb == Add8(s.rb, |Fronts(s, k)|)
            && UpToGap(s.slots, s.rb, n, t.slots, Fronts(s, k))
    decreases n
  {
    if Ready(s, n) > 0 {
      PoppedOne(s, n);
      hide *;
      var k := Ready(s, n);
      PoppedFields(Pop(s), n - 1);
      StepToGap(s.slots, s.rb, n, Popped(s, k).slots, Fronts(Pop(s), k - 1));
      NextCell(s.rb, k - 1);
    } else {
      NothingPopped(s, n);
    }
  }

  lemma NothingPopped(s: Sock, n: nat)
    requires Sized(s) && n <= 32 && Ready(s, n) == 0
    ensures Popped(s, 0) == s && Fronts(s, 0) == [] && s.rb == Add8(s.rb, 0) && |s.slots| == 32 && UpToGap(s.slots, s.rb, n, s.slots, [])
  {
    NextCell(s.rb, 0);
  }

  lemma PoppedOne(s: Sock, n: nat)
    requires Sized(s) && Ready(s, n) > 0
    ensures var k, p := Ready(s, n), Pop(s);
            && n > 0 && k == Ready(p, n - 1) + 1 && |s.slots| == 32 && s.slots[s.rb % 32].Some?
            && Sized(p) && p.rb == Add8(s.rb, 1) && p.sb == s.sb && p.flight == s.flight && p.slots == s.slots[s.rb % 32 := None]
            && Popped(s, k) == Popped(p, k - 1) && Fronts(s, k) == [s.slots[s.rb % 32].value] + Fronts(p, k - 1)
            && |Popped(s, k).slots| == 32
  {
  }

  lemma AckedFields(s: Sock, ack: byte)
    requires Sized(s)
    ensures var t := Acked(s, ack); AckTaken(s, ack, t) && t.rb == s.rb && t.slots == s.slots
  {
    SendCount(s);
  }

  /** Storing the packet is filling its slot. */
  lemma StoredFields(s: Sock, syn: byte, data: Data)
    requires Sized(s)
    ensures Stored(s, syn, data) == s.(slots := WithPacket(s, syn, data))
  {
    Wide(s.rb);
  }

  lemma Wide(rb: byte)
    ensures Sub8(Add8(rb, 32), rb) == 32
  {
  }

  /** What an established datagram does to a socket's windows, and the payloads it releases. */
  lemma ReceivedFields(s: Sock, p: Packet)
    requires Sized(s)
    ensures var r := Received(s, p);
            Sized(r) && |s.slots| == 32 && |r.slots| == 32 && AckTaken(s, p.ack, r) && SlotsTaken(s, p.syn, p.data, r, Released(s, p))
  {
    var a := Acked(s, p.ack);
    var t := Stored(a, p.syn, p.data);
    AckedFields(s, p.ack);
    StoredFields(a, p.syn, p.data);
    ReceivedIs(s, p);
    hide *;
    PoppedFields(t, 32);
    AckSame(s, p.ack, a, Received(s, p));
    SlotsSame(s, a, p.syn, p.data);
    TakenIs(s, p.syn, p.data, t, Received(s, p), Released(s, p));
  }

  lemma ReceivedIs(s: Sock, p: Packet)
    requires Sized(s)
    ensures var t := Stored(Acked(s, p.ack), p.syn, p.data);
            && Received(s, p) == Popped(t, Ready(t, 32)) && Released(s, p) == Fronts(t, Ready(t, 32))
            && |s.slots| == 32 && |t.slots| == 32 && |Received(s, p).slots| == 32 && Sized(Received(s, p))
  {
    hide Acked, Stored, Popped, Ready, Fronts;
  }

  lemma SlotsSame(m: Sock, a: Sock, syn: byte, data: Data)
    requires |m.slots| == 32 && a.rb == m.rb && a.slots == m.slots
    ensures WithPacket(a, syn, data) == WithPacket(m, syn, data)
  {
  }

  lemma TakenIs(m: Sock, syn: byte, data: Data, t: Sock, r: Sock, ds: seq<Data>)
    requires |m.slots| == 32 && t.slots == WithPacket(m, syn, data) && t.rb == m.rb && |r.slots| == 32 && |t.slots| == 32
    requires r.rb == Add8(t.rb, |ds|) && UpToGap(t.slots, t.rb, 32, r.slots, ds)
    ensures SlotsTaken(m, syn, data, r, ds)
  {
    hide UpToGap, WithPacket;
  }

  lemma AckSame(m: Sock, ack: byte, a: Sock, r: Sock)
    requires AckTaken(m, ack, a) && r.sb == a.sb && r.flight == a.flight
    ensures AckTaken(m, ack, r)
  {
  }

  /**
   The same on unbounded numbers, for the protocol's receive step: the send window; the packets that
   have arrived; those up to the first gap leave the window, and their payloads are released in order.
   */
  lemma ReceivedMeans(e: End, d: Dgram)
    requires forall n :: n in e.slots ==> e.rb <= n < e.rb + 32
    ensures var r, ds := ReceivedU(e, d), ReleasedU(e, d);
            var all := if e.rb <= d.syn < e.rb + 32 && d.syn !in e.slots then e.slots[d.syn := d.data] else e.slots;
            && r.sb == (if e.sb <= d.ack <= |e.log| then d.ack + 1 else e.sb) && r.log == e.log && r.put == e.put && r.closed == e.closed
            && r.rb == e.rb + |ds| && GapU(all, e.rb, r.slots, ds)
  {
    var t := StoredU(AckedU(e, d.ack), d.syn, d.data);
    assert forall n :: n in t.slots ==> e.rb <= n < e.rb + 32;
    PoppedMeans(t, 32);
    hide ReadyU, PoppedU, FrontsU, GapU;
  }

  /** Of the packets `all`, `ds` are the payloads from `rb` up to the first gap; `left` are the others. */
  ghost predicate GapU(all: map<nat, Data>, rb: nat, left: map<nat, Data>, ds: seq<Data>)
  {
    && (forall n :: rb <= n < rb + |ds| ==> n in all && ds[n - rb] == all[n]) && rb + |ds| !in all
    && forall n :: (n in left <==> n in all && n >= rb + |ds|) && (n in left ==> left[n] == all[n])
  }

  lemma StepGapU(all: map<nat, Data>, rb: nat, left: map<nat, Data>, ds: seq<Data>)
    requires rb in all && GapU(all - {rb}, rb + 1, left, ds)
    ensures GapU(all, rb, left, [all[rb]] + ds)
  {
    var p, more := all - {rb}, [all[rb]] + ds;
    forall n | rb <= n < rb + |more| ensures n in all && more[n - rb] == all[n] {
      if n > rb {
        assert n in p && ds[n - (rb + 1)] == p[n];
      }
    }
  }

  lemma {:induction false} PoppedMeans(e: End, n: nat)
    requires forall i :: i in e.slots ==> e.rb <= i < e.rb + n
    ensures var k := ReadyU(e, n); var r, ds := PoppedU(e, k), FrontsU(e, k);
            r == e.(rb := e.rb + |ds|, slots := r.slots) && GapU(e.slots, e.rb, r.slots, ds)
    decreases n
  {
    hide *;
    if n > 0 && e.rb in e.slots {
      PopNextU(e, n);
      var p, k := PopU(e), ReadyU(e, n);
      PoppedMeans(p, n - 1);
      StepGapU(e.slots, e.rb, PoppedU(e, k).slots, FrontsU(p, k - 1));
    } else {
      NothingU(e, n);
    }
  }

  lemma NothingU(e: End, n: nat)
    requires !(n > 0 && e.rb in e.slots) && forall i :: i in e.slots ==> e.rb <= i < e.rb + n
    ensures ReadyU(e, n) == 0 && PoppedU(e, 0) == e && FrontsU(e, 0) == [] && GapU(e.slots, e.rb, e.slots, [])
  {
  }

  lemma PopNextU(e: End, n: nat)
    requires n > 0 && e.rb in e.slots && forall i :: i in e.slots ==> e.rb <= i < e.rb + n
    ensures var k, p := ReadyU(e, n), PopU(e);
            && k == 1 + ReadyU(p, n - 1) && PoppedU(e, k) == PoppedU(p, k - 1) && FrontsU(e, k) == [e.slots[e.rb]] + FrontsU(p, k - 1)
            && p == e.(rb := e.rb + 1, slots := e.slots - {e.rb}) && forall i :: i in p.slots ==> p.rb <= i < p.rb + (n - 1)
  {
  }
}
