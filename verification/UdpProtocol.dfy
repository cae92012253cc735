/**
 Two connected ends over a network that loses, duplicates, reorders and delays
 datagrams: in every reachable state each side has put into its receive ring a
 prefix of the bytes the other side took from its send ring.
 */
module UdpProtocol {
  import opened Options
  import opened Bytes
  import opened UdpWindow

  /** An end: unbounded numbers beside the 8-bit state that is really kept. */
  datatype Node = Node(u: End, s: Sock)

  /** `fromA`, `fromB`: every datagram ever sent; any of them may arrive any number of times, or never. */
  datatype System = System(a: Node, b: Node, fromA: set<Dgram>, fromB: set<Dgram>)

  datatype Action =
    | Fill(payloads: seq<Data>)                    // number new packets
    | Send(n: nat)                                 // transmit packet n, for the first time or again
    | SendAck                                      // acknowledge without data
    | Receive(d: Dgram)
    | Overflow(d: Dgram, whole: nat, part: nat)    // the receive ring is full after some of the bytes: close
    | Fail                                         // a datagram with a wrong state, or too short: close

  /** Neither number of the datagram is more than 224 behind. */
  predicate Fresh(e: End, d: Dgram)
  {
    e.sb <= d.ack + MAX_AGE && e.rb <= d.syn + MAX_AGE
  }

  function Kept(e: End, d: Dgram): End
  {
    StoredU(AckedU(e, d.ack), d.syn, d.data)
  }

  /** What an end may do, given the datagrams its peer has sent. */
  predicate Enabled(e: End, act: Action, incoming: set<Dgram>)
  {
    && !e.closed
    && match act
       case Fill(ps) => EndOf(e) + |ps| <= e.sb + WINDOW
       case Send(n) => e.sb <= n < EndOf(e)
       case SendAck => true
       case Receive(d) => d in incoming && d.established && Fresh(e, d)
       case Overflow(d, whole, part) =>
         && d in incoming && d.established && Fresh(e, d)
         && whole < ReadyU(Kept(e, d), 32) && part <= |FrontsU(Kept(e, d), whole + 1)[whole]|
       case Fail => true
  }

  function ActU(e: End, act: Action): End
    requires act.Overflow? ==> act.part <= |FrontsU(Kept(e, act.d), act.whole + 1)[act.whole]|
  {
    match act
    case Fill(ps) => e.(log := e.log + ps)
    case Send(_) => e
    case SendAck => e
    case Receive(d) => ReceivedU(e, d).(put := e.put + Flatten(ReleasedU(e, d)))
    case Overflow(d, whole, part) =>
      var t := Kept(e, d);
      PoppedU(t, whole).(put := e.put + Flatten(FrontsU(t, whole)) + FrontsU(t, whole + 1)[whole][..part], closed := true)
    case Fail => e.(closed := true)
  }

  /** The same on the 8-bit state: it sees only what is on the wire. */
  function Act8(s: Sock, act: Action): Sock
    requires Sized(s)
  {
    match act
    case Fill(ps) => s.(flight := s.flight + ps)
    case Send(_) => s
    case SendAck => s
    case Receive(d) => Received(s, Wire(d))
    case Overflow(d, whole, _) => Popped(Stored(Acked(s, Wire(d).ack), Wire(d).syn, Wire(d).data), whole)
    case Fail => s
  }

  function Sends(e: End, act: Action): set<Dgram>
    requires act.Send? ==> 1 <= act.n <= |e.log| && 1 <= e.rb
    requires act.SendAck? ==> 1 <= e.sb && 1 <= e.rb
  {
    match act
    case Send(n) => {DgramAt(e, n)}
    case SendAck => {PureAckU(e)}
    case _ => {}
  }

  // ---------------------------------------------------------------- one direction

  /** A datagram of `snd` is a numbered packet, or a bare acknowledgement with a number already acknowledged. */
  predicate Genuine(snd: End, d: Dgram)
  {
    (d.syn < snd.sb && d.data == []) || (1 <= d.syn <= |snd.log| && d.data == snd.log[d.syn - 1])
  }

  predicate SlotsGenuine(snd: End, rcv: End)
  {
    forall n :: n in rcv.slots ==> 1 <= n && rcv.rb <= n < EndOf(snd) && rcv.slots[n] == snd.log[n - 1]
  }

  /** The bytes put into the receive ring: all those of the packets below the window, or, once closed, a prefix of the rest too. */
  predicate PutPrefix(snd: End, rcv: End)
    requires 1 <= rcv.rb <= EndOf(snd)
  {
    && rcv.put <= Flatten(snd.log)
    && (!rcv.closed ==> rcv.put == Flatten(snd.log[..rcv.rb - 1]))
  }

  ghost predicate Flow(snd: End, rcv: End, ds: set<Dgram>)
  {
    && 1 <= snd.sb <= rcv.rb <= EndOf(snd) <= snd.sb + WINDOW
    && SlotsGenuine(snd, rcv)
    && PutPrefix(snd, rcv)
    && (forall d :: d in ds && d.established ==> Genuine(snd, d))
  }

  /** Every acknowledgement an end has sent is for packets it has taken out of its window. */
  ghost predicate AcksGenuine(e: End, ds: set<Dgram>)
  {
    forall d :: d in ds && d.established ==> d.ack < e.rb
  }

  lemma FlowFill(snd: End, rcv: End, ds: set<Dgram>, ps: seq<Data>)
    requires Flow(snd, rcv, ds) && EndOf(snd) + |ps| <= snd.sb + WINDOW
    ensures Flow(snd.(log := snd.log + ps), rcv, ds)
  {
    FlattenPrefix(snd.log, snd.log + ps);
    assert (snd.log + ps)[..rcv.rb - 1] == snd.log[..rcv.rb - 1];
    hide Flatten;
  }

  lemma FlowSend(snd: End, rcv: End, ds: set<Dgram>, n: nat)
    requires Flow(snd, rcv, ds) && snd.sb <= n < EndOf(snd) && 1 <= snd.rb
    ensures Flow(snd, rcv, ds + {DgramAt(snd, n), PureAckU(snd)})
  {
    hide PutPrefix, SlotsGenuine;
  }

  /** An acknowledgement moves the send window, never beyond the receiver. */
  lemma FlowAcked(snd: End, rcv: End, ds: set<Dgram>, ack: nat)
    requires Flow(snd, rcv, ds) && ack < rcv.rb
    ensures Flow(AckedU(snd, ack), rcv, ds)
  {
    hide Flatten;
  }

  /** A genuine packet is stored where it belongs; a bare acknowledgement is never taken for data. */
  lemma FlowStored(snd: End, rcv: End, ds: set<Dgram>, d: Dgram)
    requires Flow(snd, rcv, ds) && Genuine(snd, d)
    ensures Flow(snd, StoredU(rcv, d.syn, d.data), ds)
    ensures d.syn < snd.sb ==> StoredU(rcv, d.syn, d.data) == rcv
    ensures d.syn < rcv.rb + WINDOW
  {
    hide Flatten;
  }

  /** Packets leave the receive window without gaps, none that the sender has not numbered. */
  lemma {:induction false} PoppedGenuine(snd: End, rcv: End, n: nat, k: nat)
    requires SlotsGenuine(snd, rcv) && 1 <= rcv.rb <= EndOf(snd) && k <= ReadyU(rcv, n)
    ensures rcv.rb + k <= EndOf(snd)
    ensures SlotsGenuine(snd, PoppedU(rcv, k))
    ensures PoppedU(rcv, k) == rcv.(rb := rcv.rb + k, slots := PoppedU(rcv, k).slots)
    decreases k
  {
    if k > 0 {
      PoppedGenuine(snd, PopU(rcv), n - 1, k - 1);
    }
  }

  /** They leave it in order, with the payloads the sender gave them. */
  lemma {:induction false} FrontsGenuine(snd: End, rcv: End, n: nat, k: nat)
    requires SlotsGenuine(snd, rcv) && 1 <= rcv.rb && k <= ReadyU(rcv, n) && rcv.rb - 1 + k <= |snd.log|
    ensures FrontsU(rcv, k) == snd.log[rcv.rb - 1..rcv.rb - 1 + k]
    decreases k
  {
    if k > 0 {
      PopGenuine(snd, rcv, n, k);
      var next := PopU(rcv);
      hide SlotsGenuine, ReadyU, PopU;
      FrontsGenuine(snd, next, n - 1, k - 1);
      assert FrontsU(rcv, k) == [snd.log[rcv.rb - 1]] + FrontsU(next, k - 1);
    }
  }

  lemma PopGenuine(snd: End, rcv: End, n: nat, k: nat)
    requires SlotsGenuine(snd, rcv) && 1 <= rcv.rb && 0 < k <= ReadyU(rcv, n) && rcv.rb - 1 + k <= |snd.log|
    ensures n > 0 && SlotsGenuine(snd, PopU(rcv)) && PopU(rcv).rb == rcv.rb + 1 && k - 1 <= ReadyU(PopU(rcv), n - 1)
    ensures rcv.rb in rcv.slots && rcv.slots[rcv.rb] == snd.log[rcv.rb - 1]
  {
  }

  /** Bytes of a run of packets. */
  lemma FlattenRun(log: seq<Data>, i: nat, k: nat)
    requires i + k <= |log|
    ensures Flatten(log[..i]) + Flatten(log[i..i + k]) == Flatten(log[..i + k]) <= Flatten(log)
  {
    assert log[..i + k] == log[..i] + log[i..i + k];
    FlattenConcat(log[..i], log[i..i + k]);
    FlattenPrefix(log[..i + k], log);
  }

  /** Releasing packets keeps the bytes put a prefix of the bytes taken. */
  lemma FlowPopped(snd: End, t: End, ds: set<Dgram>, k: nat)
    requires Flow(snd, t, ds) && !t.closed && k <= ReadyU(t, 32)
    ensures Flow(snd, PoppedU(t, k).(put := t.put + Flatten(FrontsU(t, k))), ds)
    ensures PoppedU(t, k).sb == t.sb && PoppedU(t, k).log == t.log && PoppedU(t, k).rb == t.rb + k
  {
    hide Flatten, ReadyU, PoppedU, FrontsU, PutPrefix, SlotsGenuine;
    PoppedGenuine(snd, t, 32, k);
    FrontsGenuine(snd, t, 32, k);
    FlowMoved(snd, t, ds, PoppedU(t, k).(put := t.put + Flatten(FrontsU(t, k))), k);
  }

  lemma FlowMoved(snd: End, t: End, ds: set<Dgram>, u: End, k: nat)
    requires Flow(snd, t, ds) && !t.closed && t.rb + k <= EndOf(snd)
    requires u == t.(rb := t.rb + k, slots := u.slots, put := t.put + Flatten(snd.log[t.rb - 1..t.rb - 1 + k]))
    requires SlotsGenuine(snd, PoppedU(t, k)) && u.slots == PoppedU(t, k).slots && PoppedU(t, k).rb == u.rb
    ensures Flow(snd, u, ds)
  {
    FlattenRun(snd.log, t.rb - 1, k);
    hide Flatten, ReadyU, PoppedU, FrontsU;
  }

  /** The receiving side of an arrival. */
  lemma FlowReceived(snd: End, rcv: End, ds: set<Dgram>, d: Dgram)
    requires Flow(snd, rcv, ds) && Genuine(snd, d) && !rcv.closed
    ensures Flow(snd, ActU(rcv, Receive(d)), ds)
    ensures var u := ActU(rcv, Receive(d));
            u.sb == AckedU(rcv, d.ack).sb && u.log == rcv.log && u.rb >= rcv.rb && d.syn < rcv.rb + WINDOW
  {
    hide Flow, ReadyU, PoppedU, FrontsU, Flatten, Genuine;
    FlowAckedReceiver(snd, rcv, ds, d.ack);
    FlowStored(snd, AckedU(rcv, d.ack), ds, d);
    FlowPopped(snd, Kept(rcv, d), ds, ReadyU(Kept(rcv, d), 32));
  }

  lemma FlowAckedReceiver(snd: End, rcv: End, ds: set<Dgram>, ack: nat)
    requires Flow(snd, rcv, ds)
    ensures Flow(snd, AckedU(rcv, ack), ds)
  {
    hide Flatten;
  }

  /** An arrival whose packets do not all fit the receive ring: some go in whole, the next in part. */
  lemma FlowOverflow(snd: End, rcv: End, ds: set<Dgram>, act: Action)
    requires act.Overflow? && Flow(snd, rcv, ds) && Genuine(snd, act.d) && Enabled(rcv, act, {act.d})
    ensures Flow(snd, ActU(rcv, act), ds)
    ensures var u := ActU(rcv, act);
            u.sb == AckedU(rcv, act.d.ack).sb && u.log == rcv.log && u.rb >= rcv.rb && act.d.syn < rcv.rb + WINDOW
  {
    hide Flow, ReadyU, PoppedU, FrontsU, Flatten, Genuine;
    FlowAckedReceiver(snd, rcv, ds, act.d.ack);
    FlowStored(snd, AckedU(rcv, act.d.ack), ds, act.d);
    FlowCut(snd, Kept(rcv, act.d), ds, act.whole, act.part);
  }

  lemma FlowCut(snd: End, t: End, ds: set<Dgram>, whole: nat, part: nat)
    requires Flow(snd, t, ds) && !t.closed && whole < ReadyU(t, 32) && part <= |FrontsU(t, whole + 1)[whole]|
    ensures Flow(snd, PoppedU(t, whole).(put := t.put + Flatten(FrontsU(t, whole)) + FrontsU(t, whole + 1)[whole][..part],
                                         closed := true), ds)
    ensures PoppedU(t, whole).sb == t.sb && PoppedU(t, whole).log == t.log && PoppedU(t, whole).rb == t.rb + whole
  {
    hide *;
    CutFacts(snd, t, ds, whole);
    FlowPopped(snd, t, ds, whole);
    var i := t.rb - 1 + whole;
    var u := PoppedU(t, whole).(put := t.put + Flatten(FrontsU(t, whole)));
    FlattenPart(snd.log, i, part);
    FlowClose(snd, u, ds, snd.log[i][..part]);
  }

  lemma CutFacts(snd: End, t: End, ds: set<Dgram>, whole: nat)
    requires Flow(snd, t, ds) && whole < ReadyU(t, 32)
    ensures 1 <= t.rb && t.rb - 1 + whole < |snd.log|
    ensures FrontsU(t, whole + 1)[whole] == snd.log[t.rb - 1 + whole]
    ensures PoppedU(t, whole).closed == t.closed && PoppedU(t, whole).rb == t.rb + whole
  {
    hide Flatten, ReadyU, PoppedU, FrontsU;
    PoppedGenuine(snd, t, 32, whole + 1);
    FrontsGenuine(snd, t, 32, whole + 1);
    PoppedGenuine(snd, t, 32, whole);
  }

  /** Closing after some bytes of the packet at the front of the window. */
  lemma FlowClose(snd: End, u: End, ds: set<Dgram>, more: seq<byte>)
    requires Flow(snd, u, ds) && !u.closed
    requires Flatten(snd.log[..u.rb - 1]) + more <= Flatten(snd.log)
    ensures Flow(snd, u.(put := u.put + more, closed := true), ds)
  {
    hide Flatten;
  }

  /** A prefix of the next packet keeps the bytes a prefix. */
  lemma FlattenPart(log: seq<Data>, i: nat, part: nat)
    requires i < |log| && part <= |log[i]|
    ensures Flatten(log[..i]) + log[i][..part] <= Flatten(log)
  {
    FlattenRun(log, i, 1);
    assert log[i..i + 1] == [log[i]];
    FlattenCons(log[i], []);
    hide *;
    assert [log[i]] + [] == [log[i]];
  }

  /** What a sender's direction depends on. */
  lemma FlowSameSender(snd: End, snd': End, rcv: End, ds: set<Dgram>)
    requires Flow(snd, rcv, ds) && snd'.sb == snd.sb && snd'.log == snd.log
    ensures Flow(snd', rcv, ds)
  {
    hide Flatten;
  }

  lemma AgreeSame(e: End, e': End, s: Sock)
    requires Agree(e, s) && e'.sb == e.sb && e'.log == e.log && e'.rb == e.rb && e'.slots == e.slots
    ensures Agree(e', s)
  {
  }

  // ---------------------------------------------------------------- both directions

  /** What holds of an end, the peer, and the datagrams each has sent. */
  ghost predicate NodeInv(me: Node, peer: End, mine: set<Dgram>, theirs: set<Dgram>)
  {
    && Agree(me.u, me.s)
    && Flow(me.u, peer, mine) && Flow(peer, me.u, theirs)
    && AcksGenuine(me.u, mine) && AcksGenuine(peer, theirs)
  }

  ghost predicate ActGood(me: Node, peer: End, mine: set<Dgram>, theirs: set<Dgram>, act: Action)
    requires Sized(me.s) && Enabled(me.u, act, theirs) && 1 <= me.u.sb && 1 <= me.u.rb
  {
    NodeInv(Node(ActU(me.u, act), Act8(me.s, act)), peer, mine + Sends(me.u, act), theirs)
  }

  lemma ActFill(me: Node, peer: End, mine: set<Dgram>, theirs: set<Dgram>, ps: seq<Data>)
    requires NodeInv(me, peer, mine, theirs) && Enabled(me.u, Fill(ps), theirs)
    ensures ActGood(me, peer, mine, theirs, Fill(ps))
  {
    var u := ActU(me.u, Fill(ps));
    FlowFill(me.u, peer, mine, ps);
    assert mine + {} == mine;
    assert Flow(peer, u, theirs);
    assert u.log[u.sb - 1..] == me.u.log[u.sb - 1..] + ps;
    assert SlotsAgree(u, Act8(me.s, Fill(ps)));
    hide Flow, SlotsAgree;
  }

  lemma ActSend(me: Node, peer: End, mine: set<Dgram>, theirs: set<Dgram>, act: Action)
    requires NodeInv(me, peer, mine, theirs) && Enabled(me.u, act, theirs) && (act.Send? || act.SendAck?)
    ensures ActGood(me, peer, mine, theirs, act)
  {
    hide Agree, PutPrefix, SlotsGenuine;
  }

  lemma ActFail(me: Node, peer: End, mine: set<Dgram>, theirs: set<Dgram>)
    requires NodeInv(me, peer, mine, theirs) && Enabled(me.u, Fail, theirs)
    ensures ActGood(me, peer, mine, theirs, Fail)
  {
    var u := ActU(me.u, Fail);
    FlowSameSender(me.u, u, peer, mine);
    AgreeSame(me.u, u, me.s);
    assert Flow(peer, u, theirs) by { hide Flatten; }
    assert mine + {} == mine;
    hide Agree, Flow;
  }

  /** The sending side of an arrival. */
  lemma ArrivalAcks(me: Node, peer: End, mine: set<Dgram>, theirs: set<Dgram>, d: Dgram, u: End)
    requires NodeInv(me, peer, mine, theirs) && d in theirs && d.established
    requires u.sb == AckedU(me.u, d.ack).sb && u.log == me.u.log && u.rb >= me.u.rb
    ensures Flow(u, peer, mine) && AcksGenuine(u, mine)
  {
    FlowAcked(me.u, peer, mine, d.ack);
    FlowSameSender(AckedU(me.u, d.ack), u, peer, mine);
    hide Flow;
  }

  lemma ActReceive(me: Node, peer: End, mine: set<Dgram>, theirs: set<Dgram>, d: Dgram)
    requires NodeInv(me, peer, mine, theirs) && Enabled(me.u, Receive(d), theirs)
    ensures ActGood(me, peer, mine, theirs, Receive(d))
  {
    var u := ActU(me.u, Receive(d));
    FlowReceived(peer, me.u, theirs, d);
    hide ReceivedU, Received, SlotsGenuine, PutPrefix;
    ArrivalAcks(me, peer, mine, theirs, d, u);
    ReceiveAgrees(me.u, me.s, d);
    hide Agree, Flow;
    AgreeSame(ReceivedU(me.u, d), u, Received(me.s, Wire(d)));
    assert mine + {} == mine;
  }

  lemma ActOverflow(me: Node, peer: End, mine: set<Dgram>, theirs: set<Dgram>, act: Action)
    requires act.Overflow? && NodeInv(me, peer, mine, theirs) && Enabled(me.u, act, theirs)
    ensures ActGood(me, peer, mine, theirs, act)
  {
    var d, u := act.d, ActU(me.u, act);
    var t := Kept(me.u, d);
    FlowOverflow(peer, me.u, theirs, act);
    hide PoppedU, Popped, SlotsGenuine, PutPrefix, ReadyU, FrontsU;
    ArrivalAcks(me, peer, mine, theirs, d, u);
    AckAgrees(me.u, me.s, d.ack);
    var s1 := Acked(me.s, d.ack % 256);
    StoreAgrees(AckedU(me.u, d.ack), s1, d.syn, d.data);
    PoppedAgrees(t, Stored(s1, d.syn % 256, d.data), act.whole);
    AgreeSame(PoppedU(t, act.whole), u, Act8(me.s, act));
    assert mine + {} == mine;
    hide Agree, Flow;
  }

  /** One action of `me`, which has sent `mine` and may receive from `theirs`. */
  lemma ActKeeps(me: Node, peer: End, mine: set<Dgram>, theirs: set<Dgram>, act: Action)
    requires NodeInv(me, peer, mine, theirs) && Enabled(me.u, act, theirs)
    ensures ActGood(me, peer, mine, theirs, act)
  {
    hide *;
    match act {
      case Fill(ps) => ActFill(me, peer, mine, theirs, ps);
      case Send(n) => ActSend(me, peer, mine, theirs, act);
      case SendAck => ActSend(me, peer, mine, theirs, act);
      case Receive(d) => ActReceive(me, peer, mine, theirs, d);
      case Overflow(d, whole, part) => ActOverflow(me, peer, mine, theirs, act);
      case Fail => ActFail(me, peer, mine, theirs);
    }
  }

  // ---------------------------------------------------------------- runs

  ghost predicate Inv(sys: System)
  {
    && NodeInv(sys.a, sys.b.u, sys.fromA, sys.fromB)
    && NodeInv(sys.b, sys.a.u, sys.fromB, sys.fromA)
  }

  /** A step of the system: one end acts. */
  datatype Step = Step(byA: bool, act: Action)

  predicate Can(sys: System, step: Step)
  {
    && Sized(sys.a.s) && Sized(sys.b.s)
    && 1 <= sys.a.u.sb && 1 <= sys.a.u.rb && 1 <= sys.b.u.sb && 1 <= sys.b.u.rb
    && if step.byA then Enabled(sys.a.u, step.act, sys.fromB) else Enabled(sys.b.u, step.act, sys.fromA)
  }

  function After(sys: System, step: Step): System
    requires Can(sys, step)
  {
    var act := step.act;
    if step.byA then
      System(Node(ActU(sys.a.u, act), Act8(sys.a.s, act)), sys.b, sys.fromA + Sends(sys.a.u, act), sys.fromB)
    else
      System(sys.a, Node(ActU(sys.b.u, act), Act8(sys.b.s, act)), sys.fromA, sys.fromB + Sends(sys.b.u, act))
  }

  /** The states a run goes through. */
  predicate IsRun(run: seq<System>, steps: seq<Step>)
  {
    && |run| == |steps| + 1
    && run[0] == Connected()
    && forall i :: 0 <= i < |steps| ==> Can(run[i], steps[i]) && run[i + 1] == After(run[i], steps[i])
  }

  /**
   Both ends right after the handshake: each has numbered one empty packet, still in flight, and
   taken the other's out of its window.  The listening side's answer and the caller's first
   datagram, whose state is not `established`, may still be under way.
   */
  function Connected(): System
  {
    var u := End(1, [[]], 2, map[], [], false);
    var s := Sock(1, [[]], 2, seq(32, _ => None));
    System(Node(u, s), Node(u, s), {Dgram(false, 1, 0, [])}, {Dgram(true, 1, 1, [])})
  }

  lemma ConnectedGood()
    ensures Inv(Connected())
  {
    var u := Connected().a.u;
    assert u.log[..1] == [[]] && u.log[0..] == [[]];
    FlattenSnoc([], []);
    assert [] + [[]] == u.log;
  }

  lemma StepKeeps(sys: System, step: Step)
    requires Inv(sys) && Can(sys, step)
    ensures Inv(After(sys, step))
  {
    hide Agree, Flow, AcksGenuine, ActU, Act8, Sends;
    if step.byA {
      ActKeeps(sys.a, sys.b.u, sys.fromA, sys.fromB, step.act);
      PeerKeeps(sys.b, sys.a.u, sys.fromB, sys.fromA, ActU(sys.a.u, step.act), sys.fromA + Sends(sys.a.u, step.act));
    } else {
      ActKeeps(sys.b, sys.a.u, sys.fromB, sys.fromA, step.act);
      PeerKeeps(sys.a, sys.b.u, sys.fromA, sys.fromB, ActU(sys.b.u, step.act), sys.fromB + Sends(sys.b.u, step.act));
    }
  }

  /** The invariant seen from the end that did not act. */
  lemma PeerKeeps(me: Node, peer: End, mine: set<Dgram>, theirs: set<Dgram>, peer': End, theirs': set<Dgram>)
    requires NodeInv(me, peer, mine, theirs)
    requires Flow(peer', me.u, theirs') && Flow(me.u, peer', mine) && AcksGenuine(peer', theirs')
    ensures NodeInv(me, peer', mine, theirs')
  {
  }

  lemma {:induction false} RunKeeps(run: seq<System>, steps: seq<Step>, i: nat)
    requires IsRun(run, steps) && i < |run|
    ensures Inv(run[i])
  {
    if i == 0 {
      ConnectedGood();
    } else {
      RunKeeps(run, steps, i - 1);
      hide Inv, Can, After;
      StepKeeps(run[i - 1], steps[i - 1]);
    }
  }

  /** Bytes an end has taken from its send ring and numbered. */
  function Taken(e: End): seq<byte>
  {
    Flatten(e.log)
  }

  /** Reliable delivery, in order and without loss, duplication or invention, in both directions. */
  lemma Reliable(run: seq<System>, steps: seq<Step>, i: nat)
    requires IsRun(run, steps) && i < |run|
    ensures run[i].b.u.put <= Taken(run[i].a.u) && run[i].a.u.put <= Taken(run[i].b.u)
  {
    RunKeeps(run, steps, i);
  }

  /**
   In every reachable state the 8-bit windows are the unbounded ones: the send window starts no
   later than the peer's receive window, which starts no later than the send window's end, and at
   most 32 packets are in flight.
   */
  lemma WindowsRefine(run: seq<System>, steps: seq<Step>, i: nat)
    requires IsRun(run, steps) && i < |run|
    ensures var (a, b) := (run[i].a, run[i].b);
            && a.u.sb <= b.u.rb <= EndOf(a.u) <= a.u.sb + WINDOW
            && b.u.sb <= a.u.rb <= EndOf(b.u) <= b.u.sb + WINDOW
            && a.s.sb == a.u.sb % 256 && a.s.rb == a.u.rb % 256 && |a.s.flight| == EndOf(a.u) - a.u.sb
            && b.s.sb == b.u.sb % 256 && b.s.rb == b.u.rb % 256 && |b.s.flight| == EndOf(b.u) - b.u.sb
  {
    RunKeeps(run, steps, i);
  }

  /** A datagram that may arrive at an end in a reachable state passes each 8-bit window test exactly when it should. */
  lemma TestsRefine(run: seq<System>, steps: seq<Step>, i: nat, d: Dgram)
    requires IsRun(run, steps) && i < |run|
    requires d in run[i].fromA && d.established && Fresh(run[i].b.u, d)
    ensures var (u, s) := (run[i].b.u, run[i].b.s);
            && (IsValidIndex(s.sb, SendEnd(s), Wire(d).ack) <==> u.sb <= d.ack < EndOf(u))
            && (IsValidIndex(s.rb, Add8(s.rb, 32), Wire(d).syn) <==> u.rb <= d.syn < u.rb + WINDOW)
            && (d.syn < run[i].a.u.sb ==> !IsValidIndex(s.rb, Add8(s.rb, 32), Wire(d).syn))
  {
    RunKeeps(run, steps, i);
    hide *;
    InvParts(run[i]);
    NodeTests(run[i].b, run[i].a.u, run[i].fromB, run[i].fromA, d);
  }

  lemma InvParts(sys: System)
    requires Inv(sys)
    ensures NodeInv(sys.a, sys.b.u, sys.fromA, sys.fromB) && NodeInv(sys.b, sys.a.u, sys.fromB, sys.fromA)
  {
  }

  lemma NodeTests(me: Node, peer: End, mine: set<Dgram>, theirs: set<Dgram>, d: Dgram)
    requires NodeInv(me, peer, mine, theirs) && d in theirs && d.established && Fresh(me.u, d)
    ensures var (u, s) := (me.u, me.s);
            && (IsValidIndex(s.sb, SendEnd(s), Wire(d).ack) <==> u.sb <= d.ack < EndOf(u))
            && (IsValidIndex(s.rb, Add8(s.rb, 32), Wire(d).syn) <==> u.rb <= d.syn < u.rb + WINDOW)
            && (d.syn < peer.sb ==> !IsValidIndex(s.rb, Add8(s.rb, 32), Wire(d).syn))
  {
    var (u, s) := (me.u, me.s);
    NodeBounds(me, peer, mine, theirs, d);
    AgreeNumbers(u, s);
    hide Agree, Flow, AcksGenuine, IsValidIndex, Add8, EndOf;
    IndexTest(u.sb, |s.flight|, d.ack);
    IndexTest(u.rb, 32, d.syn);
  }

  lemma NodeBounds(me: Node, peer: End, mine: set<Dgram>, theirs: set<Dgram>, d: Dgram)
    requires NodeInv(me, peer, mine, theirs) && d in theirs && d.established
    ensures d.ack < EndOf(me.u) && d.syn < me.u.rb + WINDOW && peer.sb <= me.u.rb
    ensures Agree(me.u, me.s)
  {
    FlowStored(peer, me.u, theirs, d);
    hide SlotsGenuine, PutPrefix, Agree;
  }
}
