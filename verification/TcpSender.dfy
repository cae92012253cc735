/**
 The sending half of a TCP connection: framed messages are queued in a ring, and
 the socket takes as much of it as it likes.
 */
module TcpSender {
  import opened Bytes
  import opened FrameStream
  import opened LoopBuffer

  /** Most bytes handed to one `send`. */
  const SOCKET_CHUNK: nat := 64 * 1024

  /** Size of the staging buffer in which `Send` puts header and payload together. */
  const STAGING: nat := 8 * 64 * 1024

  lemma Prefix(a: seq<byte>, p: nat, c: seq<byte>, n: nat, k: nat)
    requires k <= n <= |c| && p + n <= |a| && a[p..p + n] == c[..n]
    ensures a[p..p + k] == c[..k]
  {
    assert a[p..p + k] == a[p..p + n][..k];
  }

  /** Bytes move from the ring to the wire. */
  lemma Shift(wire: seq<byte>, c: seq<byte>, k: nat)
    requires k <= |c|
    ensures (wire + c[..k]) + c[k..] == wire + c
  {
  }

  class Sender {
    const ring: LoopBuff
    ghost var sent: seq<seq<byte>>   // messages accepted by Send
    ghost var wire: seq<byte>        // bytes taken by the socket

    ghost predicate Valid()
      reads this, ring, ring.buf
    {
      && ring.Valid()
      && Sendable(sent)
      && wire + ring.Contents() == EncodeAll(sent)
    }

    constructor (n: nat)
      requires 0 < n
      ensures Valid() && fresh(ring) && fresh(ring.buf)
      ensures sent == [] && wire == []
    {
      var r := new LoopBuff(n);
      ring := r;
      sent, wire := [], [];
    }

    /** Queues header and payload, or nothing when they do not fit. */
    method Send(msg: seq<byte>) returns (ok: bool)
      requires Valid() && HEADER + |msg| <= STAGING
      modifies this, ring, ring.buf
      ensures Valid() && ring.buf == old(ring.buf)
      ensures wire == old(wire)
      ensures sent == if ok then old(sent) + [msg] else old(sent)
      ensures ok <==> HEADER + |msg| <= ring.total - old(|ring.Contents()|)
    {
      hide LoopBuff.Contents, LoopBuff.Valid, LoopBuff.MarksOk, LoopBuff.Marked, Encode, EncodeAll;
      var empty := ring.IsEmpty();
      if empty {
        ring.Clear();
      }
      if HEADER + |msg| > ring.total {
        return false;
      }
      var frame := Encode(msg);
      ghost var stored := ring.Contents();
      ok := ring.PushBuff(frame);
      if ok {
        EncodeAllSnoc(sent, msg);
        assert (wire + stored) + frame == wire + (stored + frame);
        sent := sent + [msg];
      }
    }

    /** The socket has taken the first k bytes: they leave the ring. */
    method Hand(p: nat, k: nat) returns (out: seq<byte>)
      requires Valid() && 0 < k <= |ring.Contents()| && p + k <= ring.total && ring.buf[p..p + k] == ring.Contents()[..k]
      modifies this`wire, ring
      ensures Valid() && |out| == k && wire == old(wire) + out && old(ring.Contents()) == out + ring.Contents()
    {
      hide LoopBuff.Contents, LoopBuff.Valid, LoopBuff.MarksOk, EncodeAll, Sendable;
      out := ring.buf[p..p + k];
      ghost var c := ring.Contents();
      Shift(wire, c, k);
      assert c == c[..k] + c[k..];
      var done := ring.DiscardBuff(k);
      wire := wire + out;
    }

    /** One `send`: the socket is offered what lies in one stretch, up to 64K, and takes as much of it as it likes. */
    method PostSend(taken: nat) returns (out: seq<byte>)
      requires Valid()
      modifies this, ring
      ensures Valid() && sent == old(sent)
      ensures wire == old(wire) + out
      ensures |out| <= taken && |out| <= SOCKET_CHUNK && |out| <= old(ring.OutRun())
      ensures |out| == taken || |out| == SOCKET_CHUNK || |out| == old(ring.OutRun())
      ensures old(ring.Contents()) == out + ring.Contents()
      ensures taken > 0 && old(ring.Contents()) != [] ==> out != []
    {
      ghost var c := ring.Contents();
      hide Valid, LoopBuff.Contents, LoopBuff.MarksOk, LoopBuff.OutRun;
      var p, n := ring.GetOutCursorPtr();
      var offered := if SOCKET_CHUNK < n then SOCKET_CHUNK else n;
      var k := if taken < offered then taken else offered;
      if 0 >= k {
        assert c == [] + c;
        return [];
      }
      Prefix(ring.buf[..], p, c, n, k);
      out := Hand(p, k);
    }
  }
}
