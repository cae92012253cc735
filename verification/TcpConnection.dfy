/**
 A sender and a receiver joined by a TCP stream: what the session gets is what was sent.
 */
module TcpConnection {
  import opened Bytes
  import opened FrameStream
  import opened TcpSender
  import opened TcpReceiver

  /**
   Whatever has been sent, however the stream was cut into reads and whatever the
   main thread has popped so far: the payloads delivered, followed by those whose
   event is pending, are the first messages sent, in order; and once everything
   sent has arrived they are all of them.
   */
  lemma EndToEnd(s: Sender, r: Receiver)
    requires s.Valid() && r.Valid() && !r.skipped
    requires r.log.stream <= s.wire
    ensures forall f <- r.log.queued :: |f| >= HEADER
    ensures r.delivered + Payloads(r.log.queued) <= s.sent
    ensures r.log.stream == EncodeAll(s.sent) ==> r.delivered + Payloads(r.log.queued) == s.sent
    ensures !BadStart(Rest(r.log.stream))
  {
    PrefixDecodes(s.sent, r.log.stream);
    r.Complete();
    Delivered(r);
    PayloadsConcat(r.log.taken, r.log.queued);
  }

  lemma Delivered(r: Receiver)
    requires r.Valid() && !r.skipped
    ensures forall f <- r.log.taken :: |f| >= HEADER
    ensures forall f <- r.log.queued :: |f| >= HEADER
    ensures r.delivered == Payloads(r.log.taken)
  {
  }

  /** Bytes of a sender's stream never make the parser's read fail: what it requires of them holds. */
  lemma NeverOversized(s: Sender, stream: seq<byte>, data: seq<byte>)
    requires s.Valid() && stream + data <= s.wire
    ensures forall k :: 0 <= k <= |data| ==> !Oversized(Rest(stream + data[..k]))
  {
    forall k | 0 <= k <= |data| ensures !Oversized(Rest(stream + data[..k])) {
      assert stream + data[..k] <= stream + data;
      PrefixDecodes(s.sent, stream + data[..k]);
    }
  }

  /** The payloads the main thread delivers when it handles events of the given lengths on the given bytes. */
  function Drain(lens: seq<nat>, bytes: seq<byte>, size: nat): (ps: seq<seq<byte>>)
    requires forall i :: 0 <= i < |lens| ==> lens[i] >= HEADER
  {
    if lens == [] then []
    else if Poppable(lens[0], size, bytes) then [bytes[HEADER..lens[0]]] + Drain(lens[1..], bytes[lens[0]..], size)
    else Drain(lens[1..], bytes, size)
  }

  function Lengths(fs: seq<seq<byte>>): (ns: seq<nat>)
    ensures |ns| == |fs|
    ensures forall i :: 0 <= i < |fs| ==> ns[i] == |fs[i]|
  {
    seq(|fs|, i requires 0 <= i < |fs| => |fs[i]|)
  }

  /** No frame that fits the session's buffer follows one that does not. */
  predicate FitsFirst(fs: seq<seq<byte>>, size: nat)
  {
    forall i, j :: 0 <= i < j < |fs| && |fs[i]| > size ==> |fs[j]| > size
  }

  /** The first payload delivered comes from a frame length that fits the session's buffer. */
  lemma {:induction false} DrainHead(lens: seq<nat>, bytes: seq<byte>, size: nat, j: nat)
    requires forall i :: 0 <= i < |lens| ==> lens[i] >= HEADER
    requires |bytes| > size && j < |lens| && lens[j] <= size
    ensures var ps := Drain(lens, bytes, size); ps != [] && |ps[0]| + HEADER <= size
  {
    if !Poppable(lens[0], size, bytes) {
      DrainHead(lens[1..], bytes, size, j - 1);
    }
  }

  lemma {:induction false} DrainNone(lens: seq<nat>, bytes: seq<byte>, size: nat)
    requires forall i :: 0 <= i < |lens| ==> lens[i] >= HEADER
    requires forall i :: 0 <= i < |lens| ==> lens[i] > size
    ensures Drain(lens, bytes, size) == []
  {
    if lens != [] {
      DrainNone(lens[1..], bytes, size);
    }
  }

  /**
   What frames too long for the session's buffer do.  Such a frame stays in the ring while its event
   is used up, so events behind it pop the wrong bytes.  The session gets the leading payloads, in
   order, exactly when no frame that fits follows one that does not.
   */
  lemma {:induction false} DrainInOrder(fs: seq<seq<byte>>, size: nat)
    requires forall f <- fs :: |f| >= HEADER
    requires size >= HEADER
    ensures Drain(Lengths(fs), Flatten(fs), size) <= Payloads(fs) <==> FitsFirst(fs, size)
  {
    var ns, b := Lengths(fs), Flatten(fs);
    if fs != [] {
      assert Lengths(fs)[1..] == Lengths(fs[1..]);
      assert b[..|fs[0]|] == fs[0] && b[|fs[0]|..] == Flatten(fs[1..]);
      if |fs[0]| <= size {
        DrainInOrder(fs[1..], size);
        DrainFirst(fs, size);
      } else if j :| 1 <= j < |fs| && |fs[j]| <= size {
        DrainHead(ns, b, size, j);
        assert |Payloads(fs)[0]| + HEADER > size;
      } else {
        DrainNone(ns, b, size);
      }
    }
  }

  lemma DrainFirst(fs: seq<seq<byte>>, size: nat)
    requires fs != [] && (forall f <- fs :: |f| >= HEADER) && |fs[0]| <= size
    ensures var rest := Drain(Lengths(fs[1..]), Flatten(fs[1..]), size);
            && Drain(Lengths(fs), Flatten(fs), size) == [fs[0][HEADER..]] + rest
            && (Drain(Lengths(fs), Flatten(fs), size) <= Payloads(fs) <==> rest <= Payloads(fs[1..]))
    ensures FitsFirst(fs, size) <==> FitsFirst(fs[1..], size)
  {
    var b, rest := Flatten(fs), Drain(Lengths(fs[1..]), Flatten(fs[1..]), size);
    assert Lengths(fs)[1..] == Lengths(fs[1..]);
    assert b[..|fs[0]|] == fs[0] && b[|fs[0]|..] == Flatten(fs[1..]);
    assert b[HEADER..|fs[0]|] == fs[0][HEADER..];
    var p := fs[0][HEADER..];
    assert Payloads(fs) == [p] + Payloads(fs[1..]);
    assert ([p] + rest)[1..] == rest && ([p] + Payloads(fs[1..]))[1..] == Payloads(fs[1..]);
  }
}
