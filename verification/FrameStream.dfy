/**
 The binary frame format and what a byte stream of frames means.

 A frame is an 8-byte header, the payload length and a magic number, both
 big-endian 32-bit words, followed by the payload.
 */
module FrameStream {
  import opened Bytes

  const HEADER: nat := 8
  const MAGIC: nat := 0x54455354

  /** Payload lengths for which header plus payload is still a positive C `int`. */
  const MAX_PAYLOAD: nat := 0x7FFF_FFF7

  /** `htonl` followed by a copy of the four bytes. */
  function Word(n: nat): (w: seq<byte>)
    requires n < 0x1_0000_0000
    ensures |w| == 4
  {
    [n / 0x100_0000, n / 0x1_0000 % 256, n / 256 % 256, n % 256]
  }

  /** `ntohl` of the first four bytes. */
  function FromWord(w: seq<byte>): (n: nat)
    requires |w| >= 4
    ensures n < 0x1_0000_0000
  {
    var b: seq<int> := w[..4];
    b[0] * 0x100_0000 + b[1] * 0x1_0000 + b[2] * 256 + b[3]
  }

  lemma FromWordWord(n: nat)
    requires n < 0x1_0000_0000
    ensures FromWord(Word(n)) == n
  {
    assert n / 256 == n / 0x1_0000 * 256 + n / 256 % 256;
    assert n / 0x1_0000 == n / 0x100_0000 * 256 + n / 0x1_0000 % 256;
  }

  function Length(h: seq<byte>): (n: nat)
    requires |h| >= HEADER
  {
    FromWord(h[..4])
  }

  /** The header carries the magic number and a length for which no C `int` overflows. */
  predicate GoodHeader(h: seq<byte>)
    requires |h| >= HEADER
  {
    FromWord(h[4..8]) == MAGIC && Length(h) <= MAX_PAYLOAD
  }

  /** A conversion to C `int`. */
  function ToInt32(n: int): (r: int)
  {
    var m := n % 0x1_0000_0000;
    if m < 0x8000_0000 then m else m - 0x1_0000_0000
  }

  /** Length of the frame a header announces. */
  function FrameLength(h: seq<byte>): (n: nat)
    requires |h| >= HEADER
    ensures n >= HEADER
  {
    HEADER + Length(h)
  }

  /**
   The header check: `copy` is the parser's scratch copy of the header, `b` the bytes themselves.
   -1 stands for a bad header.
   */
  function CheckHeader(copy: seq<byte>, b: seq<byte>): (r: int)
    requires |copy| == HEADER && |b| >= HEADER
  {
    if FromWord(copy[..4]) != FromWord(b[..4]) then -1
    else if FromWord(b[4..8]) != MAGIC then -1
    else ToInt32(HEADER + FromWord(copy[..4]))
  }

  /** With a faithful copy, a good header yields the frame's length and a wrong magic number yields -1. */
  lemma CheckHeaderMeans(b: seq<byte>)
    requires |b| >= HEADER
    ensures GoodHeader(b) ==> CheckHeader(b[..8], b) == FrameLength(b)
    ensures FromWord(b[4..8]) != MAGIC ==> CheckHeader(b[..8], b) == -1
  {
    assert b[..8][..4] == b[..4];
  }

  /** What `Send` puts into the ring for one message. */
  function Encode(msg: seq<byte>): (f: seq<byte>)
    requires |msg| <= MAX_PAYLOAD
    ensures |f| == HEADER + |msg|
  {
    Word(|msg|) + Word(MAGIC) + msg
  }

  /** The encoding of a message is one good frame that carries it. */
  lemma EncodeHeader(msg: seq<byte>)
    requires |msg| <= MAX_PAYLOAD
    ensures HasFrame(Encode(msg)) && FrameLength(Encode(msg)) == HEADER + |msg|
    ensures Encode(msg)[HEADER..] == msg
  {
    var f := Encode(msg);
    assert f[..4] == Word(|msg|);
    assert f[4..8] == Word(MAGIC);
    FromWordWord(|msg|);
    FromWordWord(MAGIC);
  }

  /** The bytes of a frame: length and magic number with the highest byte first, then the payload. */
  lemma EncodeBytes(msg: seq<byte>)
    requires |msg| <= MAX_PAYLOAD
    ensures Encode(msg) == [|msg| / 16777216, |msg| / 65536 % 256, |msg| / 256 % 256, |msg| % 256, 0x54, 0x45, 0x53, 0x54] + msg
  {
    var n := |msg|;
    assert Word(MAGIC) == [0x54, 0x45, 0x53, 0x54];
    assert Word(n) + [0x54, 0x45, 0x53, 0x54] == [n / 16777216, n / 65536 % 256, n / 256 % 256, n % 256, 0x54, 0x45, 0x53, 0x54];
  }

  /** What a stream must begin with to have a complete frame, byte by byte: the magic number, and a length it is long enough for. */
  lemma HeaderBytes(s: seq<byte>)
    requires |s| >= 8
    ensures var n := 16777216 * s[0] as int + 65536 * s[1] as int + 256 * s[2] as int + s[3] as int;
            && FrameLength(s) == n + 8
            && (GoodHeader(s) <==> s[4..8] == [0x54, 0x45, 0x53, 0x54] && n + 8 <= 0x7FFF_FFFF)
            && (HasFrame(s) <==> s[4..8] == [0x54, 0x45, 0x53, 0x54] && n + 8 <= 0x7FFF_FFFF && n + 8 <= |s|)
            && (s[4..8] == [0x54, 0x45, 0x53, 0x54] ==> CheckHeader(s[..8], s) == if n + 8 <= 0x7FFF_FFFF then n + 8 else n + 8 - 0x1_0000_0000)
            && (s[4..8] != [0x54, 0x45, 0x53, 0x54] ==> CheckHeader(s[..8], s) == -1)
  {
  }

  /** The stream begins with a complete frame. */
  predicate HasFrame(s: seq<byte>)
  {
    |s| >= HEADER && GoodHeader(s) && FrameLength(s) <= |s|
  }

  /** The stream begins with a whole header, and it is bad. */
  predicate BadStart(s: seq<byte>)
  {
    |s| >= HEADER && !GoodHeader(s)
  }

  /** The stream begins with a header whose magic number is right and whose length overflows a C `int`. */
  predicate Oversized(s: seq<byte>)
  {
    |s| >= HEADER && FromWord(s[4..8]) == MAGIC && Length(s) > MAX_PAYLOAD
  }

  /** The complete frames at the front of a stream. */
  function Frames(s: seq<byte>): (fs: seq<seq<byte>>)
    ensures forall i :: 0 <= i < |fs| ==> |fs[i]| >= HEADER
    ensures fs == [] <==> !HasFrame(s)
    decreases |s|
  {
    if HasFrame(s) then
      [s[..FrameLength(s)]] + Frames(s[FrameLength(s)..])
    else []
  }

  /** What is left of a stream behind its complete frames. */
  function Rest(s: seq<byte>): (r: seq<byte>)
    ensures !HasFrame(r)
    ensures |r| <= |s|
    decreases |s|
  {
    if HasFrame(s) then Rest(s[FrameLength(s)..]) else s
  }

  lemma {:induction false} SplitsInto(s: seq<byte>)
    ensures s == Flatten(Frames(s)) + Rest(s)
    decreases |s|
  {
    hide *;
    SplitFirst(s);
    if HasFrame(s) {
      var f, s' := s[..FrameLength(s)], s[FrameLength(s)..];
      SplitsInto(s');
      FlattenCons(f, Frames(s'));
      assert f + (Flatten(Frames(s')) + Rest(s')) == f + Flatten(Frames(s')) + Rest(s');
    }
  }

  /** The first frame, if there is one. */
  lemma SplitFirst(s: seq<byte>)
    ensures HasFrame(s) ==>
              && |s| >= HEADER && FrameLength(s) <= |s| && s == s[..FrameLength(s)] + s[FrameLength(s)..]
              && Frames(s) == [s[..FrameLength(s)]] + Frames(s[FrameLength(s)..]) && Rest(s) == Rest(s[FrameLength(s)..])
    ensures !HasFrame(s) ==> s == Flatten(Frames(s)) + Rest(s)
  {
  }

  /** A header is read from the first eight bytes only. */
  lemma SameHeader(a: seq<byte>, b: seq<byte>)
    requires |a| >= HEADER
    ensures Length(a + b) == Length(a) && (GoodHeader(a + b) <==> GoodHeader(a))
  {
    assert (a + b)[..4] == a[..4] && (a + b)[4..8] == a[4..8];
  }

  /** Nothing is found behind a bad header. */
  lemma BadStays(r: seq<byte>, more: seq<byte>)
    requires BadStart(r)
    ensures Frames(r + more) == [] && Rest(r + more) == r + more
    ensures Rest(r + more) != []
  {
    SameHeader(r, more);
  }

  /** A stream that starts with a whole frame. */
  lemma FrameFirst(f: seq<byte>, s: seq<byte>)
    requires HasFrame(f) && FrameLength(f) == |f|
    ensures Frames(f + s) == [f] + Frames(s)
    ensures Rest(f + s) == Rest(s)
  {
    SameHeader(f, s);
    assert (f + s)[..|f|] == f;
    assert (f + s)[|f|..] == s;
  }

  /** More bytes never change the frames already complete: parsing can go on from what is left. */
  lemma {:induction false} Extend(a: seq<byte>, b: seq<byte>)
    ensures Frames(a + b) == Frames(a) + Frames(Rest(a) + b)
    ensures Rest(a + b) == Rest(Rest(a) + b)
    decreases |a|
  {
    if HasFrame(a) {
      var f, a' := a[..FrameLength(a)], a[FrameLength(a)..];
      assert a == f + a';
      SameHeader(f, a');
      Extend(a', b);
      ExtendStep(f, a', b);
    }
  }

  lemma ExtendStep(f: seq<byte>, a: seq<byte>, b: seq<byte>)
    requires HasFrame(f) && FrameLength(f) == |f|
    requires Frames(a + b) == Frames(a) + Frames(Rest(a) + b)
    requires Rest(a + b) == Rest(Rest(a) + b)
    ensures Frames(f + a + b) == Frames(f + a) + Frames(Rest(f + a) + b)
    ensures Rest(f + a + b) == Rest(Rest(f + a) + b)
  {
    hide *;
    var fa, fab, ab := f + a, f + a + b, a + b;
    assert Frames(fa) == [f] + Frames(a) && Rest(fa) == Rest(a) by { FrameFirst(f, a); }
    assert Frames(fab) == [f] + Frames(ab) && Rest(fab) == Rest(ab) by {
      FrameFirst(f, ab);
      assert fab == f + ab;
    }
    var x, y := Frames(a), Frames(Rest(a) + b);
    assert [f] + (x + y) == ([f] + x) + y;
  }

  /** The payloads of a list of frames. */
  function Payloads(fs: seq<seq<byte>>): (ps: seq<seq<byte>>)
    requires forall f <- fs :: |f| >= HEADER
    ensures |ps| == |fs|
    ensures forall i :: 0 <= i < |fs| ==> ps[i] == fs[i][HEADER..]
  {
    seq(|fs|, i requires 0 <= i < |fs| => fs[i][HEADER..])
  }

  lemma PayloadsConcat(a: seq<seq<byte>>, b: seq<seq<byte>>)
    requires (forall f <- a :: |f| >= HEADER) && (forall f <- b :: |f| >= HEADER)
    ensures forall f <- a + b :: |f| >= HEADER
    ensures Payloads(a + b) == Payloads(a) + Payloads(b)
  {
  }

  predicate Sendable(msgs: seq<seq<byte>>)
  {
    forall m <- msgs :: |m| <= MAX_PAYLOAD
  }

  /** The stream `Send` produces for a list of messages. */
  function EncodeAll(msgs: seq<seq<byte>>): (s: seq<byte>)
    requires Sendable(msgs)
  {
    if msgs == [] then [] else Encode(msgs[0]) + EncodeAll(msgs[1..])
  }

  lemma {:induction false} EncodeAllConcat(a: seq<seq<byte>>, b: seq<seq<byte>>)
    requires Sendable(a) && Sendable(b)
    ensures EncodeAll(a + b) == EncodeAll(a) + EncodeAll(b)
  {
    if a == [] {
      assert a + b == b;
    } else {
      assert (a + b)[1..] == a[1..] + b;
      EncodeAllConcat(a[1..], b);
    }
  }

  lemma EncodeAllSnoc(a: seq<seq<byte>>, m: seq<byte>)
    requires Sendable(a) && |m| <= MAX_PAYLOAD
    ensures EncodeAll(a + [m]) == EncodeAll(a) + Encode(m)
  {
    EncodeAllConcat(a, [m]);
  }

  /** Decoding undoes encoding, with nothing left over. */
  lemma {:induction false} RoundTrip(msgs: seq<seq<byte>>)
    requires Sendable(msgs)
    ensures Payloads(Frames(EncodeAll(msgs))) == msgs
    ensures Rest(EncodeAll(msgs)) == []
  {
    if msgs != [] {
      var f, s := Encode(msgs[0]), EncodeAll(msgs[1..]);
      assert EncodeAll(msgs) == f + s;
      RoundTrip(msgs[1..]);
      hide *;
      EncodeHeader(msgs[0]);
      FrameFirst(f, s);
      PayloadsConcat([f], Frames(s));
      assert Payloads([f]) == [msgs[0]];
      assert msgs == [msgs[0]] + msgs[1..];
    }
  }

  /**
   Whatever part of the stream has arrived, its complete frames are the first
   messages that were sent, in order, and no header in it is bad.
   */
  lemma PrefixDecodes(msgs: seq<seq<byte>>, s: seq<byte>)
    requires Sendable(msgs) && s <= EncodeAll(msgs)
    ensures Payloads(Frames(s)) <= msgs
    ensures s == EncodeAll(msgs) ==> Payloads(Frames(s)) == msgs
    ensures !BadStart(Rest(s))
  {
    hide *;
    RoundTrip(msgs);
    var more := EncodeAll(msgs)[|s|..];
    assert EncodeAll(msgs) == s + more;
    Extend(s, more);
    if BadStart(Rest(s)) {
      BadStays(Rest(s), more);
    }
    PayloadsConcat(Frames(s), Frames(Rest(s) + more));
  }
}
