/**
 The byte ring of the network layer.

 The ring keeps three cursors into one array.  Bytes enter at the in-cursor and
 leave at the out-cursor; the use-cursor splits the stored bytes into a marked
 part (already looked at by a parser) and an unmarked part.  Two flags say
 whether the in-cursor has wrapped relative to the out- and the use-cursor.

 `Contents` is the queue the ring stands for and `Unmarked` its unmarked suffix.
 A sender never moves the use-cursor, so the consistency of the marks
 (`MarksOk`) is kept apart from the consistency of the queue (`Valid`).
 */
module LoopBuffer {
  import opened Bytes

  /** The cells from one cursor up to another, across the end of the array when `wrapped`. */
  function Span(b: seq<byte>, wrapped: bool, from: nat, to: nat): (s: seq<byte>)
    requires from <= |b| && to <= |b| && (!wrapped ==> from <= to)
    ensures |s| == if wrapped then |b| - from + to else to - from
  {
    if wrapped then b[from..] + b[..to] else b[from..to]
  }

  /** Moving the near cursor forward drops a prefix. */
  lemma SpanDrop(b: seq<byte>, wrapped: bool, from: nat, to: nat, n: nat)
    requires from < |b| && to < |b| && (!wrapped ==> from <= to)
    requires n <= |Span(b, wrapped, from, to)|
    ensures from + n < |b| ==> Span(b, wrapped, from + n, to) == Span(b, wrapped, from, to)[n..]
    ensures from + n >= |b| ==> wrapped && from + n - |b| <= to
    ensures from + n >= |b| ==> Span(b, false, from + n - |b|, to) == Span(b, wrapped, from, to)[n..]
    ensures Span(b, wrapped, from, to)[..n] == if from + n <= |b| then b[from..from + n]
                                               else b[from..] + b[..from + n - |b|]
  {
  }

  /** Moving the far cursor forward over `n` cells appends what they hold. */
  lemma SpanGrow(b: seq<byte>, wrapped: bool, from: nat, to: nat, n: nat)
    requires from < |b| && to < |b| && (!wrapped ==> from <= to)
    requires n <= |b| - |Span(b, wrapped, from, to)|
    ensures to + n < |b| ==> Span(b, wrapped, from, to + n) == Span(b, wrapped, from, to) + b[to..to + n]
    ensures to + n >= |b| && n > 0 ==> !wrapped && to + n - |b| <= from
    ensures to + n >= |b| && n > 0 ==>
      Span(b, true, from, to + n - |b|) == Span(b, wrapped, from, to) + (b[to..] + b[..to + n - |b|])
  {
  }

  /** The array after one `memcpy` of `src` to position `p`. */
  function Copied(b: seq<byte>, p: nat, src: seq<byte>): (r: seq<byte>)
    requires p + |src| <= |b|
    ensures |r| == |b|
  {
    b[..p] + src + b[p + |src|..]
  }

  lemma CopiedWhole(h: seq<byte>, src: seq<byte>)
    requires |src| == |h|
    ensures Copied(h, 0, src) == src
  {
  }

  lemma CopiedHalves(h: seq<byte>, a: seq<byte>, b: seq<byte>)
    requires |a| + |b| == |h|
    ensures Copied(Copied(h, 0, a), |a|, b) == a + b
  {
  }

  /** The array after `src` has been copied into the cells from `to` on, wrapping at the end. */
  function Written(b: seq<byte>, to: nat, src: seq<byte>): (r: seq<byte>)
    requires to < |b| && |src| <= |b|
    ensures |r| == |b|
  {
    if to + |src| <= |b| then Copied(b, to, src)
    else src[|b| - to..] + b[|src| - (|b| - to)..to] + src[..|b| - to]
  }

  /** Two copies make one wrapping copy. */
  lemma CopiedTwice(b: seq<byte>, to: nat, src: seq<byte>)
    requires to < |b| && |src| <= |b| < to + |src|
    ensures Copied(Copied(b, to, src[..|b| - to]), 0, src[|b| - to..]) == Written(b, to, src)
  {
  }

  /** Writing into free cells leaves the stored span alone. */
  lemma SpanWritten(b: seq<byte>, wrapped: bool, from: nat, to: nat, src: seq<byte>)
    requires from < |b| && to < |b| && (!wrapped ==> from <= to)
    requires |src| <= |b| - |Span(b, wrapped, from, to)|
    ensures Span(Written(b, to, src), wrapped, from, to) == Span(b, wrapped, from, to)
    ensures to + |src| < |b| ==> Written(b, to, src)[to..to + |src|] == src
    ensures to + |src| >= |b| ==> Written(b, to, src)[to..] + Written(b, to, src)[..to + |src| - |b|] == src
  {
  }

  /** A suffix that grows by what its sequence grows by. */
  lemma SuffixGrows(c: seq<byte>, u: seq<byte>, more: seq<byte>, v: seq<byte>)
    requires |u| <= |c| && u == c[|c| - |u|..]
    requires |v| == |u| + |more| && v == (c + more)[|c| - |u|..]
    ensures v == u + more
  {
  }

  /** What lies behind the use-cursor is the end of what is stored. */
  lemma UnmarkedTail(b: seq<byte>, loop: bool, outCur: nat, inCur: nat, useLoop: bool, useCur: nat)
    requires outCur < |b| && inCur < |b| && useCur < |b| && (!loop ==> outCur <= inCur)
    requires if !loop then !useLoop && outCur <= useCur <= inCur else if useLoop then outCur <= useCur else useCur <= inCur
    ensures var c, u := Span(b, loop, outCur, inCur), Span(b, useLoop, useCur, inCur);
            |u| <= |c| && u == c[|c| - |u|..]
  {
    var c, u := Span(b, loop, outCur, inCur), Span(b, useLoop, useCur, inCur);
    hide Span;
    SpanDrop(b, loop, outCur, inCur, |c| - |u|);
  }

  class LoopBuff {
    var total: nat        // allocated length
    var free: nat         // bytes free
    var inCur: nat
    var outCur: nat
    var useCur: nat
    var loop: bool        // the in-cursor has wrapped past the out-cursor
    var useLoop: bool     // the in-cursor has wrapped past the use-cursor
    var buf: array<byte>

    ghost predicate Valid()
      reads this
      ensures Valid() ==> 0 < total == buf.Length && free <= total
    {
      && 0 < total == buf.Length
      && inCur < total && outCur < total
      && free <= total
      && (if loop then inCur <= outCur && free == outCur - inCur
          else outCur <= inCur && free == total - (inCur - outCur))
    }

    /** The bytes stored, oldest first. */
    ghost function Contents(): (s: seq<byte>)
      reads this, buf
      requires Valid()
      ensures |s| == total - free
    {
      Span(buf[..], loop, outCur, inCur)
    }

    /** The use-cursor lies between the out- and the in-cursor. */
    ghost predicate MarksOk()
      reads this
      requires Valid()
    {
      && useCur < total
      && (if !loop then !useLoop && outCur <= useCur <= inCur
          else if useLoop then outCur <= useCur
          else useCur <= inCur)
    }

    /** The stored bytes that no parser has marked yet. */
    ghost function Unmarked(): (s: seq<byte>)
      reads this, buf
      requires Valid() && MarksOk()
      ensures |s| <= |Contents()| && s == Contents()[|Contents()| - |s|..]
    {
      hide Span;
      UnmarkedTail(buf[..], loop, outCur, inCur, useLoop, useCur);
      Span(buf[..], useLoop, useCur, inCur)
    }

    /** How many stored bytes are marked. */
    ghost function Marked(): (n: nat)
      reads this, buf
      requires Valid() && MarksOk()
    {
      |Contents()| - |Unmarked()|
    }

    /** How many unmarked bytes lie in one stretch. */
    ghost function FirstRun(): (n: nat)
      reads this, buf
      requires Valid() && MarksOk()
      ensures n <= |Unmarked()|
      ensures n == |Unmarked()| || useCur + n == total
      ensures Unmarked() != [] ==> 0 < n
    {
      if useLoop then total - useCur else inCur - useCur
    }

    constructor (n: nat)
      requires 0 < n
      ensures Valid() && MarksOk() && fresh(buf)
      ensures total == n && Contents() == []
    {
      total, free := n, n;
      inCur, outCur, useCur := 0, 0, 0;
      loop, useLoop := false, false;
      buf := new byte[n];
    }

    method GetFreeLen() returns (n: nat)
      requires Valid()
      ensures n == total - |Contents()|
    {
      n := free;
    }

    method IsEmpty() returns (empty: bool)
      requires Valid()
      ensures empty <==> Contents() == []
    {
      empty := total == free;
    }

    /** Number of unmarked bytes. */
    method GetUseLen() returns (n: int)
      requires Valid() && MarksOk()
      ensures n == |Unmarked()|
    {
      if free == total {
        return 0;
      }
      if useLoop {
        n := total + inCur - useCur;
      } else {
        n := inCur - useCur;
      }
    }

    /** Where the next bytes go, and how many fit there without wrapping. */
    method GetInCursorPtr() returns (p: int, n: int)
      requires Valid()
      ensures n == InRoom()
      ensures if free == 0 then p == -1 else p == inCur && 0 < n
    {
      if free == 0 {
        return -1, 0;
      }
      p := inCur;
      if loop {
        n := outCur - inCur;
      } else {
        n := total - inCur;
      }
    }

    /** Free bytes up to the end of the array, or up to the oldest byte. */
    ghost function InRoom(): (n: nat)
      reads this
      requires Valid()
      ensures n <= free && inCur + n <= total
      ensures n == free || inCur + n == total
      ensures 0 < free ==> 0 < n
    {
      if free < total - inCur then free else total - inCur
    }

    /** How many of the oldest bytes lie in one stretch. */
    ghost function OutRun(): (n: nat)
      reads this
      requires Valid()
      ensures n <= total - free && (free < total ==> 0 < n)
    {
      if total == free then 0 else if loop then total - outCur else inCur - outCur
    }

    /** The oldest bytes that lie in one stretch. */
    method GetOutCursorPtr() returns (p: int, n: int)
      requires Valid()
      ensures Contents() == [] ==> p == -1 && n == 0
      ensures Contents() != [] ==> 0 < n <= |Contents()| && 0 <= p && p + n <= total
      ensures Contents() != [] ==> buf[p..p + n] == Contents()[..n]
      ensures n == |Contents()| || p + n == total
      ensures n == OutRun()
    {
      hide Span, Written, Copied;
      if total == free {
        return -1, 0;
      }
      p := outCur;
      if loop {
        n := total - outCur;
      } else {
        n := inCur - outCur;
      }
      SpanDrop(buf[..], loop, outCur, inCur, n);
      assert buf[p..p + n] == buf[..][p..p + n];
    }

    /** The oldest unmarked bytes that lie in one stretch. */
    method GetUsedCursorPtr() returns (p: int, n: int)
      requires Valid() && MarksOk()
      ensures Contents() == [] ==> p == -1 && n == 0
      ensures Contents() != [] ==> p == useCur && p + n <= total
      ensures n == FirstRun()
      ensures Contents() != [] ==> buf[p..p + n] == Unmarked()[..n]
    {
      hide Span, Written, Copied;
      if total == free {
        return -1, 0;
      }
      p := useCur;
      if useLoop {
        n := total - useCur;
      } else {
        n := inCur - useCur;
      }
      SpanDrop(buf[..], useLoop, useCur, inCur, n);
      assert buf[p..p + n] == buf[..][p..p + n];
    }

    /** `memcpy` into the ring's array, through a pointer obtained from it. */
    method Store(p: nat, src: seq<byte>)
      requires Valid() && p + |src| <= total
      modifies buf
      ensures buf[..] == Copied(old(buf[..]), p, src)
    {
      forall i | 0 <= i < |src| {
        buf[p + i] := src[i];
      }
      assert buf[p..p + |src|] == src;
      assert buf[p + |src|..] == old(buf[p + |src|..]);
      assert buf[..] == buf[..p] + buf[p..p + |src|] + buf[p + |src|..];
    }

    /** What the first `n` free cells hold now: a later CostBuff(n) makes them part of the queue. */
    ghost function Staged(n: nat): (s: seq<byte>)
      reads this, buf
      requires Valid() && n <= free
      ensures |s| == n
    {
      if inCur + n < total then buf[..][inCur..inCur + n]
      else buf[..][inCur..] + buf[..][..inCur + n - total]
    }

    /** The one or two `memcpy` calls that fill free cells, wrapping at the end. */
    method StoreFree(src: seq<byte>)
      requires Valid() && 0 < |src| <= free
      modifies buf
      ensures Contents() == old(Contents()) && Staged(|src|) == src
      ensures old(MarksOk()) ==> MarksOk() && Unmarked() == old(Unmarked())
    {
      SpanWritten(buf[..], loop, outCur, inCur, src);
      if |src| + inCur <= total {
        Store(inCur, src);
      } else {
        var n0 := total - inCur;
        CopiedTwice(buf[..], inCur, src);
        hide Copied;
        Store(inCur, src[..n0]);
        Store(0, src[n0..]);
      }
      hide Span, Copied;
      assert buf[..] == Written(old(buf[..]), inCur, src);
    }

    /** The in-cursor passes over bytes that have just been stored. */
    method PassIn(n: nat)
      requires Valid() && 0 < n <= free
      modifies this`inCur, this`free, this`loop, this`useLoop
      ensures Valid() && Contents() == old(Contents()) + old(Staged(n))
      ensures old(MarksOk()) ==> MarksOk() && Marked() == old(Marked())
    {
      hide Span, Written, Copied;
      SpanGrow(buf[..], loop, outCur, inCur, n);
      if n + inCur == total {
        inCur := 0;
        loop, useLoop := true, true;
      } else if n + inCur < total {
        inCur := inCur + n;
      } else {
        inCur := n - (total - inCur);
        loop, useLoop := true, true;
      }
      free := free - n;
    }

    method PushBuff(src: seq<byte>) returns (ok: bool)
      requires Valid()
      modifies this`inCur, this`free, this`loop, this`useLoop, buf
      ensures Valid()
      ensures ok == (0 < |src| <= old(free))
      ensures Contents() == if ok then old(Contents()) + src else old(Contents())
      ensures old(MarksOk()) ==> MarksOk() && Marked() == old(Marked())
    {
      var n := |src|;
      if 0 >= n {
        return false;
      }
      if n > free {
        return false;
      }
      hide LoopBuff.Contents, LoopBuff.Unmarked, LoopBuff.MarksOk, LoopBuff.Staged, Span, Written, Copied;
      StoreFree(src);
      PassIn(n);
      ok := true;
    }

    /** Both `memcpy` calls of a pop. */
    method Fetch(n: nat) returns (dst: seq<byte>)
      requires Valid() && 0 < n <= |Contents()|
      ensures dst == Contents()[..n]
    {
      hide Span, Written, Copied;
      SpanDrop(buf[..], loop, outCur, inCur, n);
      if n + outCur <= total {
        dst := buf[..][outCur..outCur + n];
      } else {
        var n0 := total - outCur;
        dst := buf[..][outCur..] + buf[..][..n - n0];
      }
    }

    /** Pops bytes; keeps the marks consistent exactly when only marked bytes are popped. */
    method PopBuff(n: int) returns (ok: bool, dst: seq<byte>)
      requires Valid()
      modifies this`outCur, this`free, this`loop
      ensures Valid()
      ensures ok == (0 < n <= old(|Contents()|))
      ensures dst == if ok then old(Contents())[..n] else []
      ensures Contents() == if ok then old(Contents())[n..] else old(Contents())
      ensures ok && old(MarksOk()) ==> (MarksOk() <==> n <= old(Marked()))
      ensures old(MarksOk()) && MarksOk() ==> Unmarked() == old(Unmarked())
    {
      hide Span, Written, Copied;
      if 0 >= n {
        return false, [];
      }
      if n + free > total {
        return false, [];
      }
      dst := Fetch(n);
      SpanDrop(buf[..], loop, outCur, inCur, n);
      if n + outCur == total {
        outCur := 0;
        loop := false;
      } else if n + outCur < total {
        outCur := outCur + n;
      } else {
        outCur := n - (total - outCur);
        loop := false;
      }
      free := free + n;
      ok := true;
    }

    method DiscardBuff(n: int) returns (ok: bool)
      requires Valid()
      modifies this`outCur, this`free, this`loop
      ensures Valid()
      ensures ok == (0 < n <= old(|Contents()|))
      ensures Contents() == if ok then old(Contents())[n..] else old(Contents())
    {
      hide Span, Written, Copied;
      if 0 >= n {
        return false;
      }
      if n + free > total {
        return false;
      }
      SpanDrop(buf[..], loop, outCur, inCur, n);
      if n + outCur < total {
        outCur := outCur + n;
      } else {
        outCur := n + outCur - total;
        loop := false;
      }
      free := free + n;
      ok := true;
    }

    /** Takes the first `n` free cells, already written through the in-cursor pointer, into the queue. */
    method CostBuff(n: int) returns (ok: bool)
      requires Valid()
      modifies this`inCur, this`free, this`loop, this`useLoop
      ensures Valid()
      ensures ok == (0 < n <= old(free))
      ensures Contents() == if ok then old(Contents()) + old(Staged(n)) else old(Contents())
      ensures ok && old(MarksOk()) ==> MarksOk() && Unmarked() == old(Unmarked()) + old(Staged(n))
      ensures ok && old(MarksOk()) && n <= old(InRoom()) ==>
        FirstRun() == |Unmarked()| || FirstRun() <= old(|Unmarked()|)
      ensures ok ==> inCur == if old(inCur) + n < total then old(inCur) + n else old(inCur) + n - total
    {
      hide Span, Written, Copied;
      if 0 >= n {
        return false;
      }
      if n > free {
        return false;
      }
      SpanGrow(buf[..], loop, outCur, inCur, n);
      if n + inCur < total {
        inCur := inCur + n;
      } else {
        inCur := n + inCur - total;
        loop, useLoop := true, true;
      }
      free := free - n;
      ok := true;
      if old(MarksOk()) {
        SuffixGrows(old(Contents()), old(Unmarked()), old(Staged(n)), Unmarked());
      }
    }

    /** Marks bytes: succeeds exactly when that many are unmarked. */
    method CostUsedBuff(n: int) returns (ok: bool)
      requires Valid() && MarksOk()
      modifies this`useCur, this`useLoop
      ensures Valid() && MarksOk()
      ensures Contents() == old(Contents())
      ensures ok == (0 < n <= old(|Unmarked()|))
      ensures useCur == if !ok then old(useCur)
                        else if old(useCur) + n < total then old(useCur) + n else old(useCur) + n - total
      ensures Unmarked() == if ok then old(Unmarked())[n..] else old(Unmarked())
    {
      hide Span, Written, Copied;
      if 0 >= n {
        return false;
      }
      if free + n > total {
        return false;
      }
      if useLoop {
        if n + useCur < total {
          useCur := useCur + n;
        } else {
          var next := useCur + n - total;
          if next > inCur {
            return false;
          }
          useCur := next;
          useLoop := false;
        }
      } else {
        if n + useCur > inCur {
          return false;
        }
        useCur := useCur + n;
      }
      ok := true;
    }

    /** Both callers test IsEmpty first. */
    method Clear()
      requires Valid() && Contents() == []
      modifies this`inCur, this`outCur, this`useCur, this`loop, this`useLoop
      ensures Valid() && MarksOk()
      ensures Contents() == [] && inCur == 0 && useCur == 0
    {
      useCur, inCur, outCur := 0, 0, 0;
      loop, useLoop := false, false;
    }
  }
}
