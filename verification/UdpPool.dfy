/**
 The buffer pool of a sliding window: 32 buffers, the free ones linked through
 their first byte.  Free list and buffers held by slots always partition 0..31.
 */
module UdpPool {
  import opened Bytes
  import opened UdpWindow

  const BUFFER: nat := 512
  const HEADER: nat := 3

  /** The fields of a window; `freeId` is 32 when no buffer is free. */
  datatype Window = Window(pool: seq<seq<byte>>, freeId: byte, bufId: seq<byte>, size: seq<nat>, begin: byte, end: byte)

  predicate Shaped(w: Window)
  {
    && |w.pool| == 32 && (forall i :: 0 <= i < 32 ==> |w.pool[i]| == BUFFER)
    && |w.bufId| == 32 && |w.size| == 32
  }

  /** A buffer whose first byte links it into the free list. */
  function WithLink(b: seq<byte>, next: byte): (r: seq<byte>)
    requires b != []
    ensures |r| == |b| && r[0] == next && r[1..] == b[1..]
  {
    [next] + b[1..]
  }

  /** Every buffer number once. */
  function Ids(): (s: seq<byte>)
    ensures |s| == 32 && forall i :: 0 <= i < 32 ==> s[i] == i
  {
    seq(32, i requires 0 <= i < 32 => i)
  }

  /** The free list is `c`, in order: it starts at `id`, and each buffer's first byte names the next. */
  ghost predicate Linked(pool: seq<seq<byte>>, id: byte, c: seq<byte>)
    requires |pool| == 32 && forall i :: 0 <= i < 32 ==> |pool[i]| == BUFFER
    decreases c
  {
    if c == [] then id == 32 else id == c[0] && id < 32 && Linked(pool, pool[id][0], c[1..])
  }

  /** Buffers not on the free list may change. */
  lemma {:induction false} LinkedFrame(pool: seq<seq<byte>>, id: byte, c: seq<byte>, x: byte, b: seq<byte>)
    requires |pool| == 32 && forall i :: 0 <= i < 32 ==> |pool[i]| == BUFFER
    requires Linked(pool, id, c) && x < 32 && x !in c && |b| == BUFFER
    ensures Linked(pool[x := b], id, c)
    decreases c
  {
    if c != [] {
      assert c[0] in c;
      LinkedFrame(pool, pool[id][0], c[1..], x, b);
    }
  }

  /** Free and held buffers partition the pool. */
  ghost predicate PoolOk(w: Window, c: seq<byte>, held: multiset<byte>)
  {
    Shaped(w) && Linked(w.pool, w.freeId, c) && multiset(c) + held == multiset(Ids())
  }

  lemma {:induction false} CountInSeq(s: seq<byte>, x: byte, i: nat, j: nat)
    requires i < |s| && s[i] == x
    requires j < |s| && s[j] == x
    ensures multiset(s)[x] >= if i == j then 1 else 2
  {
    if i > j {
      CountInSeq(s, x, j, i);
    } else if i < j {
      assert s == s[..j] + s[j..];
      assert s[..j][i] == x && s[j..][0] == x;
    }
  }

  /** Every number counts once among all, none outside 0..31 does. */
  lemma IdsOnce(x: byte)
    ensures multiset(Ids())[x] == if 0 <= x < 32 then 1 else 0
  {
    if 0 <= x < 32 {
      var s := Ids();
      assert s == s[..x] + [x] + s[x + 1..];
      assert x !in s[..x] && x !in s[x + 1..];
    }
  }

  /** A held buffer is not free, and no free buffer is listed twice. */
  lemma Apart(w: Window, c: seq<byte>, held: multiset<byte>, x: byte)
    requires PoolOk(w, c, held) && x in held
    ensures 0 <= x < 32 && x !in c && held[x] == 1
  {
    IdsOnce(x);
    assert (multiset(c) + held)[x] == multiset(c)[x] + held[x];
  }

  lemma FreeOnce(w: Window, c: seq<byte>, held: multiset<byte>, i: nat, j: nat)
    requires PoolOk(w, c, held) && i < |c| && j < |c| && c[i] == c[j]
    ensures i == j && c[i] !in held
  {
    IdsOnce(c[i]);
    assert (multiset(c) + held)[c[i]] == multiset(c)[c[i]] + held[c[i]];
    CountInSeq(c, c[i], i, j);
  }

  /** A buffer is free exactly when not all 32 are held. */
  lemma SomeFree(w: Window, c: seq<byte>, held: multiset<byte>)
    requires PoolOk(w, c, held)
    ensures |held| <= 32 && (c != [] <==> |held| < 32) && (w.freeId < 32 <==> c != [])
  {
    assert |multiset(c) + held| == |c| + |held|;
    assert |multiset(Ids())| == 32;
  }

  /** Takes the first free buffer off the list. */
  function Allocated(w: Window): Window
    requires Shaped(w) && 0 <= w.freeId < 32
  {
    w.(freeId := w.pool[w.freeId][0])
  }

  lemma AllocateOk(w: Window, c: seq<byte>, held: multiset<byte>)
    requires PoolOk(w, c, held) && c != []
    ensures 0 <= w.freeId < 32 && PoolOk(Allocated(w), c[1..], held + multiset{w.freeId}) && w.freeId !in held
  {
    FreeOnce(w, c, held, 0, 0);
    assert c == [c[0]] + c[1..];
  }

  /** Puts a buffer back at the front of the list. */
  function Freed(w: Window, id: byte): Window
    requires Shaped(w) && 0 <= id < 32 && 0 <= w.freeId <= 32
  {
    w.(pool := w.pool[id := WithLink(w.pool[id], w.freeId)], freeId := id)
  }

  lemma FreeOk(w: Window, c: seq<byte>, held: multiset<byte>, id: byte)
    requires PoolOk(w, c, held) && id in held
    ensures 0 <= id < 32 && 0 <= w.freeId <= 32
    ensures PoolOk(Freed(w, id), [id] + c, held - multiset{id})
  {
    Apart(w, c, held, id);
    LinkedFrame(w.pool, w.freeId, c, id, WithLink(w.pool[id], w.freeId));
    assert ([id] + c)[1..] == c;
    assert multiset([id] + c) == multiset{id} + multiset(c);
  }

  /** Overwriting a held buffer leaves the free list alone. */
  lemma WriteOk(w: Window, c: seq<byte>, held: multiset<byte>, id: byte, b: seq<byte>)
    requires PoolOk(w, c, held) && id in held && |b| == BUFFER
    ensures 0 <= id < 32 && PoolOk(w.(pool := w.pool[id := b]), c, held)
  {
    Apart(w, c, held, id);
    LinkedFrame(w.pool, w.freeId, c, id, b);
  }

  /** Links all buffers, the initial state of a window. */
  method ClearBuffer(w: Window) returns (r: Window, ghost c: seq<byte>)
    requires Shaped(w)
    ensures PoolOk(r, c, multiset{}) && c == Ids()
    ensures r == w.(pool := r.pool, freeId := 0)
  {
    r := w.(freeId := 0);
    var i := 0;
    while i < 32
      invariant 0 <= i <= 32
      invariant Shaped(r) && r == w.(pool := r.pool, freeId := 0)
      invariant forall j :: 0 <= j < i ==> r.pool[j][0] == j + 1
    {
      r := r.(pool := r.pool[i := WithLink(r.pool[i], i + 1)]);
      i := i + 1;
    }
    c := Ids();
    LinkedIds(r.pool, 0);
    assert c[0..] == c;
  }

  lemma {:induction false} LinkedIds(pool: seq<seq<byte>>, i: nat)
    requires |pool| == 32 && forall j :: 0 <= j < 32 ==> |pool[j]| == BUFFER
    requires i <= 32 && forall j :: 0 <= j < 32 ==> pool[j][0] == j + 1
    ensures Linked(pool, i, Ids()[i..])
    decreases 32 - i
  {
    if i < 32 {
      LinkedIds(pool, i + 1);
      assert Ids()[i..][1..] == Ids()[i + 1..];
    }
  }
}
