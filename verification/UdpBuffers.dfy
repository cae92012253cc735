/**
 What the buffers of the two sliding windows hold, and how the elementary moves
 change it: send buffers are filled in order and freed from the front, receive
 buffers are filled in any order and emptied from the front.
 */
module UdpBuffers {
  import opened Options
  import opened Bytes
  import opened UdpWindow
  import opened UdpPool

  /** Buffer `id` holds a packet of `size` bytes, header included, with payload `data`. */
  predicate Holds(w: Window, id: byte, size: nat, data: Data)
    requires Shaped(w)
  {
    id < 32 && HEADER <= size <= BUFFER && w.pool[id][HEADER..size] == data
  }

  /** A packet held elsewhere is not affected by a change to another buffer. */
  lemma HoldsFrame(w: Window, x: byte, b: seq<byte>, id: byte, size: nat, data: Data)
    requires Shaped(w) && x < 32 && |b| == BUFFER && id != x && Holds(w, id, size, data)
    ensures Shaped(w.(pool := w.pool[x := b])) && Holds(w.(pool := w.pool[x := b]), id, size, data)
  {
  }

  // ---------------------------------------------------------------- send window

  /** Buffer and size of the i-th packet of the window. */
  function At(w: Window, i: nat): byte
    requires Shaped(w)
  {
    w.bufId[Slot(w.begin + i)]
  }

  function SizeAt(w: Window, i: nat): nat
    requires Shaped(w)
  {
    w.size[Slot(w.begin + i)]
  }

  /** The buffers of the `n` packets in flight. */
  function SendIds(w: Window, n: nat): (ids: seq<byte>)
    requires Shaped(w)
    ensures |ids| == n && forall i :: 0 <= i < n ==> ids[i] == At(w, i)
  {
    seq(n, i requires 0 <= i < n => At(w, i))
  }

  ghost predicate SendOk(w: Window, c: seq<byte>, flight: seq<Data>)
  {
    && Shaped(w) && |flight| <= 32 && w.end == Add8(w.begin, |flight|)
    && PoolOk(w, c, multiset(SendIds(w, |flight|)))
    && SendHolds(w, flight)
  }

  predicate SendHolds(w: Window, flight: seq<Data>)
    requires Shaped(w)
  {
    forall i :: 0 <= i < |flight| ==> Holds(w, At(w, i), SizeAt(w, i), flight[i])
  }

  lemma SlotAdd(b: nat, k: nat, i: nat)
    ensures Slot(Add8(b, k) + i) == Slot(b + k + i)
  {
    SlotTurns(Add8(b, k) + i, (b + k) / 256 * 8);
    assert (b + k) % 256 + (b + k) / 256 * 256 == b + k;
  }

  /** Packets in flight use different buffers. */
  lemma SendIdsApart(w: Window, c: seq<byte>, n: nat, i: nat, j: nat)
    requires Shaped(w) && PoolOk(w, c, multiset(SendIds(w, n))) && i < j < n
    ensures At(w, i) != At(w, j)
  {
    var ids := SendIds(w, n);
    if ids[i] == ids[j] {
      CountInSeq(ids, ids[i], i, j);
      Apart(w, c, multiset(ids), ids[i]);
    }
  }

  /** The oldest packet is acknowledged: its buffer is freed. */
  function FrontFreed(w: Window): (r: Window)
    requires Shaped(w) && At(w, 0) < 32 && w.freeId <= 32
    ensures Shaped(r)
  {
    Freed(w, At(w, 0)).(begin := Add8(w.begin, 1))
  }

  lemma FrontAt(w: Window, i: nat)
    requires Shaped(w) && At(w, 0) < 32 && w.freeId <= 32
    ensures At(FrontFreed(w), i) == At(w, i + 1) && SizeAt(FrontFreed(w), i) == SizeAt(w, i + 1)
  {
    SlotAdd(w.begin, 1, i);
    hide Slot, Add8;
  }

  lemma FrontIds(w: Window, n: nat)
    requires Shaped(w) && At(w, 0) < 32 && w.freeId <= 32 && 0 < n
    ensures SendIds(FrontFreed(w), n - 1) == SendIds(w, n)[1..]
    ensures multiset(SendIds(w, n)) - multiset{At(w, 0)} == multiset(SendIds(w, n)[1..])
    ensures At(w, 0) in multiset(SendIds(w, n))
  {
    var ids := SendIds(w, n);
    forall i | 0 <= i < n - 1 ensures SendIds(FrontFreed(w), n - 1)[i] == ids[1..][i] {
      FrontAt(w, i);
    }
    hide At, FrontFreed;
    assert ids == [ids[0]] + ids[1..];
  }

  lemma FrontHoldsOne(w: Window, c: seq<byte>, flight: seq<Data>, i: nat)
    requires SendOk(w, c, flight) && i + 1 < |flight| && At(w, 0) < 32 && w.freeId <= 32
    ensures var w' := FrontFreed(w); Holds(w', At(w', i), SizeAt(w', i), flight[i + 1])
  {
    FrontAt(w, i);
    SendIdsApart(w, c, |flight|, 0, i + 1);
    hide At, SizeAt, Slot, Add8, PoolOk, SendIds;
    assert Holds(w, At(w, i + 1), SizeAt(w, i + 1), flight[i + 1]);
  }

  lemma FrontFreedOk(w: Window, c: seq<byte>, flight: seq<Data>)
    requires SendOk(w, c, flight) && flight != []
    ensures At(w, 0) < 32 && w.freeId <= 32
    ensures SendOk(FrontFreed(w), [At(w, 0)] + c, flight[1..])
  {
    var n, id := |flight|, At(w, 0);
    var held := multiset(SendIds(w, n));
    assert SendIds(w, n)[0] == id;
    FreeOk(w, c, held, id);
    FrontIds(w, n);
    var w' := FrontFreed(w);
    PoolSame(Freed(w, id), w', [id] + c, held - multiset{id});
    forall i | 0 <= i < n - 1 ensures Holds(w', At(w', i), SizeAt(w', i), flight[1..][i]) {
      FrontHoldsOne(w, c, flight, i);
    }
    SubEnd(w.begin, n);
    hide PoolOk, At, SizeAt, SendIds, Holds, Add8, Freed;
    assert w'.end == w.end && w'.begin == Add8(w.begin, 1);
  }

  lemma SubEnd(b: byte, n: nat)
    requires 0 < n
    ensures Add8(Add8(b, 1), n - 1) == Add8(b, n)
  {
    Numbers(b + 1, n - 1);
  }

  /** The free list and the held buffers depend on pool and list head only. */
  lemma PoolSame(w: Window, w': Window, c: seq<byte>, held: multiset<byte>)
    requires PoolOk(w, c, held) && Shaped(w') && w'.pool == w.pool && w'.freeId == w.freeId
    ensures PoolOk(w', c, held)
  {
  }

  /** A new packet is numbered: it takes the first free buffer and the slot at the end. */
  function Appended(w: Window, b: seq<byte>, size: nat): (r: Window)
    requires Shaped(w) && w.freeId < 32 && |b| == BUFFER
    ensures Shaped(r)
  {
    var id, j := w.freeId, Slot(w.end);
    Allocated(w).(pool := w.pool[id := b], bufId := w.bufId[j := id], size := w.size[j := size], end := Add8(w.end, 1))
  }

  lemma AppendedAt(w: Window, b: seq<byte>, size: nat, n: nat, i: nat)
    requires Shaped(w) && w.freeId < 32 && |b| == BUFFER && n < 32 && w.end == Add8(w.begin, n) && i <= n
    ensures var w' := Appended(w, b, size);
            && At(w', i) == (if i == n then w.freeId else At(w, i))
            && SizeAt(w', i) == (if i == n then size else SizeAt(w, i))
  {
    SlotAdd(w.begin, n, 0);
    SlotApart(w.begin + i, n - i);
    hide Slot, Add8;
  }

  lemma AppendedIds(w: Window, b: seq<byte>, size: nat, n: nat)
    requires Shaped(w) && w.freeId < 32 && |b| == BUFFER && n < 32 && w.end == Add8(w.begin, n)
    ensures SendIds(Appended(w, b, size), n + 1) == SendIds(w, n) + [w.freeId]
  {
    var w' := Appended(w, b, size);
    forall i | 0 <= i < n + 1 ensures SendIds(w', n + 1)[i] == (SendIds(w, n) + [w.freeId])[i] {
      AppendedAt(w, b, size, n, i);
    }
    hide At, Appended;
  }

  lemma AppendedHoldsOne(w: Window, c: seq<byte>, flight: seq<Data>, b: seq<byte>, size: nat, i: nat)
    requires SendOk(w, c, flight) && w.freeId < 32 && |flight| < 32 && |b| == BUFFER && HEADER <= size <= BUFFER
    requires w.freeId !in multiset(SendIds(w, |flight|)) && i <= |flight|
    ensures var w' := Appended(w, b, size); Holds(w', At(w', i), SizeAt(w', i), (flight + [b[HEADER..size]])[i])
  {
    AppendedAt(w, b, size, |flight|, i);
    hide At, SizeAt, Slot, Add8, PoolOk;
    if i < |flight| {
      assert SendIds(w, |flight|)[i] == At(w, i);
      assert Holds(w, At(w, i), SizeAt(w, i), flight[i]);
    }
  }

  lemma AppendedOk(w: Window, c: seq<byte>, flight: seq<Data>, b: seq<byte>, size: nat)
    requires SendOk(w, c, flight) && w.freeId < 32
    requires |b| == BUFFER && HEADER <= size <= BUFFER
    ensures c != [] && |flight| < 32
    ensures SendOk(Appended(w, b, size), c[1..], flight + [b[HEADER..size]])
  {
    var n, id := |flight|, w.freeId;
    var held := multiset(SendIds(w, n));
    SomeFree(w, c, held);
    AllocateOk(w, c, held);
    WriteOk(Allocated(w), c[1..], held + multiset{id}, id, b);
    var w' := Appended(w, b, size);
    AppendedIds(w, b, size, n);
    PoolSame(Allocated(w).(pool := w.pool[id := b]), w', c[1..], held + multiset{id});
    forall i | 0 <= i < n + 1 ensures Holds(w', At(w', i), SizeAt(w', i), (flight + [b[HEADER..size]])[i]) {
      AppendedHoldsOne(w, c, flight, b, size, i);
    }
    Numbers(w.begin + n, 1);
    hide PoolOk, At, SizeAt, SendIds, Holds, Allocated;
    assert w'.end == Add8(w.begin, n + 1);
  }

  /** The header of a packet in flight is rewritten. */
  lemma RewriteOk(w: Window, c: seq<byte>, flight: seq<Data>, i: nat, b: seq<byte>)
    requires SendOk(w, c, flight) && i < |flight| && |b| == BUFFER
    requires At(w, i) < 32 ==> b[HEADER..] == w.pool[At(w, i)][HEADER..]
    ensures At(w, i) < 32 && SendOk(w.(pool := w.pool[At(w, i) := b]), c, flight)
  {
    var id := At(w, i);
    var held := multiset(SendIds(w, |flight|));
    assert SendIds(w, |flight|)[i] == id;
    WriteOk(w, c, held, id, b);
    var w' := w.(pool := w.pool[id := b]);
    assert SendIds(w', |flight|) == SendIds(w, |flight|);
    forall k | 0 <= k < |flight| ensures Holds(w', At(w', k), SizeAt(w', k), flight[k]) {
      assert At(w', k) == At(w, k) && SizeAt(w', k) == SizeAt(w, k);
      hide At, SizeAt, PoolOk;
      assert Holds(w, At(w, k), SizeAt(w, k), flight[k]);
      if At(w, k) == id {
        assert b[HEADER..SizeAt(w, k)] == b[HEADER..][..SizeAt(w, k) - HEADER];
        assert w.pool[id][HEADER..SizeAt(w, k)] == w.pool[id][HEADER..][..SizeAt(w, k) - HEADER];
      }
    }
    hide PoolOk, At, SizeAt, SendIds, Holds;
  }

  // ---------------------------------------------------------------- receive window

  /** The buffers held by the slots of a receive window; 32 and above stand for an empty slot. */
  function HeldIn(b: seq<byte>): multiset<byte>
  {
    if b == [] then multiset{} else HeldIn(b[..|b| - 1]) + One(b[|b| - 1])
  }

  function One(id: byte): multiset<byte>
  {
    if id < 32 then multiset{id} else multiset{}
  }

  /** Changing one slot exchanges what it held. */
  lemma {:induction false} HeldUpdate(b: seq<byte>, j: nat, id: byte)
    requires j < |b|
    ensures One(b[j]) <= HeldIn(b)
    ensures HeldIn(b[j := id]) == HeldIn(b) - One(b[j]) + One(id)
    decreases |b|
  {
    hide *;
    var n := |b| - 1;
    var front, u := b[..n], b[j := id];
    HeldLast(b);
    HeldLast(u);
    if j == n {
      assert u[..n] == front;
      ExchangeLast(HeldIn(front), One(b[j]), One(id));
    } else {
      HeldUpdate(front, j, id);
      assert u[..n] == front[j := id];
      Exchange(HeldIn(front), One(b[n]), One(b[j]), One(id));
    }
  }

  lemma HeldLast(b: seq<byte>)
    requires b != []
    ensures HeldIn(b) == HeldIn(b[..|b| - 1]) + One(b[|b| - 1])
  {
  }

  lemma ExchangeLast(m: multiset<byte>, x: multiset<byte>, y: multiset<byte>)
    ensures x <= m + x && m + x - x + y == m + y
  {
  }

  lemma Exchange(m: multiset<byte>, last: multiset<byte>, x: multiset<byte>, y: multiset<byte>)
    requires x <= m
    ensures x <= m + last && m - x + y + last == m + last - x + y
  {
  }

  lemma {:induction false} HeldCount(b: seq<byte>)
    ensures |HeldIn(b)| <= |b|
  {
    if b != [] {
      HeldCount(b[..|b| - 1]);
    }
  }

  /** An empty slot leaves room for at most |b| - 1 buffers. */
  lemma HeldRoom(b: seq<byte>, j: nat)
    requires j < |b| && b[j] >= 32
    ensures |HeldIn(b)| < |b|
  {
    var id: byte := 0;
    HeldUpdate(b, j, id);
    HeldCount(b[j := id]);
  }

  lemma {:induction false} HeldNone(b: seq<byte>)
    requires forall j :: 0 <= j < |b| ==> b[j] >= 32
    ensures HeldIn(b) == multiset{}
  {
    if b != [] {
      HeldNone(b[..|b| - 1]);
    }
  }

  /** Slots and buffers of a receive window; `extra` is a buffer being filled. */
  ghost predicate RecvOk(w: Window, c: seq<byte>, slots: seq<Option<Data>>, extra: multiset<byte>)
  {
    && Shaped(w) && |slots| == 32 && w.end == Add8(w.begin, 32)
    && PoolOk(w, c, HeldIn(w.bufId) + extra)
    && (forall j :: 0 <= j < 32 ==> SlotHolds(w, j, slots[j]))
  }

  predicate SlotHolds(w: Window, j: nat, slot: Option<Data>)
    requires Shaped(w) && j < 32
  {
    if w.bufId[j] < 32 then slot.Some? && Holds(w, w.bufId[j], w.size[j], slot.value) else slot.None?
  }

  /** While a slot is empty, an arriving datagram finds a free buffer. */
  lemma RecvAllocate(w: Window, c: seq<byte>, slots: seq<Option<Data>>, j: nat)
    requires RecvOk(w, c, slots, multiset{}) && j < 32 && slots[j].None?
    ensures c != [] && w.freeId < 32 && |HeldIn(w.bufId)| <= 31
    ensures RecvOk(Allocated(w), c[1..], slots, multiset{w.freeId})
  {
    HeldRoom(w.bufId, j);
    assert HeldIn(w.bufId) + multiset{} == HeldIn(w.bufId);
    SomeFree(w, c, HeldIn(w.bufId));
    AllocateOk(w, c, HeldIn(w.bufId));
    forall j | 0 <= j < 32 ensures SlotHolds(Allocated(w), j, slots[j]) {
    }
    hide HeldIn, PoolOk, Holds;
  }

  /** The datagram is written into the buffer being filled. */
  lemma RecvWrite(w: Window, c: seq<byte>, slots: seq<Option<Data>>, id: byte, b: seq<byte>)
    requires RecvOk(w, c, slots, multiset{id}) && |b| == BUFFER
    ensures id < 32 && RecvOk(w.(pool := w.pool[id := b]), c, slots, multiset{id})
  {
    var held := HeldIn(w.bufId) + multiset{id};
    WriteOk(w, c, held, id, b);
    Apart(w, c, held, id);
    hide PoolOk, Holds;
    forall j | 0 <= j < 32 ensures SlotHolds(w.(pool := w.pool[id := b]), j, slots[j]) {
      SlotApartFrom(w, c, id, j);
      if w.bufId[j] < 32 {
        HoldsFrame(w, id, b, w.bufId[j], w.size[j], slots[j].value);
      }
    }
  }

  /** No slot uses the buffer being filled. */
  lemma SlotApartFrom(w: Window, c: seq<byte>, id: byte, j: nat)
    requires Shaped(w) && PoolOk(w, c, HeldIn(w.bufId) + multiset{id}) && j < 32 && id < 32
    ensures w.bufId[j] != id
  {
    HeldUpdate(w.bufId, j, 32);
    var held := HeldIn(w.bufId);
    Apart(w, c, held + multiset{id}, id);
    assert held[id] == 0;
  }

  /** The filled buffer goes into its empty slot. */
  lemma RecvStore(w: Window, c: seq<byte>, slots: seq<Option<Data>>, id: byte, j: nat, size: nat)
    requires RecvOk(w, c, slots, multiset{id}) && j < 32 && slots[j].None? && HEADER <= size <= BUFFER
    ensures id < 32
    ensures RecvOk(w.(bufId := w.bufId[j := id], size := w.size[j := size]), c,
                   slots[j := Some(w.pool[id][HEADER..size])], multiset{})
  {
    var w' := w.(bufId := w.bufId[j := id], size := w.size[j := size]);
    Apart(w, c, HeldIn(w.bufId) + multiset{id}, id);
    HeldUpdate(w.bufId, j, id);
    assert HeldIn(w'.bufId) + multiset{} == HeldIn(w.bufId) + multiset{id};
    PoolSame(w, w', c, HeldIn(w'.bufId) + multiset{});
    hide PoolOk, HeldIn;
  }

  /** The datagram is not wanted: its buffer is freed. */
  lemma RecvFree(w: Window, c: seq<byte>, slots: seq<Option<Data>>, id: byte)
    requires RecvOk(w, c, slots, multiset{id})
    ensures id < 32 && w.freeId <= 32 && RecvOk(Freed(w, id), [id] + c, slots, multiset{})
  {
    var held := HeldIn(w.bufId) + multiset{id};
    FreeOk(w, c, held, id);
    Apart(w, c, held, id);
    assert held - multiset{id} == HeldIn(w.bufId) + multiset{};
    hide PoolOk, Holds;
    forall j | 0 <= j < 32 ensures SlotHolds(Freed(w, id), j, slots[j]) {
      SlotApartFrom(w, c, id, j);
      if w.bufId[j] < 32 {
        HoldsFrame(w, id, WithLink(w.pool[id], w.freeId), w.bufId[j], w.size[j], slots[j].value);
      }
    }
  }

  /** The front packet leaves the window; its buffer is freed and the window moves on. */
  function FrontTaken(w: Window): (r: Window)
    requires Shaped(w) && w.bufId[Slot(w.begin)] < 32 && w.freeId <= 32
    ensures Shaped(r)
  {
    var j := Slot(w.begin);
    Freed(w, w.bufId[j]).(bufId := w.bufId[j := 32], size := w.size[j := 0], begin := Add8(w.begin, 1), end := Add8(w.end, 1))
  }

  lemma FrontTakenOk(w: Window, c: seq<byte>, slots: seq<Option<Data>>)
    requires RecvOk(w, c, slots, multiset{}) && slots[Slot(w.begin)].Some?
    ensures w.bufId[Slot(w.begin)] < 32 && w.freeId <= 32
    ensures RecvOk(FrontTaken(w), [w.bufId[Slot(w.begin)]] + c, slots[Slot(w.begin) := None], multiset{})
  {
    var j := Slot(w.begin);
    var id := w.bufId[j];
    assert SlotHolds(w, j, slots[j]);
    HeldUpdate(w.bufId, j, 32);
    var held := HeldIn(w.bufId[j := 32]) + multiset{id};
    assert held == HeldIn(w.bufId) + multiset{};
    FreeOk(w, c, held, id);
    assert held - multiset{id} == HeldIn(w.bufId[j := 32]) + multiset{};
    var w' := FrontTaken(w);
    PoolSame(Freed(w, id), w', [id] + c, HeldIn(w'.bufId) + multiset{});
    var u := w.(bufId := w.bufId[j := 32]);
    PoolSame(w, u, c, held);
    EndMoves(w.begin);
    var slots' := slots[j := None];
    forall k | 0 <= k < 32 ensures SlotHolds(w', k, slots'[k]) {
      OthersHold(w, c, slots, j, k);
    }
    hide PoolOk, SlotHolds, HeldIn, Slot, Add8;
  }

  lemma OthersHold(w: Window, c: seq<byte>, slots: seq<Option<Data>>, j: nat, k: nat)
    requires Shaped(w) && j == Slot(w.begin) && k < 32 && |slots| == 32 && SlotHolds(w, k, slots[k])
    requires w.bufId[j] < 32 && w.freeId <= 32
    requires PoolOk(w.(bufId := w.bufId[j := 32]), c, HeldIn(w.bufId[j := 32]) + multiset{w.bufId[j]})
    ensures SlotHolds(FrontTaken(w), k, slots[j := None][k])
  {
    var w', id := FrontTaken(w), w.bufId[j];
    if k != j {
      SlotApartFrom(w.(bufId := w.bufId[j := 32]), c, id, k);
      hide PoolOk, HeldIn, Slot, Add8, Holds;
      if w.bufId[k] < 32 {
        HoldsFrame(w, id, WithLink(w.pool[id], w.freeId), w.bufId[k], w.size[k], slots[k].value);
        HoldsSame(w.(pool := w.pool[id := WithLink(w.pool[id], w.freeId)]), w', w.bufId[k], w.size[k], slots[k].value);
      }
    }
  }

  lemma EndMoves(b: byte)
    ensures Add8(Add8(b, 32), 1) == Add8(Add8(b, 1), 32)
  {
    Numbers(b + 32, 1);
    Numbers(b + 1, 32);
  }

  lemma HoldsSame(w: Window, w': Window, id: byte, size: nat, data: Data)
    requires Shaped(w) && Shaped(w') && w.pool == w'.pool && Holds(w, id, size, data)
    ensures Holds(w', id, size, data)
  {
  }
}
