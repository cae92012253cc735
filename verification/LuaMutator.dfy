/**
 What the running program does to the heap between collector steps: allocation,
 stores with their barriers, stack writes without any, interned strings and
 upvalues that are found again although they look dead.
 */
module LuaMutator {
  import opened LuaHeap
  import opened LuaMark
  import opened LuaCycle
  import opened LuaSweep

  /** `k` is the slot of the running thread's stack, `c` and `i` the closure's slot, where the result goes. */
  datatype Op =
    | New(x: Ref, kind: Kind, slots: seq<Value>, k: nat)      // a new object, neither a string nor an upvalue
    | NewUpval(x: Ref, v: Value, c: Ref, i: nat)              // a closed upvalue for a new closure
    | FindUpval(x: Ref, t: Ref, level: nat, c: Ref, i: nat)   // the open upvalue of a stack slot, for a new closure
    | Intern(x: Ref, text: string, k: nat)
    | SetSlot(o: Ref, i: nat, v: Value)               // a field, or a stack slot
    | SetUpval(u: Ref, v: Value)
    | Pop(t: Ref, n: nat)                             // a stack shrinks to n slots
    | CloseUpval(u: Ref)
    | SetMt(i: nat, v: Value)                         // a basic metatable
    | Resume(t: Ref)
    | Resize(n: nat)                                  // of the string table

  // ---------------------------------------------------------------- adding objects

  function Insert(s: seq<Ref>, i: nat, x: Ref): seq<Ref>
    requires i <= |s|
  {
    s[..i] + [x] + s[i..]
  }

  /** Where a new object is linked: userdata right behind the main thread, others in front. */
  function LinkAt(g: Global, kind: Kind): (i: nat)
    ensures i <= |g.rootgc|
  {
    if kind.Userdata? then Behind(g.rootgc, g.main) else 0
  }

  function Behind(s: seq<Ref>, x: Ref): (i: nat)
    ensures i <= |s|
  {
    if s == [] then 0 else if s[0] == x then 1 else 1 + Behind(s[1..], x)
  }

  /** A new object is white, on the list its kind belongs to. */
  function Add(g: Global, x: Ref, kind: Kind, slots: seq<Value>): Global
  {
    var h := g.(heap := g.heap[x := Obj(kind, White(g.cur), false, slots)]);
    match kind
    case Str(_) => h
    case Open(_, _) => h.(uvhead := [x] + g.uvhead)
    case _ =>
      var i := LinkAt(g, kind);
      h.(rootgc := Insert(g.rootgc, i, x), sweepgc := if g.sweepgc <= i then g.sweepgc else g.sweepgc + 1)
  }

  /** Values a new object may hold: live ones. */
  ghost predicate SeqLive(g: Global, s: seq<Value>)
  {
    forall i :: 0 <= i < |s| ==> (s[i].Ptr? ==> Live(g, s[i].ref))
  }

  ghost predicate Addable(g: Global, x: Ref, kind: Kind, slots: seq<Value>)
  {
    && x !in g.heap && SeqLive(g, slots)
    && (kind.Str? || kind.Open? ==> slots == []) && (kind.Closed? ==> |slots| == 1)
    && (kind.Open? ==> OwnerOk(g, kind.owner, kind.level) && SeqLive(g, [g.heap[kind.owner].slots[kind.level]]))
    && (kind.Str? ==> forall y :: y in g.heap ==> g.heap[y].kind != kind)
  }

  lemma InsertDistinct(s: seq<Ref>, i: nat, x: Ref)
    requires i <= |s| && Distinct(s) && x !in s
    ensures Distinct(Insert(s, i, x)) && forall y :: y in Insert(s, i, x) <==> y in s || y == x
  {
    var r := Insert(s, i, x);
    forall y ensures y in r <==> y in s || y == x {
      assert s == s[..i] + s[i..];
    }
  }

  lemma AddObject(g: Global, x: Ref, kind: Kind, slots: seq<Value>, y: Ref)
    requires Structure(g) && Addable(g, x, kind, slots)
    ensures var r := Add(g, x, kind, slots);
            && (y in r.heap ==> ObjectOk(r, y))
            && (y != x ==> Slots(r, y) == Slots(g, y) && (y in r.heap <==> y in g.heap) && (y in g.heap ==> r.heap[y] == g.heap[y]))
            && SeqLive(g, Slots(r, x)) && x in r.heap && r.heap[x] == Obj(kind, White(g.cur), false, slots)
            && r.cur == g.cur && r.phase == g.phase && r.gray == g.gray && r.again == g.again && r.main == g.main && r.running == g.running && r.mt == g.mt
            && r.strsize == g.strsize && r.sweepstr == g.sweepstr
  {
    if y in g.heap {
      assert ObjectOk(g, y);
    }
    hide Structure, Interned;
  }

  lemma AddLists(g: Global, x: Ref, kind: Kind, slots: seq<Value>)
    requires Structure(g) && x !in g.heap
    ensures var r := Add(g, x, kind, slots);
            && r.sweepgc <= |r.rootgc| && Distinct(r.rootgc) && Distinct(r.uvhead)
            && (forall y :: y in r.rootgc <==> y in g.rootgc || (y == x && OnRootList(kind)))
            && (forall y :: y in r.uvhead <==> y in g.uvhead || (y == x && kind.Open?))
  {
    assert x !in g.rootgc && x !in g.uvhead;
    hide Structure, Insert, LinkAt;
    if OnRootList(kind) {
      var i := LinkAt(g, kind);
      InsertDistinct(g.rootgc, i, x);
      assert |Insert(g.rootgc, i, x)| == |g.rootgc| + 1 by { InsertLength(g.rootgc, i, x); }
    }
  }

  lemma InsertLength(s: seq<Ref>, i: nat, x: Ref)
    requires i <= |s|
    ensures |Insert(s, i, x)| == |s| + 1
  {
  }

  lemma AddIs(g: Global, x: Ref, kind: Kind, slots: seq<Value>)
    ensures var r := Add(g, x, kind, slots);
            r == g.(heap := g.heap[x := Obj(kind, White(g.cur), false, slots)], rootgc := r.rootgc, sweepgc := r.sweepgc, uvhead := r.uvhead)
  {
    hide Insert, LinkAt;
  }

  lemma AddStructure(g: Global, x: Ref, kind: Kind, slots: seq<Value>)
    requires Structure(g) && Interned(g) && Addable(g, x, kind, slots)
    ensures Structure(Add(g, x, kind, slots)) && Interned(Add(g, x, kind, slots))
  {
    var r := Add(g, x, kind, slots);
    AddIs(g, x, kind, slots);
    AddLists(g, x, kind, slots);
    AddObjects(g, x, kind, slots);
    AddInterned(g, r, x, kind, slots);
    hide *;
    OneMore(g, r, x, Obj(kind, White(g.cur), false, slots));
  }

  /** The structure after one more object, given that the lists and the objects are right. */
  lemma OneMore(g: Global, r: Global, x: Ref, o: Obj)
    requires Structure(g) && x !in g.heap && r == g.(heap := g.heap[x := o], rootgc := r.rootgc, sweepgc := r.sweepgc, uvhead := r.uvhead)
    requires r.sweepgc <= |r.rootgc| && Distinct(r.rootgc) && Distinct(r.uvhead) && forall y :: y in r.heap ==> ObjectOk(r, y)
    requires forall y :: y in r.rootgc <==> y in g.rootgc || (y == x && OnRootList(o.kind))
    requires forall y :: y in r.uvhead <==> y in g.uvhead || (y == x && o.kind.Open?)
    ensures Structure(r)
  {
    hide ObjectOk, Distinct;
  }

  lemma AddObjects(g: Global, x: Ref, kind: Kind, slots: seq<Value>)
    requires Structure(g) && Addable(g, x, kind, slots)
    ensures var r := Add(g, x, kind, slots); x !in g.heap && forall y :: y in r.heap ==> ObjectOk(r, y)
  {
    forall y | y in Add(g, x, kind, slots).heap ensures ObjectOk(Add(g, x, kind, slots), y) {
      AddObject(g, x, kind, slots, y);
    }
    hide ObjectOk, Add, Slots, Structure, SeqLive;
  }

  lemma AddInterned(g: Global, r: Global, x: Ref, kind: Kind, slots: seq<Value>)
    requires Interned(g) && Addable(g, x, kind, slots) && r.heap == g.heap[x := Obj(kind, White(g.cur), false, slots)]
    ensures Interned(r)
  {
    hide SeqLive, OwnerOk;
  }

  lemma AddLive(g: Global, x: Ref, kind: Kind, slots: seq<Value>)
    requires Structure(g) && LiveClosed(g) && Addable(g, x, kind, slots)
    ensures LiveClosed(Add(g, x, kind, slots))
  {
    var r := Add(g, x, kind, slots);
    forall y ensures (y != x ==> Slots(r, y) == Slots(g, y)) && (Live(g, y) ==> Live(r, y)) && (Live(r, y) ==> Live(g, y) || y == x) {
      AddObject(g, x, kind, slots, y);
    }
    AddObject(g, x, kind, slots, x);
    forall y, z | Live(r, y) && Refers(r, y, z) ensures Live(r, z) {
      if y == x {
        var i :| 0 <= i < |Slots(r, x)| && Slots(r, x)[i] == Ptr(z);
        assert Live(g, z);
      } else {
        assert Refers(g, y, z);
      }
      hide Slots, Live, Add;
    }
    assert forall y :: IsRoot(r, y) ==> IsRoot(g, y);
  }

  lemma AddTri(g: Global, x: Ref, kind: Kind, slots: seq<Value>)
    requires Structure(g) && Tri(g, {}, false, false) && Addable(g, x, kind, slots)
    ensures Tri(Add(g, x, kind, slots), {}, false, false)
  {
    var r := Add(g, x, kind, slots);
    forall y ensures y != x ==> Slots(r, y) == Slots(g, y) && (y in r.heap <==> y in g.heap) && (y in g.heap ==> r.heap[y] == g.heap[y]) {
      AddObject(g, x, kind, slots, y);
    }
    AddObject(g, x, kind, slots, x);
    hide Slots, Add, Structure, Addable;
    AddWhole(g, r, x);
    ListsSame(g, r);
    forall y | y in r.heap ensures Done(r, y, false, false) {
      if y != x {
        assert Done(g, y, false, false);
        SlotsMarked(g, r, y);
      }
      hide AllMarked, Whole, Lists;
    }
  }

  lemma AddWhole(g: Global, r: Global, x: Ref)
    requires Whole(g) && x !in g.heap && x in r.heap && SeqLive(g, Slots(r, x))
    requires forall y :: y != x ==> Slots(r, y) == Slots(g, y) && (y in r.heap <==> y in g.heap)
    ensures Whole(r)
  {
    hide Slots;
    forall y, i | y in r.heap && 0 <= i < |Slots(r, y)| && Slots(r, y)[i].Ptr? ensures Slots(r, y)[i].ref in r.heap {
      if y == x {
        assert Live(g, Slots(r, x)[i].ref);
      }
    }
  }

  lemma SlotsMarked(g: Global, r: Global, y: Ref)
    requires Slots(r, y) == Slots(g, y) && forall z :: Marked(g, z) ==> Marked(r, z)
    ensures AllMarked(g, y) ==> AllMarked(r, y)
  {
    hide Slots, Marked;
    if AllMarked(g, y) {
      forall i | 0 <= i < |Slots(r, y)| ensures ValueMarked(r, Slots(r, y)[i]) {
        assert ValueMarked(g, Slots(g, y)[i]);
      }
    }
  }

  lemma InsertPrefix(s: seq<Ref>, i: nat, x: Ref, n: nat, y: Ref)
    requires i <= |s| && n <= |s|
    ensures var m := if n <= i then n else n + 1;
            m <= |Insert(s, i, x)| && (y in Insert(s, i, x)[..m] ==> y in s[..n] || y == x)
  {
    if n <= i {
      assert Insert(s, i, x)[..n] == s[..n];
    } else {
      assert Insert(s, i, x)[..n + 1] == s[..i] + [x] + s[i..n];
      assert s[..n] == s[..i] + s[i..n];
    }
  }

  lemma AddPrefix(g: Global, x: Ref, kind: Kind, slots: seq<Value>, y: Ref)
    requires g.sweepgc <= |g.rootgc|
    ensures var r := Add(g, x, kind, slots);
            && r.sweepgc <= |r.rootgc| && (g.sweepgc == 0 ==> r.sweepgc == 0)
            && (y in r.rootgc[..r.sweepgc] ==> y in g.rootgc[..g.sweepgc] || y == x)
  {
    if OnRootList(kind) {
      InsertPrefix(g.rootgc, LinkAt(g, kind), x, g.sweepgc, y);
    }
    hide Insert, LinkAt;
  }

  lemma AddSwept(g: Global, x: Ref, kind: Kind, slots: seq<Value>)
    requires Structure(g) && Addable(g, x, kind, slots)
    ensures var r := Add(g, x, kind, slots);
            && r.sweepgc <= |r.rootgc| && (ListSwept(g, g.sweepgc) ==> ListSwept(r, r.sweepgc))
            && (g.sweepgc == 0 ==> r.sweepgc == 0)
  {
    var r := Add(g, x, kind, slots);
    AddIs(g, x, kind, slots);
    AddPrefix(g, x, kind, slots, x);
    hide Add, Slots, LinkAt;
    if ListSwept(g, g.sweepgc) {
      forall y | y in r.heap && !r.heap[y].kind.Str? && Home(r.heap[y], y) in r.rootgc[..r.sweepgc] ensures IsCurrent(r, y) {
        if y != x {
          AddPrefix(g, x, kind, slots, Home(r.heap[y], y));
          assert ObjectOk(g, y);
          assert IsCurrent(g, y);
        }
      }
    }
  }

  lemma AddInv(g: Global, x: Ref, kind: Kind, slots: seq<Value>)
    requires Inv(g) && Addable(g, x, kind, slots)
    ensures Inv(Add(g, x, kind, slots))
  {
    var r := Add(g, x, kind, slots);
    AddStructure(g, x, kind, slots);
    AddLive(g, x, kind, slots);
    AddSwept(g, x, kind, slots);
    AddIs(g, x, kind, slots);
    if g.phase.Propagate? {
      AddTri(g, x, kind, slots);
    }
    AddPhase(g, r, x);
  }

  /** Nothing but `x`, which is of the current white, is new. */
  lemma AddPhase(g: Global, r: Global, x: Ref)
    requires 0 < g.strsize && g.sweepgc <= |g.rootgc| && PhaseOk(g) && x !in g.heap && x in r.heap && IsCurrent(r, x) && r.sweepgc <= |r.rootgc|
    requires r == g.(heap := g.heap[x := r.heap[x]], rootgc := r.rootgc, sweepgc := r.sweepgc, uvhead := r.uvhead)
    requires g.phase.Propagate? ==> Tri(r, {}, false, false)
    requires (ListSwept(g, g.sweepgc) ==> ListSwept(r, r.sweepgc)) && (g.sweepgc == 0 ==> r.sweepgc == 0)
    ensures PhaseOk(r)
  {
    hide Tri, ListSwept, Chain;
    assert forall y :: IsCurrent(g, y) ==> IsCurrent(r, y);
    assert forall y :: Live(g, y) ==> Live(r, y);
    assert forall y :: Marked(g, y) ==> Marked(r, y);
    forall n | StringsSwept(g, n) ensures StringsSwept(r, n) {
      ChainSame(g, r);
    }
  }

  lemma ChainSame(g: Global, r: Global)
    requires 0 < g.strsize == r.strsize
    ensures forall t: string :: Chain(r, t) == Chain(g, t)
  {
  }

  // ---------------------------------------------------------------- what looks dead and is found again

  /** A string or open upvalue that was found dead but not yet freed is taken back. */
  function Revive(g: Global, x: Ref): Global
    requires x in g.heap
  {
    if Dead(g, x) then Paint(g, x, White(g.cur)) else g
  }

  lemma ReviveInv(g: Global, x: Ref)
    requires Inv(g) && x in g.heap && SeqLive(g, Slots(g, x))
    ensures Inv(Revive(g, x))
  {
    if Dead(g, x) {
      var r := Revive(g, x);
      ReviveLive(g, x);
      PaintStructure(g, x, White(g.cur));
      hide Structure, Interned, LiveClosed, SeqLive, Slots;
      RevivePhase(g, x);
    }
  }

  lemma ReviveLive(g: Global, x: Ref)
    requires LiveClosed(g) && Dead(g, x) && SeqLive(g, Slots(g, x))
    ensures LiveClosed(Paint(g, x, White(g.cur)))
  {
    var r := Paint(g, x, White(g.cur));
    forall y ensures Slots(r, y) == Slots(g, y) && (Live(r, y) <==> Live(g, y) || y == x) {
    }
    hide Slots, Live;
    forall y, z | Live(r, y) && Refers(r, y, z) ensures Live(r, z) {
      if y == x {
        var i :| 0 <= i < |Slots(g, x)| && Slots(g, x)[i] == Ptr(z);
      } else {
        assert Refers(g, y, z);
      }
    }
    assert forall y :: IsRoot(r, y) ==> IsRoot(g, y);
  }

  lemma PaintStructure(g: Global, x: Ref, c: Color)
    requires Structure(g) && Interned(g) && x in g.heap
    ensures Structure(Paint(g, x, c)) && Interned(Paint(g, x, c))
  {
    var r := Paint(g, x, c);
    forall y | y in r.heap ensures ObjectOk(r, y) {
      assert ObjectOk(g, y);
    }
    forall y | y in g.heap ensures y in r.heap && r.heap[y].kind == g.heap[y].kind {
    }
    hide ObjectOk, Paint, Distinct;
    assert r.rootgc == g.rootgc && r.uvhead == g.uvhead && r.heap.Keys == g.heap.Keys && r.sweepgc == g.sweepgc && r.strsize == g.strsize && r.main == g.main && r.running == g.running by { PaintIs(g, x, c); }
  }

  lemma PaintIs(g: Global, x: Ref, c: Color)
    requires x in g.heap
    ensures Paint(g, x, c) == g.(heap := Paint(g, x, c).heap) && Paint(g, x, c).heap.Keys == g.heap.Keys
  {
  }

  lemma RevivePhase(g: Global, x: Ref)
    requires 0 < g.strsize && g.sweepgc <= |g.rootgc| && PhaseOk(g) && Dead(g, x)
    ensures PhaseOk(Paint(g, x, White(g.cur)))
  {
    var r := Paint(g, x, White(g.cur));
    ChainSame(g, r);
    hide Chain;
    assert g.phase.Pause? || g.phase.Finalize? ==> IsCurrent(g, x);
    assert g.phase.Propagate? ==> Live(g, x);
    assert forall y :: IsCurrent(g, y) ==> IsCurrent(r, y);
    hide Tri, Dead, Live;
  }

  // ---------------------------------------------------------------- stores

  /** `o` holds `s` from now on. */
  function Write(g: Global, o: Ref, s: seq<Value>): Global
    requires o in g.heap
  {
    g.(heap := g.heap[o := g.heap[o].(slots := s)])
  }

  /** What may be written: no slot with an open upvalue goes away, and nothing live gets to hold anything dead. */
  ghost predicate Writable(g: Global, o: Ref, s: seq<Value>)
    requires o in g.heap
  {
    && !g.heap[o].kind.Str? && !g.heap[o].kind.Open? && (g.heap[o].kind.Closed? ==> |s| == 1)
    && (Live(g, o) ==> SeqLive(g, s))
    && (forall u :: OpenOf(g, u, o) ==> LevelOk(g, u, s))
  }

  /** The slot of open upvalue `u` is there, and fit to be referred to. */
  predicate LevelOk(g: Global, u: Ref, s: seq<Value>)
    requires u in g.heap && g.heap[u].kind.Open?
  {
    var l := g.heap[u].kind.level;
    l < |s| && (Live(g, u) && s[l].Ptr? ==> Live(g, s[l].ref))
  }

  lemma WriteSlots(g: Global, o: Ref, s: seq<Value>, y: Ref)
    requires Structure(g) && o in g.heap && Writable(g, o, s)
    ensures var r := Write(g, o, s);
            && (y in r.heap <==> y in g.heap) && (y in r.heap ==> ObjectOk(r, y) && r.heap[y].color == g.heap[y].color && r.heap[y].kind == g.heap[y].kind)
            && (y != o && !OpenOf(g, y, o) ==> Slots(r, y) == Slots(g, y))
            && Slots(r, o) == s
            && (OpenOf(g, y, o) ==> g.heap[y].kind.level < |s| && Slots(r, y) == [s[g.heap[y].kind.level]] && LevelOk(g, y, s))
  {
    if y in g.heap {
      assert ObjectOk(g, y);
    }
    if OpenOf(g, y, o) {
      assert LevelOk(g, y, s);
    }
    hide Structure;
  }

  lemma WriteStructure(g: Global, o: Ref, s: seq<Value>)
    requires Structure(g) && Interned(g) && o in g.heap && Writable(g, o, s)
    ensures Structure(Write(g, o, s)) && Interned(Write(g, o, s))
  {
    var r := Write(g, o, s);
    forall y ensures (y in r.heap <==> y in g.heap) && (y in r.heap ==> ObjectOk(r, y) && r.heap[y].kind == g.heap[y].kind) {
      WriteSlots(g, o, s, y);
    }
    hide ObjectOk, Writable;
  }

  lemma WriteLive(g: Global, o: Ref, s: seq<Value>)
    requires Structure(g) && LiveClosed(g) && o in g.heap && Writable(g, o, s)
    ensures LiveClosed(Write(g, o, s))
  {
    var r := Write(g, o, s);
    assert forall y :: Live(r, y) <==> Live(g, y);
    forall y, z | Live(r, y) && Refers(r, y, z) ensures Live(r, z) {
      WriteSlots(g, o, s, y);
      hide Slots, Structure, ObjectOk;
      if y == o {
        var i :| 0 <= i < |s| && s[i] == Ptr(z);
      } else if !OpenOf(g, y, o) {
        assert Refers(g, y, z);
      }
    }
    assert forall y :: IsRoot(r, y) ==> IsRoot(g, y);
  }

  lemma WriteTri(g: Global, o: Ref, s: seq<Value>)
    requires Structure(g) && o in g.heap && Writable(g, o, s) && Tri(g, {}, false, false) && SeqWhole(g, s)
    ensures Tri(Write(g, o, s), if g.heap[o].color.Black? then {o} else {}, false, false)
  {
    var r := Write(g, o, s);
    var e := if g.heap[o].color.Black? then {o} else {};
    WriteWhole(g, o, s);
    assert forall y :: Marked(g, y) <==> Marked(r, y);
    assert Lists(r) by { hide Whole, Done, Structure; }
    forall y | y in r.heap && y !in e ensures Done(r, y, false, false) {
      WriteSlots(g, o, s, y);
      assert Done(g, y, false, false);
      if y != o && !OpenOf(g, y, o) {
        SlotsMarked(g, r, y);
      }
      hide Slots, AllMarked, Whole, Lists, Structure, ObjectOk, Writable;
    }
    assert g.heap[o].color.Black? ==> Marked(r, o);
  }

  lemma WriteWhole(g: Global, o: Ref, s: seq<Value>)
    requires Structure(g) && o in g.heap && Writable(g, o, s) && Whole(g) && SeqWhole(g, s)
    ensures Whole(Write(g, o, s))
  {
    var r := Write(g, o, s);
    forall y, i | y in r.heap && 0 <= i < |Slots(r, y)| ensures Slots(r, y)[i].Ptr? ==> Slots(r, y)[i].ref in r.heap {
      WriteSlots(g, o, s, y);
      hide Slots, Structure, ObjectOk, LevelOk;
    }
  }

  /** A black table that gets a white value is gray again, to be traversed once more at the end. */
  function BarrierBack(g: Global, t: Ref): Global
    requires t in g.heap
  {
    Paint(g, t, Gray).(again := [t] + g.again)
  }

  /** A black object gets a white value: while marking the value is marked, while sweeping the object turns white. */
  function BarrierForward(g: Global, o: Ref, v: Ref): Global
    requires o in g.heap && IsWhite(g, v)
  {
    if g.phase.Propagate? then Mark(g, v) else Paint(g, o, White(g.cur))
  }

  predicate NeedsBarrier(g: Global, o: Ref, v: Value)
    requires o in g.heap
  {
    g.heap[o].color.Black? && v.Ptr? && IsWhite(g, v.ref)
  }

  function Barrier(g: Global, o: Ref, v: Value): Global
    requires o in g.heap
  {
    if !NeedsBarrier(g, o, v) then g
    else if g.heap[o].kind.Table? then BarrierBack(g, o)
    else BarrierForward(g, o, v.ref)
  }

  function SetAt(s: seq<Value>, i: nat, v: Value): seq<Value>
    requires i <= |s|
  {
    if i < |s| then s[i := v] else s + [v]
  }

  /** Stores `v` as the i-th thing `o` holds; there is no barrier for stacks. */
  function Store(g: Global, o: Ref, i: nat, v: Value): Global
    requires o in g.heap && i <= |g.heap[o].slots|
  {
    var h := Write(g, o, SetAt(g.heap[o].slots, i, v));
    if g.heap[o].kind.Thread? then h else Barrier(h, o, v)
  }

  lemma BackTri(g: Global, t: Ref)
    requires Tri(g, {t}, false, false) && t in g.heap && g.heap[t].color.Black? && g.heap[t].kind.Table?
    ensures Tri(BarrierBack(g, t), {}, false, false)
  {
    var r := BarrierBack(g, t);
    forall y ensures Slots(r, y) == Slots(g, y) && (Marked(g, y) <==> Marked(r, y)) && (y in g.heap <==> y in r.heap) {
    }
    assert Lists(r) by { hide Whole, Done; }
    assert Whole(r) by { hide Slots; }
    forall y | y in r.heap ensures Done(r, y, false, false) {
      assert y != t ==> Done(g, y, false, false);
      SameMarked(g, r, y);
      hide Slots, AllMarked, Whole, Lists, Marked;
    }
  }

  /** A black object whose old values were marked, with a new one that is marked too. */
  lemma StoredMarked(g: Global, r: Global, o: Ref, s: seq<Value>, i: nat, v: Value)
    requires SeqMarked(g, s) && i <= |s| && ValueMarked(r, v) && Slots(r, o) == SetAt(s, i, v)
    requires forall y :: Marked(g, y) ==> Marked(r, y)
    ensures AllMarked(r, o)
  {
    hide Slots, Marked;
    forall j | 0 <= j < |Slots(r, o)| ensures ValueMarked(r, Slots(r, o)[j]) {
      if j != i {
        assert ValueMarked(g, s[j]);
      }
    }
  }

  lemma StoreTri(g: Global, o: Ref, i: nat, v: Value)
    requires Structure(g) && Tri(g, {}, false, false) && g.phase.Propagate? && o in g.heap && i <= |g.heap[o].slots|
    requires Writable(g, o, SetAt(g.heap[o].slots, i, v)) && (v.Ptr? ==> v.ref in g.heap)
    ensures Tri(Store(g, o, i, v), {}, false, false)
  {
    var s := g.heap[o].slots;
    var h := Write(g, o, SetAt(s, i, v));
    StoreWhole(g, o, i, v);
    WriteTri(g, o, SetAt(s, i, v));
    WriteSlots(g, o, SetAt(s, i, v), o);
    assert Done(g, o, false, false) && Slots(g, o) == s;
    assert forall y :: Marked(g, y) <==> Marked(h, y);
    if g.heap[o].color.Black? {
      BlackListless(g, o);
      hide Tri, Structure, Writable, Slots, Whole, Lists, AllMarked;
      AllSeqMarked(g, o);
      assert !g.heap[o].kind.Thread?;
      assert {o} == {} + {o};
      if !NeedsBarrier(h, o, v) {
        StoredMarked(g, h, o, s, i, v);
        Settle(h, o, {}, false, false);
      } else if g.heap[o].kind.Table? {
        BackTri(h, o);
      } else {
        ForwardTri(g, h, o, s, i, v);
      }
    }
  }

  lemma AllSeqMarked(g: Global, o: Ref)
    requires AllMarked(g, o)
    ensures SeqMarked(g, Slots(g, o))
  {
  }

  lemma BlackListless(g: Global, o: Ref)
    requires Lists(g) && o in g.heap && g.heap[o].color.Black?
    ensures o !in g.gray && o !in g.again
  {
  }

  lemma ForwardTri(g: Global, h: Global, o: Ref, s: seq<Value>, i: nat, v: Value)
    requires Tri(h, {o}, false, false) && o in h.heap && h.heap[o].color.Black? && NeedsBarrier(h, o, v) && ColorOk(h, o)
    requires SeqMarked(g, s) && i <= |s| && Slots(h, o) == SetAt(s, i, v) && o !in h.again && forall y :: Marked(g, y) ==> Marked(h, y)
    ensures Tri(Mark(h, v.ref), {}, false, false)
  {
    var r := Mark(h, v.ref);
    MarkTri(h, v.ref, {o}, false, false);
    GrownSlots(h, r, o);
    assert SameBut(h.heap[o], r.heap[o]);
    forall y | Marked(g, y) ensures Marked(r, y) {
      assert Marked(h, y);
      MarkedGrown(h, r, y);
    }
    MarkedNow(h, r, v);
    hide Mark, Slots, Tri, Grown;
    StoredMarked(g, r, o, s, i, v);
    assert {o} == {} + {o};
    Settle(r, o, {}, false, false);
  }

  lemma MarkedNow(h: Global, r: Global, v: Value)
    requires v.Ptr? && v.ref in h.heap && Grown(h, r) && !IsWhite(r, v.ref)
    ensures ValueMarked(r, v)
  {
  }

  lemma StoreWhole(g: Global, o: Ref, i: nat, v: Value)
    requires Whole(g) && o in g.heap && i <= |g.heap[o].slots| && !g.heap[o].kind.Open? && (v.Ptr? ==> v.ref in g.heap)
    ensures SeqWhole(g, SetAt(g.heap[o].slots, i, v))
  {
    assert Slots(g, o) == g.heap[o].slots;
    hide Slots;
  }

  /** A live object takes another colour, but not the dead white. */
  lemma RecolorLive(g: Global, x: Ref, c: Color)
    requires LiveClosed(g) && Live(g, x) && c != White(!g.cur)
    ensures LiveClosed(Paint(g, x, c))
  {
    var r := Paint(g, x, c);
    forall y ensures Slots(r, y) == Slots(g, y) && (Live(r, y) <==> Live(g, y)) && (IsRoot(r, y) <==> IsRoot(g, y)) {
    }
    hide Slots, Live, IsRoot, Paint;
    forall y, z | Live(r, y) && Refers(r, y, z) ensures Live(r, z) {
      assert Refers(g, y, z);
    }
  }

  /** The invariant while sweeping, after a black object has been recoloured. */
  lemma RecolorPhase(g: Global, o: Ref, c: Color)
    requires 0 < g.strsize && g.sweepgc <= |g.rootgc| && PhaseOk(g) && !g.phase.Propagate?
    requires o in g.heap && g.heap[o].color.Black?
    ensures PhaseOk(Paint(g, o, c)) && !g.phase.Pause? && !g.phase.Finalize?
  {
    var r := Paint(g, o, c);
    assert !IsCurrent(g, o);
    ChainSame(g, r);
    hide Chain;
    assert forall y :: IsCurrent(g, y) ==> IsCurrent(r, y);
    hide Tri;
  }

  lemma WritePhase(g: Global, o: Ref, s: seq<Value>)
    requires 0 < g.strsize && g.sweepgc <= |g.rootgc| && PhaseOk(g) && o in g.heap
    ensures !g.phase.Propagate? ==> PhaseOk(Write(g, o, s))
    ensures NoDead(g) ==> NoDead(Write(g, o, s))
    ensures RootMarks(g) ==> RootMarks(Write(g, o, s))
  {
    var r := Write(g, o, s);
    ChainSame(g, r);
    hide Chain;
    assert forall y :: IsCurrent(g, y) ==> IsCurrent(r, y);
    assert forall y :: (Live(g, y) <==> Live(r, y)) && (Marked(g, y) <==> Marked(r, y));
    hide Tri;
  }

  /** The main thread and the registry are marked from the start of a collection on. */
  predicate RootMarks(g: Global)
  {
    Marked(g, g.main) && (|g.mt| > 0 ==> ValueMarked(g, g.mt[0]))
  }

  lemma StoreInv(g: Global, o: Ref, i: nat, v: Value)
    requires Inv(g) && o in g.heap && i <= |g.heap[o].slots|
    requires Writable(g, o, SetAt(g.heap[o].slots, i, v)) && (v.Ptr? ==> v.ref in g.heap)
    ensures Inv(Store(g, o, i, v))
  {
    var s := SetAt(g.heap[o].slots, i, v);
    var h := Write(g, o, s);
    WriteStructure(g, o, s);
    WriteLive(g, o, s);
    WritePhase(g, o, s);
    WriteIs(g, o, s);
    KeepsSweep(g);
    if g.phase.Propagate? {
      StoreTri(g, o, i, v);
      StorePropagate(g, h, o, i, v);
    } else if !g.heap[o].kind.Thread? && NeedsBarrier(h, o, v) {
      hide Structure, Interned, LiveClosed, Writable, Tri, Write;
      var c := if h.heap[o].kind.Table? then Gray else White(h.cur);
      RecolorPhase(h, o, c);
      RecolorLive(h, o, c);
      PaintStructure(h, o, c);
      AgainSame(Paint(h, o, c), Store(g, o, i, v));
    }
  }

  lemma WriteIs(g: Global, o: Ref, s: seq<Value>)
    requires o in g.heap
    ensures var h := Write(g, o, s);
            h == g.(heap := h.heap) && o in h.heap && h.heap[o] == g.heap[o].(slots := s) && h.heap.Keys == g.heap.Keys
  {
  }

  /** The second gray list matters only while marking. */
  lemma AgainSame(g: Global, r: Global)
    requires Inv(g) && !g.phase.Propagate? && r == g.(again := r.again)
    ensures Inv(r)
  {
    StructurePhase(g, r);
    LivePhase(g, r);
    ChainSame(g, r);
    hide Structure, Interned, LiveClosed, Chain, Tri;
    assert forall y :: IsCurrent(g, y) <==> IsCurrent(r, y);
  }

  lemma StorePropagate(g: Global, h: Global, o: Ref, i: nat, v: Value)
    requires g.phase.Propagate? && o in g.heap && i <= |g.heap[o].slots| && h == Write(g, o, SetAt(g.heap[o].slots, i, v))
    requires Structure(h) && Interned(h) && LiveClosed(h) && NoDead(h) && RootMarks(h)
    requires Tri(Store(g, o, i, v), {}, false, false)
    ensures Inv(Store(g, o, i, v))
  {
    var r := Store(g, o, i, v);
    hide Tri, Structure, Interned, LiveClosed, NoDead, Marked, Mark, Spread;
    WriteIs(g, o, SetAt(g.heap[o].slots, i, v));
    BarrierSpread(h, o, v);
    SpreadStructure(h, r);
    SpreadLive(h, r);
    SpreadMarks(h, r);
    KeepsSweep(r);
  }

  lemma BarrierSpread(h: Global, o: Ref, v: Value)
    requires o in h.heap && h.phase.Propagate?
    ensures Spread(h, Barrier(h, o, v)) && Spread(h, h)
  {
    if NeedsBarrier(h, o, v) && !h.heap[o].kind.Table? {
      GrownSpread(h, Mark(h, v.ref));
    }
  }

  lemma SpreadMarks(g: Global, r: Global)
    requires Spread(g, r) && RootMarks(g)
    ensures RootMarks(r) && r.phase == g.phase
  {
    SpreadSlots(g, r, g.main);
    if |g.mt| > 0 && g.mt[0].Ptr? {
      SpreadSlots(g, r, g.mt[0].ref);
    }
  }

  // ---------------------------------------------------------------- closing upvalues

  function Without(s: seq<Ref>, x: Ref): (r: seq<Ref>)
    ensures forall y :: y in r <==> y in s && y != x
    ensures Distinct(s) ==> Distinct(r)
  {
    if s == [] then []
    else
      var rest := Without(s[1..], x);
      assert s == [s[0]] + s[1..];
      assert Distinct(s) ==> s[0] !in s[1..];
      if s[0] == x then rest else [s[0]] + rest
  }

  /** The value moves into the upvalue, which joins the root list. */
  function Moved(g: Global, u: Ref): Global
    requires u in g.heap
  {
    g.(heap := g.heap[u := g.heap[u].(kind := Closed, slots := Slots(g, u))],
       uvhead := Without(g.uvhead, u), rootgc := [u] + g.rootgc, sweepgc := if g.sweepgc == 0 then 0 else g.sweepgc + 1)
  }

  /** Frees an open upvalue that is dead; closes it otherwise, gray ones with a barrier or by sweeping them. */
  function CloseOne(g: Global, u: Ref): Global
    requires u in g.heap && g.heap[u].kind.Open?
  {
    if Dead(g, u) then g.(heap := g.heap - {u}, uvhead := Without(g.uvhead, u))
    else
      var h := Moved(g, u);
      if !g.heap[u].color.Gray? then h
      else if g.phase.Propagate? then Blacken(h, u)
      else Paint(h, u, White(h.cur))
  }

  /** A closed upvalue needs the barrier for the value it has brought along. */
  function Blacken(h: Global, u: Ref): Global
    requires u in h.heap
  {
    var b := Paint(h, u, Black);
    if |b.heap[u].slots| == 1 then Barrier(b, u, b.heap[u].slots[0]) else b
  }

  lemma MovedObject(g: Global, u: Ref, y: Ref)
    requires Structure(g) && u in g.heap && g.heap[u].kind.Open?
    ensures var r := Moved(g, u);
            && Slots(r, y) == Slots(g, y) && (y in r.heap <==> y in g.heap)
            && (y in r.heap ==> ObjectOk(r, y) && r.heap[y].color == g.heap[y].color && r.heap[y].kind == if y == u then Closed else g.heap[y].kind)
            && |Slots(g, u)| == 1
  {
    assert ObjectOk(g, u);
    if y in g.heap {
      assert ObjectOk(g, y);
    }
    hide Structure;
  }

  lemma MovedStructure(g: Global, u: Ref)
    requires Structure(g) && Interned(g) && u in g.heap && g.heap[u].kind.Open?
    ensures Structure(Moved(g, u)) && Interned(Moved(g, u))
  {
    var r := Moved(g, u);
    forall y ensures (y in r.heap <==> y in g.heap) && (y in r.heap ==> ObjectOk(r, y) && r.heap[y].kind == if y == u then Closed else g.heap[y].kind) {
      MovedObject(g, u, y);
    }
    MovedLists(g, u);
    hide ObjectOk, Slots, Moved, Distinct;
    MovedInterned(g, u, r);
  }

  lemma MovedLists(g: Global, u: Ref)
    requires Structure(g) && u in g.heap && g.heap[u].kind.Open?
    ensures var r := Moved(g, u);
            && Distinct(r.rootgc) && Distinct(r.uvhead) && r.sweepgc <= |r.rootgc|
            && (forall y :: y in r.rootgc <==> y in g.rootgc || y == u) && (forall y :: y in r.uvhead <==> y in g.uvhead && y != u)
            && r.strsize == g.strsize && r.main == g.main && r.running == g.running
  {
    assert u !in g.rootgc;
    InsertDistinct(g.rootgc, 0, u);
    assert Insert(g.rootgc, 0, u) == Moved(g, u).rootgc;
    hide Structure, Slots, Insert;
  }

  lemma MovedInterned(g: Global, u: Ref, r: Global)
    requires Interned(g) && u in g.heap
    requires forall y :: (y in r.heap <==> y in g.heap) && (y in r.heap ==> r.heap[y].kind == if y == u then Closed else g.heap[y].kind)
    ensures Interned(r)
  {
  }

  lemma MovedLive(g: Global, u: Ref)
    requires Structure(g) && LiveClosed(g) && u in g.heap && g.heap[u].kind.Open?
    ensures LiveClosed(Moved(g, u))
  {
    var r := Moved(g, u);
    forall y ensures Kept(g, r, y) {
      MovedObject(g, u, y);
    }
    hide Structure, Kept, Slots;
    KeptClosed(g, r);
  }

  /** The gray lists hold neither upvalues nor strings. */
  lemma ListsSame(g: Global, r: Global)
    requires Lists(g) && r.gray == g.gray && r.again == g.again
    requires forall y :: y in g.heap && Listable(g.heap[y].kind) ==> y in r.heap && r.heap[y] == g.heap[y]
    ensures Lists(r)
  {
  }

  lemma MovedSame(g: Global, u: Ref)
    requires Structure(g) && u in g.heap && g.heap[u].kind.Open?
    ensures var r := Moved(g, u);
            && r.gray == g.gray && r.again == g.again
            && (forall y :: y in g.heap && y != u ==> y in r.heap && r.heap[y] == g.heap[y])
            && (forall y :: Slots(r, y) == Slots(g, y) && (y in g.heap <==> y in r.heap)) && forall y :: Marked(g, y) <==> Marked(r, y)
  {
    var r := Moved(g, u);
    forall y ensures Slots(r, y) == Slots(g, y) && (Marked(g, y) <==> Marked(r, y)) && (y in g.heap <==> y in r.heap) {
      MovedObject(g, u, y);
    }
    hide Slots, Marked, Structure;
  }

  lemma MovedTri(g: Global, u: Ref)
    requires Structure(g) && Tri(g, {}, false, false) && u in g.heap && g.heap[u].kind.Open?
    ensures Tri(Moved(g, u), if g.heap[u].color.Gray? then {u} else {}, false, false)
  {
    var r := Moved(g, u);
    var e := if g.heap[u].color.Gray? then {u} else {};
    MovedSame(g, u);
    MovedObject(g, u, u);
    hide Moved, Structure, Slots, ObjectOk;
    ListsSame(g, r);
    forall y | y in r.heap && y !in e ensures Done(r, y, false, false) {
      MovedDone(g, r, u, y);
      hide Whole, Lists, Done;
    }
    hide Lists, Done;
  }

  lemma MovedDone(g: Global, r: Global, u: Ref, y: Ref)
    requires y in g.heap && y in r.heap && Done(g, y, false, false) && u in g.heap && g.heap[u].kind.Open? && r.gray == g.gray && r.again == g.again
    requires Slots(r, y) == Slots(g, y) && forall z :: Marked(g, z) <==> Marked(r, z)
    requires if y == u then !g.heap[u].color.Gray? && r.heap[y].color == g.heap[y].color else r.heap[y] == g.heap[y]
    ensures Done(r, y, false, false)
  {
    SameMarked(g, r, y);
    hide Slots, AllMarked, Marked;
  }


  lemma MovedSwept(g: Global, u: Ref, c: Color)
    requires Structure(g) && u in g.heap && g.heap[u].kind.Open? && ListSwept(g, g.sweepgc) && c == White(g.cur)
    ensures var r := Paint(Moved(g, u), u, c); r.sweepgc <= |r.rootgc| && ListSwept(r, r.sweepgc)
  {
    var r := Paint(Moved(g, u), u, c);
    assert r.rootgc[..r.sweepgc] == if g.sweepgc == 0 then [] else [u] + g.rootgc[..g.sweepgc];
    forall y | y in r.heap && !r.heap[y].kind.Str? && Home(r.heap[y], y) in r.rootgc[..r.sweepgc] ensures IsCurrent(r, y) {
      if y != u {
        assert ObjectOk(g, y);
        assert IsCurrent(g, y);
      }
    }
  }

  lemma NotBlackOpen(g: Global, u: Ref)
    requires 0 < g.strsize && g.sweepgc <= |g.rootgc| && PhaseOk(g) && !g.phase.Propagate? && u in g.heap && g.heap[u].kind.Open?
    ensures !g.heap[u].color.Black?
    ensures g.phase.Pause? || g.phase.Finalize? ==> IsCurrent(g, u)
  {
    assert g.phase.Pause? || g.phase.Finalize? ==> IsCurrent(g, u);
    hide ListSwept, StringsSwept, Tri;
  }

  lemma MovedPhase(g: Global, u: Ref)
    requires Inv(g) && !g.phase.Propagate? && u in g.heap && g.heap[u].kind.Open? && Live(g, u)
    ensures CloseOne(g, u) == Paint(Moved(g, u), u, White(g.cur))
    ensures PhaseOk(Paint(Moved(g, u), u, White(g.cur)))
  {
    hide *;
    InvParts(g);
    NotBlackOpen(g, u);
    CloseIs(g, u);
    var r := CloseOne(g, u);
    if g.phase.Sweep? {
      SweepParts(g);
      MovedSwept(g, u, White(g.cur));
    }
    MovedIs(g, u, r);
    MovedPhaseOk(g, u, r);
  }

  lemma InvParts(g: Global)
    requires Inv(g)
    ensures Structure(g) && Interned(g) && LiveClosed(g) && 0 < g.strsize && g.sweepgc <= |g.rootgc| && PhaseOk(g)
  {
  }

  lemma SweepParts(g: Global)
    requires 0 < g.strsize && g.sweepgc <= |g.rootgc| && PhaseOk(g) && g.phase.Sweep?
    ensures ListSwept(g, g.sweepgc)
  {
  }

  lemma CloseIs(g: Global, u: Ref)
    requires u in g.heap && g.heap[u].kind.Open? && Live(g, u) && !g.phase.Propagate? && !g.heap[u].color.Black?
    ensures CloseOne(g, u) == Paint(Moved(g, u), u, White(g.cur))
  {
    assert CloseOne(g, u).heap == Paint(Moved(g, u), u, White(g.cur)).heap;
    hide Slots;
  }

  lemma MovedPhaseOk(g: Global, u: Ref, r: Global)
    requires 0 < g.strsize == r.strsize && g.sweepgc <= |g.rootgc| && r.sweepgc <= |r.rootgc| && PhaseOk(g) && !g.phase.Propagate? && u in g.heap
    requires r.heap.Keys == g.heap.Keys && r.phase == g.phase && r.cur == g.cur && r.sweepstr == g.sweepstr
    requires IsCurrent(r, u) && r.heap[u].kind.Closed? && (g.sweepgc == 0 ==> r.sweepgc == 0)
    requires forall y :: y in g.heap && y != u ==> r.heap[y] == g.heap[y]
    requires g.phase.Sweep? ==> ListSwept(r, r.sweepgc)
    ensures PhaseOk(r)
  {
    ChainSame(g, r);
    hide Chain, ListSwept, Tri;
    assert forall y :: IsCurrent(g, y) ==> IsCurrent(r, y);
  }

  lemma MovedIs(g: Global, u: Ref, r: Global)
    requires u in g.heap && r == Paint(Moved(g, u), u, White(g.cur))
    ensures r.heap.Keys == g.heap.Keys && r.phase == g.phase && r.cur == g.cur && r.strsize == g.strsize && r.sweepstr == g.sweepstr
    ensures IsCurrent(r, u) && r.heap[u].kind.Closed? && (g.sweepgc == 0 ==> r.sweepgc == 0) && (g.sweepgc <= |g.rootgc| ==> r.sweepgc <= |r.rootgc|)
    ensures forall y :: y in g.heap && y != u ==> r.heap[y] == g.heap[y]
  {
  }

  lemma CloseSweeping(g: Global, u: Ref)
    requires Inv(g) && !g.phase.Propagate? && u in g.heap && g.heap[u].kind.Open? && Live(g, u)
    ensures Inv(CloseOne(g, u))
  {
    var h := Moved(g, u);
    MovedPhase(g, u);
    MovedStructure(g, u);
    MovedLive(g, u);
    assert Live(h, u);
    hide Structure, Interned, LiveClosed, PhaseOk, Moved;
    PaintStructure(h, u, White(g.cur));
    assert h.cur == g.cur by { MovedCur(g, u); }
    RecolorLive(h, u, White(g.cur));
    KeepsSweep(CloseOne(g, u));
  }

  lemma MovedCur(g: Global, u: Ref)
    requires u in g.heap
    ensures Moved(g, u).cur == g.cur && Moved(g, u).phase == g.phase
  {
  }

  lemma MovedMarks(g: Global, u: Ref)
    requires u in g.heap && NoDead(g) && RootMarks(g)
    ensures NoDead(Moved(g, u)) && RootMarks(Moved(g, u))
  {
    var h := Moved(g, u);
    assert forall y :: (Live(g, y) <==> Live(h, y)) && (Marked(g, y) <==> Marked(h, y));
  }

  lemma BlackenTri2(h: Global, u: Ref)
    requires Tri(h, {u}, false, false) && u in h.heap && h.heap[u].color.Gray? && h.heap[u].kind.Closed? && |h.heap[u].slots| == 1 && h.phase.Propagate?
    ensures Tri(Blacken(h, u), {}, false, false) && Spread(h, Blacken(h, u))
  {
    var b := Paint(h, u, Black);
    var v := h.heap[u].slots[0];
    BlackUpval(h, u);
    BarrierSpread(b, u, v);
    SpreadTrans(h, b, Barrier(b, u, v));
    ValueThere(b, u, v);
    assert {} + {u} == {u} && [v] == SetAt([], 0, v);
    hide Tri, Slots, Mark, Spread, Lists, Whole;
    if NeedsBarrier(b, u, v) {
      ForwardTri(b, b, u, [], 0, v);
    } else {
      StoredMarked(b, b, u, [], 0, v);
      Settle(b, u, {}, false, false);
    }
  }

  lemma BlackUpval(h: Global, u: Ref)
    requires Tri(h, {u}, false, false) && u in h.heap && h.heap[u].color.Gray? && h.heap[u].kind.Closed? && |h.heap[u].slots| == 1
    ensures var b := Paint(h, u, Black);
            && Tri(b, {u}, false, false) && Slots(b, u) == h.heap[u].slots == [h.heap[u].slots[0]] && u !in b.again && Spread(h, b)
  {
    assert {} + {u} == {u};
    RepaintTri(h, u, {}, false, false);
    hide Whole, Done;
  }

  lemma ValueThere(b: Global, u: Ref, v: Value)
    requires Tri(b, {u}, false, false) && Slots(b, u) == [v] && u in b.heap && b.heap[u].color.Black?
    ensures NeedsBarrier(b, u, v) || ValueMarked(b, v)
  {
    if v.Ptr? {
      assert Slots(b, u)[0].ref in b.heap;
    }
  }

  lemma ClosePropagate(g: Global, u: Ref)
    requires Inv(g) && g.phase.Propagate? && u in g.heap && g.heap[u].kind.Open? && Live(g, u)
    ensures Inv(CloseOne(g, u))
  {
    var h, r := Moved(g, u), CloseOne(g, u);
    assert Done(g, u, false, false);
    MovedObject(g, u, u);
    MovedTri(g, u);
    MovedStructure(g, u);
    MovedLive(g, u);
    MovedMarks(g, u);
    MovedCur(g, u);
    assert h.heap[u] == g.heap[u].(kind := Closed, slots := Slots(g, u));
    hide Structure, Interned, LiveClosed, NoDead, Tri, Moved, Slots, Blacken, Spread, Marked;
    if g.heap[u].color.Gray? {
      BlackenTri2(h, u);
      SpreadStructure(h, r);
      SpreadLive(h, r);
      SpreadMarks(h, r);
    }
    KeepsSweep(r);
  }

  lemma DropInv(g: Global, u: Ref)
    requires Inv(g) && u in g.heap && g.heap[u].kind.Open? && Dead(g, u)
    ensures Inv(CloseOne(g, u)) && !Reachable(g, u)
  {
    var r := CloseOne(g, u);
    if Reachable(g, u) {
      ReachLive(g, u);
    }
    forall y ensures Kept(g, r, y) && (y in r.heap ==> ObjectOk(r, y)) && (y in r.heap <==> y in g.heap && y != u) && (y in r.heap ==> r.heap[y] == g.heap[y]) {
      DropObject(g, u, y);
    }
    DropRest(g, r, u);
  }

  lemma DropObject(g: Global, u: Ref, y: Ref)
    requires Structure(g) && u in g.heap && g.heap[u].kind.Open? && Dead(g, u)
    ensures var r := CloseOne(g, u);
            Kept(g, r, y) && (y in r.heap ==> ObjectOk(r, y)) && (y in r.heap <==> y in g.heap && y != u) && (y in r.heap ==> r.heap[y] == g.heap[y])
  {
    if y in g.heap {
      assert ObjectOk(g, y);
    }
    hide Structure;
  }

  lemma DropRest(g: Global, r: Global, u: Ref)
    requires Inv(g) && u in g.heap && g.heap[u].kind.Open? && Dead(g, u)
    requires r == g.(heap := r.heap, uvhead := Without(g.uvhead, u))
    requires forall y :: Kept(g, r, y) && (y in r.heap ==> ObjectOk(r, y)) && (y in r.heap <==> y in g.heap && y != u) && (y in r.heap ==> r.heap[y] == g.heap[y])
    ensures Inv(r)
  {
    hide *;
    InvParts(g);
    KeptClosed(g, r);
    DropStructure(g, r, u);
    DropPhase(g, r, u);
    KeepsSweep(r);
    InvWhole(r);
  }

  lemma InvWhole(g: Global)
    requires Structure(g) && Interned(g) && LiveClosed(g) && 0 < g.strsize && g.sweepgc <= |g.rootgc| && PhaseOk(g)
    ensures Inv(g)
  {
  }

  lemma DropStructure(g: Global, r: Global, u: Ref)
    requires Structure(g) && Interned(g) && u in g.heap && g.heap[u].kind.Open?
    requires r == g.(heap := r.heap, uvhead := Without(g.uvhead, u))
    requires forall y :: (y in r.heap ==> ObjectOk(r, y)) && (y in r.heap <==> y in g.heap && y != u) && (y in r.heap ==> r.heap[y] == g.heap[y])
    ensures Structure(r) && Interned(r)
  {
    hide ObjectOk, Distinct;
  }

  lemma DropPhase(g: Global, r: Global, u: Ref)
    requires 0 < g.strsize && g.sweepgc <= |g.rootgc| && PhaseOk(g) && u in g.heap && Dead(g, u)
    requires r == g.(heap := r.heap, uvhead := Without(g.uvhead, u))
    requires forall y :: (y in r.heap <==> y in g.heap && y != u) && (y in r.heap ==> r.heap[y] == g.heap[y])
    ensures PhaseOk(r)
  {
    assert g.phase.Propagate? ==> Live(g, u);
    assert g.phase.Pause? || g.phase.Finalize? ==> IsCurrent(g, u);
    ChainSame(g, r);
    assert forall y :: y in r.heap && IsCurrent(g, y) ==> IsCurrent(r, y);
    hide Tri, Chain;
  }

  lemma CloseOneInv(g: Global, u: Ref)
    requires Inv(g) && u in g.heap && g.heap[u].kind.Open?
    ensures Inv(CloseOne(g, u))
  {
    hide Inv, CloseOne;
    if Dead(g, u) {
      DropInv(g, u);
    } else if g.phase.Propagate? {
      ClosePropagate(g, u);
    } else {
      CloseSweeping(g, u);
    }
  }

  // ---------------------------------------------------------------- the operations

  /** A value the program can have in hand. */
  ghost predicate InHand(g: Global, v: Value)
  {
    v.Ptr? ==> Reachable(g, v.ref)
  }

  ghost predicate IsThread(g: Global, t: Ref)
  {
    Reachable(g, t) && t in g.heap && g.heap[t].kind.Thread?
  }

  /** A slot of the running thread's stack, or the first one above it. */
  predicate StackSlot(g: Global, k: nat)
  {
    g.running in g.heap && k <= |g.heap[g.running].slots|
  }

  /** A closure just made, of the current white still: it is filled without barriers. */
  ghost predicate Fillable(g: Global, c: Ref, i: nat)
  {
    Reachable(g, c) && IsCurrent(g, c) && g.heap[c].kind.Function? && i < |g.heap[c].slots|
  }

  ghost predicate Enabled(g: Global, op: Op)
  {
    match op
    case New(x, kind, slots, k) =>
      && x !in g.heap && OnRootList(kind) && !kind.Closed? && StackSlot(g, k)
      && (forall i :: 0 <= i < |slots| ==> InHand(g, slots[i]))
    case NewUpval(x, v, c, i) => x !in g.heap && InHand(g, v) && Fillable(g, c, i)
    case FindUpval(x, t, level, c, i) => x !in g.heap && IsThread(g, t) && level < |g.heap[t].slots| && Fillable(g, c, i)
    case Intern(x, _, k) => x !in g.heap && StackSlot(g, k)
    case SetSlot(o, i, v) =>
      && Reachable(g, o) && o in g.heap && i <= |g.heap[o].slots| && InHand(g, v)
      && !g.heap[o].kind.Str? && !g.heap[o].kind.Open? && !g.heap[o].kind.Closed?
    case SetUpval(u, v) =>
      Reachable(g, u) && u in g.heap && InHand(g, v) && (g.heap[u].kind.Closed? || g.heap[u].kind.Open?)
    case Pop(t, n) => IsThread(g, t) && n <= |g.heap[t].slots| && forall u :: OpenOf(g, u, t) ==> g.heap[u].kind.level < n
    case CloseUpval(u) => OpenOf(g, u, g.running)
    case SetMt(i, v) => 1 <= i < |g.mt| && InHand(g, v)
    case Resume(t) => IsThread(g, t)
    case Resize(n) => 0 < n && !g.phase.SweepString?
  }

  predicate IsUpvalOf(g: Global, u: Ref, t: Ref, level: nat)
  {
    u in g.heap && g.heap[u].kind == Open(t, level)
  }

  predicate IsString(g: Global, x: Ref, text: string)
  {
    x in g.heap && g.heap[x].kind == Str(text)
  }

  /** The object goes onto the stack. */
  function Push(g: Global, k: nat, x: Ref): Global
  {
    if StackSlot(g, k) then Write(g, g.running, SetAt(g.heap[g.running].slots, k, Ptr(x))) else g
  }

  /** The upvalue goes into the closure. */
  function Fill(g: Global, c: Ref, i: nat, x: Ref): Global
  {
    if c in g.heap && i < |g.heap[c].slots| then Write(g, c, SetAt(g.heap[c].slots, i, Ptr(x))) else g
  }

  ghost function Do(g: Global, op: Op): Global
    requires Structure(g) && Enabled(g, op)
  {
    match op
    case New(x, kind, slots, k) => Push(Add(g, x, kind, slots), k, x)
    case NewUpval(x, v, c, i) => Fill(Add(g, x, Closed, [v]), c, i, x)
    case FindUpval(x, t, level, c, i) =>
      if exists u :: IsUpvalOf(g, u, t, level) then
        var u :| IsUpvalOf(g, u, t, level);
        Fill(Revive(g, u), c, i, u)
      else Fill(Add(g, x, Open(t, level), []), c, i, x)
    case Intern(x, text, k) =>
      if exists y :: IsString(g, y, text) then
        var y :| IsString(g, y, text);
        Push(Revive(g, y), k, y)
      else Push(Add(g, x, Str(text), []), k, x)
    case SetSlot(o, i, v) => Store(g, o, i, v)
    case SetUpval(u, v) =>
      assert ObjectOk(g, u);
      if g.heap[u].kind.Open? then
        var (t, l) := (g.heap[u].kind.owner, g.heap[u].kind.level);
        Write(g, t, g.heap[t].slots[l := v])
      else Store(g, u, 0, v)
    case Pop(t, n) => Write(g, t, g.heap[t].slots[..n])
    case CloseUpval(u) => CloseOne(g, u)
    case SetMt(i, v) => g.(mt := g.mt[i := v])
    case Resume(t) => g.(running := t)
    case Resize(n) => g.(strsize := n)
  }

  lemma InHandLive(g: Global, v: Value)
    requires LiveClosed(g) && InHand(g, v)
    ensures v.Ptr? ==> Live(g, v.ref)
  {
    if v.Ptr? {
      ReachLive(g, v.ref);
    }
  }

  /** What a live object holds is live. */
  lemma HeldLive(g: Global, x: Ref)
    requires LiveClosed(g) && Live(g, x)
    ensures SeqLive(g, Slots(g, x))
  {
    hide Slots;
    forall i | 0 <= i < |Slots(g, x)| && Slots(g, x)[i].Ptr? ensures Live(g, Slots(g, x)[i].ref) {
      assert Refers(g, x, Slots(g, x)[i].ref);
    }
  }

  /** Storing a live value is fit, whoever looks at the slot. */
  lemma StoreWritable(g: Global, o: Ref, i: nat, v: Value)
    requires Structure(g) && LiveClosed(g) && o in g.heap && i <= |g.heap[o].slots| && (v.Ptr? ==> Live(g, v.ref))
    requires !g.heap[o].kind.Str? && !g.heap[o].kind.Open? && (g.heap[o].kind.Closed? ==> i == 0)
    ensures Writable(g, o, SetAt(g.heap[o].slots, i, v))
  {
    var s := SetAt(g.heap[o].slots, i, v);
    assert ObjectOk(g, o);
    if Live(g, o) {
      HeldLive(g, o);
      assert Slots(g, o) == g.heap[o].slots;
      SetLive(g, g.heap[o].slots, i, v);
    }
    forall u | OpenOf(g, u, o) ensures LevelOk(g, u, s) {
      OpenLevel(g, u, o);
      hide Structure, LiveClosed, Slots, Live;
    }
  }

  lemma SetLive(g: Global, s: seq<Value>, i: nat, v: Value)
    requires SeqLive(g, s) && i <= |s| && (v.Ptr? ==> Live(g, v.ref))
    ensures SeqLive(g, SetAt(s, i, v))
  {
    hide Live;
  }

  lemma OpenLevel(g: Global, u: Ref, o: Ref)
    requires Structure(g) && LiveClosed(g) && OpenOf(g, u, o)
    ensures o in g.heap && g.heap[u].kind.level < |g.heap[o].slots|
    ensures var v := g.heap[o].slots[g.heap[u].kind.level]; Live(g, u) && v.Ptr? ==> Live(g, v.ref)
  {
    assert ObjectOk(g, u);
    var v := g.heap[o].slots[g.heap[u].kind.level];
    assert Slots(g, u) == [v];
    if Live(g, u) {
      HeldLive(g, u);
      assert Slots(g, u)[0] == v;
    }
    hide Structure, LiveClosed, Slots, Live;
  }

  lemma SetSlotInv(g: Global, o: Ref, i: nat, v: Value)
    requires Inv(g) && o in g.heap && i <= |g.heap[o].slots| && InHand(g, v)
    requires !g.heap[o].kind.Str? && !g.heap[o].kind.Open? && (g.heap[o].kind.Closed? ==> i == 0)
    ensures Inv(Store(g, o, i, v))
  {
    InHandLive(g, v);
    StoreWritable(g, o, i, v);
    assert v.Ptr? ==> v.ref in g.heap;
    hide Inv, Writable, Store, Live;
    StoreInv(g, o, i, v);
  }

  /** Writing to an object that is not black needs no barrier. */
  lemma QuietInv(g: Global, o: Ref, s: seq<Value>)
    requires Inv(g) && o in g.heap && !g.heap[o].color.Black? && Writable(g, o, s) && (g.phase.Propagate? ==> SeqWhole(g, s))
    ensures Inv(Write(g, o, s))
  {
    var h := Write(g, o, s);
    WriteStructure(g, o, s);
    WriteLive(g, o, s);
    WritePhase(g, o, s);
    WriteIs(g, o, s);
    if g.phase.Propagate? {
      WriteTri(g, o, s);
    }
    hide Structure, Interned, LiveClosed, Writable, Tri, Write;
    KeepsSweep(h);
  }

  /** Threads are never black while marking; while sweeping there is no barrier either. */
  lemma StackInv(g: Global, t: Ref, s: seq<Value>)
    requires Inv(g) && t in g.heap && g.heap[t].kind.Thread? && Writable(g, t, s) && (g.phase.Propagate? ==> SeqWhole(g, s))
    ensures Inv(Write(g, t, s))
  {
    var h := Write(g, t, s);
    WriteStructure(g, t, s);
    WriteLive(g, t, s);
    WritePhase(g, t, s);
    WriteIs(g, t, s);
    if g.phase.Propagate? {
      WriteTri(g, t, s);
      assert Done(g, t, false, false);
    }
    hide Structure, Interned, LiveClosed, Writable, Tri, Write;
    KeepsSweep(h);
  }

  /** What thread `t` holds exists while nothing is dead. */
  lemma StackWhole(g: Global, t: Ref)
    requires Inv(g) && g.phase.Propagate? && t in g.heap && g.heap[t].kind.Thread?
    ensures SeqWhole(g, g.heap[t].slots)
  {
    assert Slots(g, t) == g.heap[t].slots;
    assert Whole(g);
    hide Slots, Structure, LiveClosed, Interned;
  }

  /** A live object is put onto the stack. */
  lemma PushInv(g: Global, k: nat, x: Ref)
    requires Inv(g) && Live(g, x)
    ensures Inv(Push(g, k, x))
  {
    if StackSlot(g, k) {
      var t, v := g.running, Ptr(x);
      assert g.heap[t].kind.Thread?;
      StoreWritable(g, t, k, v);
      if g.phase.Propagate? {
        assert Whole(g);
        StoreWhole(g, t, k, v);
      }
      hide Inv, Writable, LiveClosed, Structure, Live, SetAt;
      StackInv(g, t, SetAt(g.heap[t].slots, k, v));
    }
  }

  /** A live upvalue is put into a closure that is white. */
  lemma FillInv(g: Global, c: Ref, i: nat, x: Ref)
    requires Inv(g) && Live(g, x) && IsClosure(g, c, i)
    ensures Inv(Fill(g, c, i, x))
  {
    var v := Ptr(x);
    StoreWritable(g, c, i, v);
    if g.phase.Propagate? {
      assert Whole(g);
      StoreWhole(g, c, i, v);
    }
    hide Inv, Writable, LiveClosed, Structure, Live, SetAt;
    QuietInv(g, c, SetAt(g.heap[c].slots, i, v));
  }

  lemma NewInv(g: Global, x: Ref, kind: Kind, slots: seq<Value>, k: nat)
    requires Inv(g) && Enabled(g, New(x, kind, slots, k))
    ensures Inv(Push(Add(g, x, kind, slots), k, x))
  {
    forall i | 0 <= i < |slots| && slots[i].Ptr? ensures Live(g, slots[i].ref) {
      assert InHand(g, slots[i]);
      InHandLive(g, slots[i]);
    }
    assert x !in g.heap && SeqLive(g, slots) && Addable(g, x, kind, slots);
    hide *;
    AddInv(g, x, kind, slots);
    AddedLive(g, x, kind, slots);
    PushInv(Add(g, x, kind, slots), k, x);
  }

  lemma NewUpvalInv(g: Global, x: Ref, v: Value, c: Ref, i: nat)
    requires Inv(g) && Enabled(g, NewUpval(x, v, c, i))
    ensures Inv(Fill(Add(g, x, Closed, [v]), c, i, x))
  {
    InHandLive(g, v);
    assert Addable(g, x, Closed, [v]) && x !in g.heap && Fillable(g, c, i);
    hide *;
    AddInv(g, x, Closed, [v]);
    AddedLive(g, x, Closed, [v]);
    AddedClosure(g, x, Closed, [v], c, i);
    FillInv(Add(g, x, Closed, [v]), c, i, x);
  }

  lemma AddedLive(g: Global, x: Ref, kind: Kind, slots: seq<Value>)
    ensures Live(Add(g, x, kind, slots), x)
  {
    AddIs(g, x, kind, slots);
  }

  /** What is being filled stays as it is while an object is added, or one taken back. */
  lemma AddedClosure(g: Global, x: Ref, kind: Kind, slots: seq<Value>, c: Ref, i: nat)
    requires Fillable(g, c, i) && x !in g.heap
    ensures IsClosure(Add(g, x, kind, slots), c, i)
  {
    AddIs(g, x, kind, slots);
    hide Reachable;
  }

  predicate IsClosure(g: Global, c: Ref, i: nat)
  {
    IsCurrent(g, c) && g.heap[c].kind.Function? && i < |g.heap[c].slots|
  }

  lemma RevivedClosure(g: Global, u: Ref, c: Ref, i: nat)
    requires Fillable(g, c, i) && u in g.heap
    ensures IsClosure(Revive(g, u), c, i) && Live(Revive(g, u), u)
  {
    hide Reachable;
  }

  lemma FindUpvalInv(g: Global, x: Ref, t: Ref, level: nat, c: Ref, i: nat)
    requires Inv(g) && Enabled(g, FindUpval(x, t, level, c, i))
    ensures Inv(Do(g, FindUpval(x, t, level, c, i)))
  {
    UpvalFit(g, x, t, level);
    if exists u :: IsUpvalOf(g, u, t, level) {
      forall u | IsUpvalOf(g, u, t, level) ensures Inv(Fill(Revive(g, u), c, i, u)) {
        assert u in g.heap && Fillable(g, c, i);
        hide *;
        ReviveInv(g, u);
        RevivedClosure(g, u, c, i);
        FillInv(Revive(g, u), c, i, u);
      }
      hide Inv, Fillable, Revive, Fill, Addable;
    } else {
      assert Fillable(g, c, i) && x !in g.heap;
      hide Inv, SeqLive, Slots, Addable, Fillable, Fill, Add;
      AddInv(g, x, Open(t, level), []);
      AddedLive(g, x, Open(t, level), []);
      AddedClosure(g, x, Open(t, level), [], c, i);
      FillInv(Add(g, x, Open(t, level), []), c, i, x);
    }
  }

  /** What the stack slot holds is live, as the slot of an upvalue that is there, and for a new one. */
  lemma UpvalFit(g: Global, x: Ref, t: Ref, level: nat)
    requires Inv(g) && IsThread(g, t) && level < |g.heap[t].slots|
    ensures forall u :: IsUpvalOf(g, u, t, level) ==> SeqLive(g, Slots(g, u))
    ensures x !in g.heap ==> Addable(g, x, Open(t, level), [])
  {
    ReachLive(g, t);
    HeldLive(g, t);
    assert Slots(g, t) == g.heap[t].slots;
    assert SeqLive(g, [g.heap[t].slots[level]]);
    forall u | IsUpvalOf(g, u, t, level) ensures SeqLive(g, Slots(g, u)) {
      assert Slots(g, u) == [g.heap[t].slots[level]];
    }
    hide Inv, Reachable;
  }

  lemma EmptyLive(g: Global)
    ensures SeqLive(g, [])
  {
  }

  lemma InternInv(g: Global, x: Ref, text: string, k: nat)
    requires Inv(g) && Enabled(g, Intern(x, text, k))
    ensures Inv(Do(g, Intern(x, text, k)))
  {
    EmptyLive(g);
    if exists y :: IsString(g, y, text) {
      forall y | IsString(g, y, text) ensures Inv(Push(Revive(g, y), k, y)) {
        assert ObjectOk(g, y);
        assert Slots(g, y) == [] && y in g.heap;
        hide *;
        ReviveInv(g, y);
        RevivedLive(g, y);
        PushInv(Revive(g, y), k, y);
      }
    } else {
      forall y | y in g.heap ensures g.heap[y].kind != Str(text) {
        assert !IsString(g, y, text);
      }
      assert Addable(g, x, Str(text), []);
      hide Inv, SeqLive, Addable, Push, Add;
      AddInv(g, x, Str(text), []);
      AddedLive(g, x, Str(text), []);
      PushInv(Add(g, x, Str(text), []), k, x);
    }
  }

  lemma RevivedLive(g: Global, x: Ref)
    requires x in g.heap
    ensures Live(Revive(g, x), x)
  {
  }

  lemma SetUpvalInv(g: Global, u: Ref, v: Value)
    requires Inv(g) && Enabled(g, SetUpval(u, v))
    ensures Inv(Do(g, SetUpval(u, v)))
  {
    assert ObjectOk(g, u);
    if g.heap[u].kind.Open? {
      var t, l := g.heap[u].kind.owner, g.heap[u].kind.level;
      var s := g.heap[t].slots;
      InHandLive(g, v);
      StoreWritable(g, t, l, v);
      assert s[l := v] == SetAt(s, l, v);
      if g.phase.Propagate? {
        StackWhole(g, t);
        assert v.Ptr? ==> v.ref in g.heap;
      }
      hide Inv, Writable, LiveClosed, Structure, Live;
      StackInv(g, t, s[l := v]);
    } else {
      SetSlotInv(g, u, 0, v);
      hide Inv, Store;
    }
  }

  lemma PopInv(g: Global, t: Ref, n: nat)
    requires Inv(g) && Enabled(g, Pop(t, n))
    ensures Inv(Do(g, Pop(t, n)))
  {
    var s := g.heap[t].slots;
    ReachLive(g, t);
    HeldLive(g, t);
    assert Slots(g, t) == s;
    assert SeqLive(g, s[..n]) by { hide Live; }
    forall u | OpenOf(g, u, t) ensures LevelOk(g, u, s[..n]) {
      OpenLevel(g, u, t);
      hide Structure, LiveClosed, Slots, Live;
    }
    if g.phase.Propagate? {
      StackWhole(g, t);
    }
    hide Inv, LiveClosed, Structure, Live, Slots, SeqLive;
    StackInv(g, t, s[..n]);
  }

  /** Only roots that are live change, and not the registry. */
  lemma RootsInv(g: Global, r: Global)
    requires Inv(g) && r == g.(mt := r.mt, running := r.running) && r.running in g.heap && g.heap[r.running].kind.Thread?
    requires |r.mt| == |g.mt| && (|g.mt| > 0 ==> r.mt[0] == g.mt[0]) && forall x :: IsRoot(r, x) ==> Live(g, x)
    ensures Inv(r)
  {
    assert forall x :: Slots(r, x) == Slots(g, x) && (Live(r, x) <==> Live(g, x)) && (Marked(r, x) <==> Marked(g, x)) && (IsCurrent(r, x) <==> IsCurrent(g, x));
    RootsStructure(g, r);
    if g.phase.Propagate? {
      RootsTri(g, r);
    }
    RootsPhase(g, r);
    hide Structure, Interned, PhaseOk, Slots, Live;
    forall x, y | Live(r, x) && Refers(r, x, y) ensures Live(r, y) {
      assert Refers(g, x, y);
    }
  }

  lemma RootsStructure(g: Global, r: Global)
    requires Structure(g) && Interned(g) && r == g.(mt := r.mt, running := r.running) && r.running in g.heap && g.heap[r.running].kind.Thread?
    ensures Structure(r) && Interned(r)
  {
    forall x | x in g.heap ensures ObjectOk(r, x) {
      assert ObjectOk(g, x);
    }
    hide ObjectOk;
  }

  lemma RootsTri(g: Global, r: Global)
    requires Tri(g, {}, false, false) && r == g.(mt := r.mt, running := r.running)
    ensures Tri(r, {}, false, false)
  {
    forall y ensures Slots(r, y) == Slots(g, y) && (Marked(g, y) <==> Marked(r, y)) {
    }
    assert Lists(r) by { hide Whole, Done; }
    assert Whole(r) by { hide Slots; }
    forall y | y in r.heap ensures Done(r, y, false, false) {
      assert Done(g, y, false, false);
      SameMarked(g, r, y);
      hide Slots, AllMarked, Whole, Lists, Marked;
    }
  }

  lemma RootsPhase(g: Global, r: Global)
    requires 0 < g.strsize && g.sweepgc <= |g.rootgc| && PhaseOk(g) && r == g.(mt := r.mt, running := r.running)
    requires |r.mt| == |g.mt| && (|g.mt| > 0 ==> r.mt[0] == g.mt[0]) && (g.phase.Propagate? ==> Tri(r, {}, false, false))
    ensures PhaseOk(r)
  {
    ChainSame(g, r);
    assert forall x :: (Marked(r, x) <==> Marked(g, x)) && (IsCurrent(r, x) <==> IsCurrent(g, x)) && (Live(r, x) <==> Live(g, x));
    hide Tri, Chain, Marked, IsCurrent, Live;
  }

  lemma SetMtInv(g: Global, i: nat, v: Value)
    requires Inv(g) && Enabled(g, SetMt(i, v))
    ensures Inv(Do(g, SetMt(i, v)))
  {
    var r := g.(mt := g.mt[i := v]);
    InHandLive(g, v);
    forall x | IsRoot(r, x) ensures Live(g, x) {
      if Ptr(x) in r.mt {
        var j :| 0 <= j < |r.mt| && r.mt[j] == Ptr(x);
        assert j != i ==> Ptr(x) in g.mt;
      }
      assert Ptr(x) != v ==> IsRoot(g, x);
    }
    hide PhaseOk, Live;
    RootsInv(g, r);
  }

  lemma ResumeInv(g: Global, t: Ref)
    requires Inv(g) && Enabled(g, Resume(t))
    ensures Inv(Do(g, Resume(t)))
  {
    var r := g.(running := t);
    ReachLive(g, t);
    forall x | IsRoot(r, x) ensures Live(g, x) {
      assert x != t ==> IsRoot(g, x);
    }
    hide PhaseOk, Live;
    RootsInv(g, r);
  }

  lemma ResizeInv(g: Global, n: nat)
    requires Inv(g) && 0 < n && !g.phase.SweepString?
    ensures Inv(g.(strsize := n))
  {
    hide *;
    var r := g.(strsize := n);
    InvParts(g);
    ResizedStructure(g, r);
    ResizedLive(g, r);
    if g.phase.Propagate? {
      PropagateParts(g);
      StrsizeTri(g, r);
    }
    ResizedPhase(g, r);
    InvWhole(r);
  }

  lemma PropagateParts(g: Global)
    requires 0 < g.strsize && g.sweepgc <= |g.rootgc| && PhaseOk(g) && g.phase.Propagate?
    ensures Tri(g, {}, false, false)
  {
  }

  lemma ResizedLive(g: Global, r: Global)
    requires LiveClosed(g) && r == g.(strsize := r.strsize)
    ensures LiveClosed(r)
  {
    assert forall x :: Slots(r, x) == Slots(g, x) && (Live(r, x) <==> Live(g, x)) && (IsRoot(r, x) <==> IsRoot(g, x));
    hide Slots, Live, IsRoot;
  }

  lemma ResizedPhase(g: Global, r: Global)
    requires 0 < g.strsize && g.sweepgc <= |g.rootgc| && PhaseOk(g) && r == g.(strsize := r.strsize) && 0 < r.strsize && !g.phase.SweepString?
    requires g.phase.Propagate? ==> Tri(r, {}, false, false)
    ensures PhaseOk(r)
  {
    ChainBelow(g);
    assert forall x :: (Live(r, x) <==> Live(g, x)) && (IsCurrent(r, x) <==> IsCurrent(g, x)) && (Marked(r, x) <==> Marked(g, x));
    hide Tri, Chain, Live, Marked, IsCurrent;
  }

  lemma ChainBelow(g: Global)
    requires 0 < g.strsize
    ensures forall t: string :: Chain(g, t) < g.strsize
  {
  }

  lemma StrsizeTri(g: Global, r: Global)
    requires Tri(g, {}, false, false) && r == g.(strsize := r.strsize)
    ensures Tri(r, {}, false, false)
  {
    forall y ensures Slots(r, y) == Slots(g, y) && (Marked(g, y) <==> Marked(r, y)) {
    }
    assert Lists(r) by { hide Whole, Done; }
    assert Whole(r) by { hide Slots; }
    forall y | y in r.heap ensures Done(r, y, false, false) {
      assert Done(g, y, false, false);
      SameMarked(g, r, y);
      hide Slots, AllMarked, Whole, Lists, Marked;
    }
  }

  /** Whatever the program does, in whatever phase the collector is, the invariant is kept. */
  lemma OpInv(g: Global, op: Op)
    requires Inv(g) && Enabled(g, op)
    ensures Inv(Do(g, op))
  {
    hide *;
    match op
    case New(x, kind, slots, k) => DoNew(g, x, kind, slots, k); NewInv(g, x, kind, slots, k);
    case NewUpval(x, v, c, i) => DoNewUpval(g, x, v, c, i); NewUpvalInv(g, x, v, c, i);
    case FindUpval(x, t, level, c, i) => FindUpvalInv(g, x, t, level, c, i);
    case Intern(x, text, k) => InternInv(g, x, text, k);
    case SetSlot(o, i, v) => DoSetSlot(g, o, i, v); SetSlotInv(g, o, i, v);
    case SetUpval(u, v) => SetUpvalInv(g, u, v);
    case Pop(t, n) => PopInv(g, t, n);
    case CloseUpval(u) => DoCloseUpval(g, u); CloseOneInv(g, u);
    case SetMt(i, v) => SetMtInv(g, i, v);
    case Resume(t) => ResumeInv(g, t);
    case Resize(n) => DoResize(g, n); ResizeInv(g, n);
  }

  lemma DoNew(g: Global, x: Ref, kind: Kind, slots: seq<Value>, k: nat)
    requires Inv(g) && Enabled(g, New(x, kind, slots, k))
    ensures Do(g, New(x, kind, slots, k)) == Push(Add(g, x, kind, slots), k, x) && x !in g.heap && StackSlot(g, k)
  {
    hide PhaseOk, LiveClosed, Push, Add;
  }

  lemma DoNewUpval(g: Global, x: Ref, v: Value, c: Ref, i: nat)
    requires Inv(g) && Enabled(g, NewUpval(x, v, c, i))
    ensures Do(g, NewUpval(x, v, c, i)) == Fill(Add(g, x, Closed, [v]), c, i, x) && x !in g.heap && Fillable(g, c, i)
  {
    hide PhaseOk, LiveClosed, Fill, Add, Fillable;
  }

  lemma DoSetSlot(g: Global, o: Ref, i: nat, v: Value)
    requires Inv(g) && Enabled(g, SetSlot(o, i, v))
    ensures o in g.heap && i <= |g.heap[o].slots| && InHand(g, v) && Do(g, SetSlot(o, i, v)) == Store(g, o, i, v)
    ensures !g.heap[o].kind.Str? && !g.heap[o].kind.Open? && !g.heap[o].kind.Closed?
  {
    hide PhaseOk, LiveClosed, Store;
  }

  lemma DoCloseUpval(g: Global, u: Ref)
    requires Inv(g) && Enabled(g, CloseUpval(u))
    ensures u in g.heap && g.heap[u].kind.Open? && Do(g, CloseUpval(u)) == CloseOne(g, u)
  {
    hide PhaseOk, LiveClosed, CloseOne;
  }

  lemma DoResize(g: Global, n: nat)
    requires Inv(g) && Enabled(g, Resize(n))
    ensures 0 < n && !g.phase.SweepString? && Do(g, Resize(n)) == g.(strsize := n)
  {
    hide PhaseOk, LiveClosed;
  }

  /** What both barriers assert: neither object is dead, and the collector is marking or sweeping. */
  lemma BarrierAsserts(g: Global, o: Ref, v: Value)
    requires Inv(g) && o in g.heap && NeedsBarrier(g, o, v) && InHand(g, v)
    ensures Live(g, o) && Live(g, v.ref) && !g.phase.Pause? && !g.phase.Finalize?
  {
    InHandLive(g, v);
    assert g.phase.Pause? || g.phase.Finalize? ==> IsCurrent(g, o);
    hide Structure, Interned, LiveClosed, Tri, StringsSwept, ListSwept;
  }

  // ---------------------------------------------------------------- what is made is held

  lemma PushHolds(g: Global, k: nat, x: Ref)
    requires Structure(g) && StackSlot(g, k)
    ensures Reachable(Push(g, k, x), x)
  {
    var r := Push(g, k, x);
    var s := SetAt(g.heap[g.running].slots, k, Ptr(x));
    assert s[k] == Ptr(x);
    assert Slots(r, r.running) == s;
    assert Refers(r, r.running, x);
    ReachRoot(r, r.running);
    hide Structure, Slots, Push;
    ReachStep(r, r.running, x);
  }

  /** What a closure's slot gets is reachable, because the closure stays so. */
  lemma FillHolds(g: Global, c: Ref, i: nat, x: Ref)
    requires Structure(g) && IsClosure(g, c, i) && Reachable(g, c)
    ensures Reachable(Fill(g, c, i, x), x)
  {
    var r := Fill(g, c, i, x);
    var s := SetAt(g.heap[c].slots, i, Ptr(x));
    assert s[i] == Ptr(x);
    assert Slots(r, c) == s;
    forall y | y != c ensures Slots(r, y) == Slots(g, y) {
      FillOther(g, c, i, x, y);
    }
    hide Structure, Slots;
    StaysReached(g, r, c);
    assert Refers(r, c, x);
    ReachStep(r, c, x);
  }

  lemma FillOther(g: Global, c: Ref, i: nat, x: Ref, y: Ref)
    requires Structure(g) && IsClosure(g, c, i) && y != c
    ensures Slots(Fill(g, c, i, x), y) == Slots(g, y)
  {
    if y in g.heap {
      assert ObjectOk(g, y);
    }
    hide Structure;
  }

  /** An object is reached by what does not change when only what it holds itself does. */
  lemma StaysReached(g: Global, r: Global, c: Ref)
    requires Reachable(g, c) && (forall y :: IsRoot(g, y) <==> IsRoot(r, y)) && forall y :: y != c ==> Slots(r, y) == Slots(g, y)
    ensures Reachable(r, c)
  {
    hide Slots, IsRoot;
    if !Reachable(r, c) {
      var s := iset y | Reachable(r, y);
      forall y | IsRoot(g, y) ensures y in s {
        ReachRoot(r, y);
      }
      forall y, z | y in s && Refers(g, y, z) ensures z in s {
        assert Refers(r, y, z);
        ReachStep(r, y, z);
      }
      hide Reachable;
      ReachableIn(g, s, c);
    }
  }

  /** A new object is reachable right after it has been made. */
  lemma NewHeld(g: Global, x: Ref, kind: Kind, slots: seq<Value>, k: nat)
    requires Inv(g) && Enabled(g, New(x, kind, slots, k))
    ensures var r := Do(g, New(x, kind, slots, k)); Reachable(r, x) && IsCurrent(r, x) && r.heap[x].kind == kind
  {
    DoNew(g, x, kind, slots, k);
    AddIs(g, x, kind, slots);
    var h := Add(g, x, kind, slots);
    assert Structure(h) by { NewAdds(g, x, kind, slots, k); }
    assert StackSlot(h, k);
    PushHolds(h, k, x);
    hide Inv, Structure, Enabled, Add, Reachable;
  }

  lemma NewAdds(g: Global, x: Ref, kind: Kind, slots: seq<Value>, k: nat)
    requires Inv(g) && Enabled(g, New(x, kind, slots, k))
    ensures Structure(Add(g, x, kind, slots))
  {
    forall i | 0 <= i < |slots| && slots[i].Ptr? ensures Live(g, slots[i].ref) {
      assert InHand(g, slots[i]);
      InHandLive(g, slots[i]);
    }
    assert Addable(g, x, kind, slots);
    hide PhaseOk, Reachable, SeqLive;
    AddStructure(g, x, kind, slots);
  }

  /** An interned string is reachable right after the lookup, new or found, and alive even if it was found dead. */
  lemma InternHeld(g: Global, x: Ref, text: string, k: nat)
    requires Inv(g) && Enabled(g, Intern(x, text, k))
    ensures var r := Do(g, Intern(x, text, k)); exists y :: IsString(r, y, text) && Reachable(r, y) && Live(r, y)
    ensures forall y :: IsString(g, y, text) ==> Reachable(Do(g, Intern(x, text, k)), y) && Live(Do(g, Intern(x, text, k)), y)
  {
    var r := Do(g, Intern(x, text, k));
    InternInv(g, x, text, k);
    if exists y :: IsString(g, y, text) {
      forall y | IsString(g, y, text) ensures IsString(r, y, text) && Reachable(r, y) {
        OneString(g, x, text, k, y);
        hide *;
        RevivedStructure(g, y) by { assert IsString(g, y, text); StringIs(g, y, text); }
        StringIs(g, y, text);
        PushHolds(Revive(g, y), k, y);
      }
    } else {
      StringMade(g, x, text, k);
      assert r == Push(Add(g, x, Str(text), []), k, x);
    }
    hide *;
    forall y | Reachable(r, y) ensures Live(r, y) {
      ReachIn(r, y);
    }
  }

  lemma StringIs(g: Global, y: Ref, text: string)
    requires IsString(g, y, text)
    ensures y in g.heap
  {
  }

  lemma ReachIn(g: Global, y: Ref)
    requires Inv(g) && Reachable(g, y)
    ensures Live(g, y)
  {
    ReachLive(g, y);
  }

  lemma StringMade(g: Global, x: Ref, text: string, k: nat)
    requires Inv(g) && Enabled(g, Intern(x, text, k)) && forall y :: !IsString(g, y, text)
    ensures var r := Push(Add(g, x, Str(text), []), k, x); IsString(r, x, text) && Reachable(r, x)
  {
    AddIs(g, x, Str(text), []);
    NewString(g, x, text);
    PushHolds(Add(g, x, Str(text), []), k, x);
    hide Inv, Structure, Reachable;
  }

  lemma NewString(g: Global, x: Ref, text: string)
    requires Inv(g) && x !in g.heap && forall y :: !IsString(g, y, text)
    ensures Structure(Add(g, x, Str(text), []))
  {
    forall y | y in g.heap ensures g.heap[y].kind != Str(text) {
      assert !IsString(g, y, text);
    }
    assert Addable(g, x, Str(text), []);
    hide PhaseOk, LiveClosed;
    AddStructure(g, x, Str(text), []);
  }

  lemma RevivedStructure(g: Global, y: Ref)
    requires Structure(g) && Interned(g) && y in g.heap
    ensures Structure(Revive(g, y))
  {
    PaintStructure(g, y, White(g.cur));
    hide Structure;
  }

  lemma OneString(g: Global, x: Ref, text: string, k: nat, y: Ref)
    requires Inv(g) && Enabled(g, Intern(x, text, k)) && IsString(g, y, text)
    ensures Structure(g) && Interned(g) && Do(g, Intern(x, text, k)) == Push(Revive(g, y), k, y) && StackSlot(Revive(g, y), k)
    ensures IsString(Do(g, Intern(x, text, k)), y, text)
  {
    forall z | IsString(g, z, text) ensures z == y {
    }
    assert g.running in g.heap && g.heap[g.running].kind.Thread?;
    hide PhaseOk, LiveClosed;
  }

  /** The upvalue of a stack slot is reachable right after it has been found or made. */
  lemma UpvalHeld(g: Global, x: Ref, t: Ref, level: nat, c: Ref, i: nat)
    requires Inv(g) && Enabled(g, FindUpval(x, t, level, c, i))
    ensures var r := Do(g, FindUpval(x, t, level, c, i)); exists u :: IsUpvalOf(r, u, t, level) && Reachable(r, u)
  {
    if exists u :: IsUpvalOf(g, u, t, level) {
      var u := FoundUpval(g, x, t, level, c, i);
      hide *;
      FoundHeld(g, u, c, i, t, level);
    } else {
      MadeHeld(g, x, t, level, c, i);
      assert Do(g, FindUpval(x, t, level, c, i)) == Fill(Add(g, x, Open(t, level), []), c, i, x);
      hide *;
    }
  }

  lemma FoundUpval(g: Global, x: Ref, t: Ref, level: nat, c: Ref, i: nat) returns (u: Ref)
    requires Inv(g) && Enabled(g, FindUpval(x, t, level, c, i)) && exists u :: IsUpvalOf(g, u, t, level)
    ensures IsUpvalOf(g, u, t, level) && Do(g, FindUpval(x, t, level, c, i)) == Fill(Revive(g, u), c, i, u)
    ensures Structure(g) && Interned(g) && Fillable(g, c, i)
  {
    var r := Do(g, FindUpval(x, t, level, c, i));
    assert exists u :: IsUpvalOf(g, u, t, level) && r == Fill(Revive(g, u), c, i, u);
    u :| IsUpvalOf(g, u, t, level) && r == Fill(Revive(g, u), c, i, u);
  }

  lemma FoundHeld(g: Global, u: Ref, c: Ref, i: nat, t: Ref, level: nat)
    requires Structure(g) && Interned(g) && IsUpvalOf(g, u, t, level) && Fillable(g, c, i)
    ensures IsUpvalOf(Fill(Revive(g, u), c, i, u), u, t, level) && Reachable(Fill(Revive(g, u), c, i, u), u)
  {
    RevivedStructure(g, u);
    RevivedClosure(g, u, c, i);
    RevivedReach(g, u, c);
    FillHolds(Revive(g, u), c, i, u);
    hide Reachable, Structure, Interned;
  }

  lemma MadeHeld(g: Global, x: Ref, t: Ref, level: nat, c: Ref, i: nat)
    requires Inv(g) && Enabled(g, FindUpval(x, t, level, c, i))
    ensures var r := Fill(Add(g, x, Open(t, level), []), c, i, x); IsUpvalOf(r, x, t, level) && Reachable(r, x)
  {
    AddIs(g, x, Open(t, level), []);
    AddedClosure(g, x, Open(t, level), [], c, i);
    NewUpvalReach(g, x, t, level, c);
    FillHolds(Add(g, x, Open(t, level), []), c, i, x);
    hide Reachable, Structure, Inv;
  }

  lemma RevivedReach(g: Global, u: Ref, c: Ref)
    requires u in g.heap && Reachable(g, c)
    ensures Reachable(Revive(g, u), c)
  {
    var r := Revive(g, u);
    assert forall y :: Slots(r, y) == Slots(g, y);
    hide Slots;
    StaysReached(g, r, c);
  }

  lemma NewUpvalReach(g: Global, x: Ref, t: Ref, level: nat, c: Ref)
    requires Inv(g) && x !in g.heap && IsThread(g, t) && level < |g.heap[t].slots| && Reachable(g, c)
    ensures Structure(Add(g, x, Open(t, level), [])) && Reachable(Add(g, x, Open(t, level), []), c)
  {
    ReachLive(g, t);
    HeldLive(g, t);
    assert Slots(g, t) == g.heap[t].slots;
    assert Addable(g, x, Open(t, level), []);
    AddStructure(g, x, Open(t, level), []);
    AddedReach(g, x, Open(t, level), [], c);
    hide Inv, Reachable;
  }

  /** Adding an object takes none out of reach. */
  lemma AddedReach(g: Global, x: Ref, kind: Kind, slots: seq<Value>, c: Ref)
    requires Structure(g) && Addable(g, x, kind, slots) && Reachable(g, c)
    ensures Reachable(Add(g, x, kind, slots), c)
  {
    var r := Add(g, x, kind, slots);
    var s := iset y | Reachable(r, y);
    AddIs(g, x, kind, slots);
    forall y ensures Slots(g, y) != [] ==> Slots(r, y) == Slots(g, y) {
      AddObject(g, x, kind, slots, y);
    }
    hide Slots, Add, Structure;
    forall y | IsRoot(g, y) ensures y in s {
      ReachRoot(r, y);
    }
    forall y, z | y in s && Refers(g, y, z) ensures z in s {
      assert Refers(r, y, z);
      ReachStep(r, y, z);
    }
    hide Reachable;
    ReachableIn(g, s, c);
  }

  // ---------------------------------------------------------------- what is held afterwards

  /**
   Slot i of `o` holds `v` now, or is new and does; an open upvalue of that slot sees it; nothing else that
   was there holds anything else, and the roots are the same.  `made` are the objects that are new.
   */
  ghost predicate Puts(g: Global, r: Global, o: Ref, i: nat, v: Value, made: set<Ref>)
  {
    && r.heap.Keys == g.heap.Keys + made && r.mt == g.mt && r.main == g.main && r.running == g.running
    && o in g.heap && i <= |Slots(g, o)| && Slots(r, o) == (if i < |Slots(g, o)| then Slots(g, o)[i := v] else Slots(g, o) + [v])
    && (forall y :: y in g.heap ==> y in r.heap && r.heap[y].kind == g.heap[y].kind)
    && forall y :: y in g.heap && y != o ==> Slots(r, y) == if g.heap[y].kind == Open(o, i) then [v] else Slots(g, y)
  }

  /** Everything holds what it held. */
  ghost predicate HoldsSame(g: Global, r: Global)
  {
    r.heap.Keys == g.heap.Keys && forall y :: y in g.heap ==> r.heap[y].kind == g.heap[y].kind && Slots(r, y) == Slots(g, y)
  }

  lemma WritePuts(g: Global, o: Ref, i: nat, v: Value)
    requires Structure(g) && o in g.heap && !g.heap[o].kind.Open? && i <= |g.heap[o].slots|
    ensures Puts(g, Write(g, o, SetAt(g.heap[o].slots, i, v)), o, i, v, {})
  {
    var r := Write(g, o, SetAt(g.heap[o].slots, i, v));
    assert Slots(g, o) == g.heap[o].slots && r.heap.Keys == g.heap.Keys;
    forall y | y in g.heap && y != o ensures Slots(r, y) == if g.heap[y].kind == Open(o, i) then [v] else Slots(g, y) {
      assert ObjectOk(g, y);
    }
    hide Structure;
  }

  lemma PaintHolds(g: Global, x: Ref, c: Color)
    requires x in g.heap
    ensures HoldsSame(g, Paint(g, x, c))
  {
  }

  /** A barrier changes colours and lists only. */
  lemma BarrierHolds(g: Global, o: Ref, v: Value)
    requires o in g.heap
    ensures var r := Barrier(g, o, v); HoldsSame(g, r) && r.mt == g.mt && r.main == g.main && r.running == g.running
  {
    if NeedsBarrier(g, o, v) {
      if g.heap[o].kind.Table? {
        PaintHolds(g, o, Gray);
        assert forall y :: Slots(BarrierBack(g, o), y) == Slots(Paint(g, o, Gray), y);
      } else if g.phase.Propagate? {
        var r := Mark(g, v.ref);
        forall y | y in g.heap ensures r.heap[y].kind == g.heap[y].kind && Slots(r, y) == Slots(g, y) {
          GrownSlots(g, r, y);
          assert SameBut(g.heap[y], r.heap[y]);
        }
      } else {
        PaintHolds(g, o, White(g.cur));
      }
    }
    hide Slots, Mark;
  }

  lemma PutsThen(g: Global, h: Global, r: Global, o: Ref, i: nat, v: Value, made: set<Ref>)
    requires Puts(g, h, o, i, v, made) && HoldsSame(h, r) && r.mt == h.mt && r.main == h.main && r.running == h.running
    ensures Puts(g, r, o, i, v, made)
  {
    hide Slots;
  }

  lemma StorePuts(g: Global, o: Ref, i: nat, v: Value)
    requires Structure(g) && o in g.heap && !g.heap[o].kind.Open? && i <= |g.heap[o].slots|
    ensures Puts(g, Store(g, o, i, v), o, i, v, {})
  {
    var h := Write(g, o, SetAt(g.heap[o].slots, i, v));
    WritePuts(g, o, i, v);
    WriteIs(g, o, SetAt(g.heap[o].slots, i, v));
    BarrierHolds(h, o, v);
    PutsThen(g, h, Barrier(h, o, v), o, i, v, {});
    hide Puts, Barrier, Write, SetAt, Slots, Structure;
  }

  /** A store into a field or a stack slot stores the value there, and nothing else. */
  lemma SetSlotMeans(g: Global, o: Ref, i: nat, v: Value)
    requires Inv(g) && Enabled(g, SetSlot(o, i, v))
    ensures Puts(g, Do(g, SetSlot(o, i, v)), o, i, v, {})
  {
    DoSetSlot(g, o, i, v);
    InvParts(g);
    hide Inv, Enabled, Do, Puts, Store, Structure;
    StorePuts(g, o, i, v);
  }

  /** An assignment to an upvalue assigns: to the stack slot while it is open, to the upvalue itself once it is closed. */
  lemma SetUpvalMeans(g: Global, u: Ref, v: Value)
    requires Inv(g) && Enabled(g, SetUpval(u, v))
    ensures var r := Do(g, SetUpval(u, v));
            && u in g.heap && Slots(r, u) == [v]
            && if g.heap[u].kind.Open? then Puts(g, r, g.heap[u].kind.owner, g.heap[u].kind.level, v, {}) else Puts(g, r, u, 0, v, {})
  {
    assert ObjectOk(g, u);
    InvParts(g);
    if g.heap[u].kind.Open? {
      var t, l := g.heap[u].kind.owner, g.heap[u].kind.level;
      assert g.heap[t].slots[l := v] == SetAt(g.heap[t].slots, l, v);
      WritePuts(g, t, l, v);
      var r := Do(g, SetUpval(u, v));
      assert r == Write(g, t, SetAt(g.heap[t].slots, l, v));
      UpvalSees(g, r, t, l, v, u);
    } else {
      assert Do(g, SetUpval(u, v)) == Store(g, u, 0, v) && Slots(g, u) == g.heap[u].slots;
      StorePuts(g, u, 0, v);
    }
    hide Inv, Do, Store, Write, Structure, Puts, ObjectOk, Reachable;
  }

  lemma UpvalSees(g: Global, r: Global, t: Ref, l: nat, v: Value, u: Ref)
    requires Puts(g, r, t, l, v, {}) && u in g.heap && g.heap[u].kind == Open(t, l) && !g.heap[t].kind.Open?
    ensures Slots(r, u) == [v]
  {
    hide Slots;
  }

  /** A stack that shrinks keeps its lower part; nothing else changes. */
  lemma PopMeans(g: Global, t: Ref, n: nat)
    requires Inv(g) && Enabled(g, Pop(t, n))
    ensures var r := Do(g, Pop(t, n));
            && n <= |Slots(g, t)| && Slots(r, t) == Slots(g, t)[..n] && r.heap.Keys == g.heap.Keys && r.mt == g.mt && r.main == g.main && r.running == g.running
            && (forall y :: y in g.heap && y != t ==> Slots(r, y) == Slots(g, y)) && forall y :: y in g.heap ==> r.heap[y].kind == g.heap[y].kind
  {
    var r := Do(g, Pop(t, n));
    assert Slots(g, t) == g.heap[t].slots;
    forall y | y in g.heap && y != t ensures Slots(r, y) == Slots(g, y) {
      assert ObjectOk(g, y);
      assert g.heap[y].kind.Open? && g.heap[y].kind.owner == t ==> OpenOf(g, y, t);
    }
    hide PhaseOk, LiveClosed, Interned, Reachable;
  }

  /** A basic metatable is set; all else is as it was. */
  lemma SetMtMeans(g: Global, i: nat, v: Value)
    requires Inv(g) && Enabled(g, SetMt(i, v))
    ensures var r := Do(g, SetMt(i, v)); i < |g.mt| && r.mt == g.mt[i := v] && HoldsSame(g, r) && r.main == g.main && r.running == g.running
  {
    hide PhaseOk, LiveClosed, Interned, Structure, Reachable;
  }

  /** Another thread runs. */
  lemma ResumeMeans(g: Global, t: Ref)
    requires Inv(g) && Enabled(g, Resume(t))
    ensures var r := Do(g, Resume(t)); r.running == t && HoldsSame(g, r) && r.main == g.main && r.mt == g.mt
  {
    hide PhaseOk, LiveClosed, Interned, Structure, Reachable;
  }

  /** The string table has as many chains as asked for. */
  lemma ResizeMeans(g: Global, n: nat)
    requires Inv(g) && Enabled(g, Resize(n))
    ensures var r := Do(g, Resize(n)); r.strsize == n && HoldsSame(g, r) && r.main == g.main && r.running == g.running && r.mt == g.mt
  {
    DoResize(g, n);
    hide Inv, Enabled, Do;
  }

  /** An upvalue that is closed keeps its value; a dead one is freed; nothing else changes. */
  lemma CloseUpvalMeans(g: Global, u: Ref)
    requires Inv(g) && Enabled(g, CloseUpval(u))
    ensures var r := Do(g, CloseUpval(u));
            && (forall y :: y in g.heap && y != u ==> y in r.heap && r.heap[y].kind == g.heap[y].kind && Slots(r, y) == Slots(g, y))
            && (if Dead(g, u) then r.heap.Keys == g.heap.Keys - {u}
                else r.heap.Keys == g.heap.Keys && r.heap[u].kind == Closed && Slots(r, u) == Slots(g, u))
  {
    DoCloseUpval(g, u);
    InvParts(g);
    hide Inv, Enabled, Do;
    var r := CloseOne(g, u);
    if Dead(g, u) {
      forall y | y in g.heap && y != u ensures y in r.heap && r.heap[y].kind == g.heap[y].kind && Slots(r, y) == Slots(g, y) {
        DroppedSlots(g, u, y);
      }
      assert r.heap.Keys == g.heap.Keys - {u};
    } else {
      ClosedHolds(g, u);
    }
    hide CloseOne, Structure, Slots;
  }

  lemma DroppedSlots(g: Global, u: Ref, y: Ref)
    requires Structure(g) && u in g.heap && g.heap[u].kind.Open? && Dead(g, u) && y in g.heap && y != u
    ensures var r := CloseOne(g, u); y in r.heap && r.heap[y] == g.heap[y] && Slots(r, y) == Slots(g, y)
  {
    assert ObjectOk(g, y);
    hide Structure;
  }

  lemma ClosedHolds(g: Global, u: Ref)
    requires Structure(g) && u in g.heap && g.heap[u].kind.Open? && !Dead(g, u)
    ensures var r := CloseOne(g, u);
            && r.heap.Keys == g.heap.Keys && r.heap[u].kind == Closed
            && forall y :: y in g.heap ==> Slots(r, y) == Slots(g, y) && (y != u ==> r.heap[y].kind == g.heap[y].kind)
  {
    var h, r := Moved(g, u), CloseOne(g, u);
    forall y ensures Slots(h, y) == Slots(g, y) && (y in h.heap <==> y in g.heap) && (y in h.heap ==> h.heap[y].kind == if y == u then Closed else g.heap[y].kind) {
      MovedObject(g, u, y);
    }
    hide Structure, Moved, Slots, ObjectOk;
    if g.heap[u].color.Gray? {
      if g.phase.Propagate? {
        PaintHolds(h, u, Black);
        var b := Paint(h, u, Black);
        if |b.heap[u].slots| == 1 {
          BarrierHolds(b, u, b.heap[u].slots[0]);
        }
      } else {
        PaintHolds(h, u, White(h.cur));
      }
    }
    hide Barrier, Paint;
  }

  /** An object has been added; all that was there holds what it held. */
  ghost predicate Adds(g: Global, h: Global, x: Ref)
  {
    && h.heap.Keys == g.heap.Keys + {x} && h.mt == g.mt && h.main == g.main && h.running == g.running && x !in g.heap
    && forall y :: y in g.heap ==> y in h.heap && h.heap[y].kind == g.heap[y].kind && Slots(h, y) == Slots(g, y)
  }

  lemma AddAdds(g: Global, x: Ref, kind: Kind, slots: seq<Value>)
    requires Structure(g) && x !in g.heap
    ensures var h := Add(g, x, kind, slots);
            Adds(g, h, x) && h.heap[x].kind == kind && h.heap[x].slots == slots
  {
    var h := Add(g, x, kind, slots);
    AddIs(g, x, kind, slots);
    hide Add;
    forall y | y in g.heap ensures y in h.heap && h.heap[y].kind == g.heap[y].kind && Slots(h, y) == Slots(g, y) {
      assert ObjectOk(g, y);
    }
    hide Structure;
  }

  lemma PutsAfter(g: Global, h: Global, r: Global, x: Ref, o: Ref, i: nat, v: Value)
    requires Adds(g, h, x) && Puts(h, r, o, i, v, {}) && o in g.heap
    ensures Puts(g, r, o, i, v, {x}) && (x in r.heap && r.heap[x].kind == h.heap[x].kind && (h.heap[x].kind != Open(o, i) ==> Slots(r, x) == Slots(h, x)))
  {
    hide Slots;
  }

  /** A new object holds what it was made with, and lies on the stack; nothing else has changed. */
  lemma NewMeans(g: Global, x: Ref, kind: Kind, slots: seq<Value>, k: nat)
    requires Inv(g) && Enabled(g, New(x, kind, slots, k))
    ensures var r := Do(g, New(x, kind, slots, k));
            Puts(g, r, g.running, k, Ptr(x), {x}) && r.heap[x].kind == kind && Slots(r, x) == slots
  {
    DoNew(g, x, kind, slots, k);
    InvParts(g);
    assert !kind.Open?;
    NewAdds(g, x, kind, slots, k);
    hide Inv, Enabled, Do;
    MadeOnStack(g, x, kind, slots, k);
  }

  lemma MadeOnStack(g: Global, x: Ref, kind: Kind, slots: seq<Value>, k: nat)
    requires Structure(g) && x !in g.heap && StackSlot(g, k) && Structure(Add(g, x, kind, slots)) && !kind.Open?
    ensures var r := Push(Add(g, x, kind, slots), k, x);
            Puts(g, r, g.running, k, Ptr(x), {x}) && r.heap[x].kind == kind && Slots(r, x) == slots
  {
    var h := Add(g, x, kind, slots);
    AddAdds(g, x, kind, slots);
    AddIs(g, x, kind, slots);
    assert g.running in g.heap && g.heap[g.running].kind.Thread?;
    assert h.running == g.running && h.heap[h.running] == g.heap[g.running];
    PushPuts(h, k, x);
    PutsAfter(g, h, Push(h, k, x), x, g.running, k, Ptr(x));
    hide Add, Structure, Puts, Adds, Push;
  }

  lemma PushPuts(g: Global, k: nat, x: Ref)
    requires Structure(g) && StackSlot(g, k)
    ensures Puts(g, Push(g, k, x), g.running, k, Ptr(x), {})
  {
    WritePuts(g, g.running, k, Ptr(x));
    hide Puts, Write, SetAt;
  }

  lemma FillPuts(g: Global, c: Ref, i: nat, x: Ref)
    requires Structure(g) && IsClosure(g, c, i)
    ensures Puts(g, Fill(g, c, i, x), c, i, Ptr(x), {})
  {
    WritePuts(g, c, i, Ptr(x));
    hide Puts, Write, SetAt, Structure;
  }

  lemma ReviveHolds(g: Global, x: Ref)
    requires x in g.heap
    ensures var r := Revive(g, x); HoldsSame(g, r) && r.mt == g.mt && r.main == g.main && r.running == g.running
  {
    PaintHolds(g, x, White(g.cur));
    hide Slots;
  }

  lemma HeldThenPuts(g: Global, h: Global, r: Global, o: Ref, i: nat, v: Value)
    requires HoldsSame(g, h) && h.mt == g.mt && h.main == g.main && h.running == g.running && Puts(h, r, o, i, v, {})
    ensures Puts(g, r, o, i, v, {})
  {
    hide Slots;
  }

  /** The string of the text, found or made, lies on the stack; nothing else has changed. */
  lemma InternMeans(g: Global, x: Ref, text: string, k: nat) returns (y: Ref)
    requires Inv(g) && Enabled(g, Intern(x, text, k))
    ensures var r := Do(g, Intern(x, text, k));
            && IsString(r, y, text) && (if y in g.heap then IsString(g, y, text) else y == x)
            && Puts(g, r, g.running, k, Ptr(y), if y in g.heap then {} else {y})
  {
    InvParts(g);
    assert StackSlot(g, k) && x !in g.heap;
    if exists z :: IsString(g, z, text) {
      y :| IsString(g, y, text);
      OneString(g, x, text, k, y);
      StringIs(g, y, text);
      hide *;
      ReviveHolds(g, y);
      RevivedStructure(g, y);
      PushPuts(Revive(g, y), k, y);
      HeldThenPuts(g, Revive(g, y), Push(Revive(g, y), k, y), g.running, k, Ptr(y));
    } else {
      y := x;
      StringMade(g, x, text, k);
      assert Do(g, Intern(x, text, k)) == Push(Add(g, x, Str(text), []), k, x);
      NewString(g, x, text);
      hide *;
      MadeOnStack(g, x, Str(text), [], k);
    }
  }

  /** A new closed upvalue holds its value, and the closure holds it. */
  lemma NewUpvalMeans(g: Global, x: Ref, v: Value, c: Ref, i: nat)
    requires Inv(g) && Enabled(g, NewUpval(x, v, c, i))
    ensures var r := Do(g, NewUpval(x, v, c, i));
            Puts(g, r, c, i, Ptr(x), {x}) && r.heap[x].kind == Closed && Slots(r, x) == [v]
  {
    DoNewUpval(g, x, v, c, i);
    InvParts(g);
    InHandLive(g, v);
    assert Addable(g, x, Closed, [v]);
    AddStructure(g, x, Closed, [v]);
    AddedClosure(g, x, Closed, [v], c, i);
    assert c in g.heap;
    hide Inv, Enabled, Do, Structure, Addable, Fillable;
    AddAdds(g, x, Closed, [v]);
    var h := Add(g, x, Closed, [v]);
    FillPuts(h, c, i, x);
    PutsAfter(g, h, Fill(h, c, i, x), x, c, i, Ptr(x));
    hide Add, Fill, Puts, Adds, IsClosure;
  }

  /** The open upvalue of the stack slot, found or made, is what the closure holds; it shows what the slot holds. */
  lemma FindUpvalMeans(g: Global, x: Ref, t: Ref, level: nat, c: Ref, i: nat) returns (u: Ref)
    requires Inv(g) && Enabled(g, FindUpval(x, t, level, c, i))
    ensures var r := Do(g, FindUpval(x, t, level, c, i));
            && IsUpvalOf(r, u, t, level) && (if u in g.heap then IsUpvalOf(g, u, t, level) else u == x)
            && Puts(g, r, c, i, Ptr(u), if u in g.heap then {} else {u})
            && t in g.heap && level < |Slots(g, t)| && Slots(r, u) == [Slots(g, t)[level]]
  {
    UpvalFacts(g, x, t, level, c, i);
    var r := Do(g, FindUpval(x, t, level, c, i));
    if exists z :: IsUpvalOf(g, z, t, level) {
      u := FoundUpval(g, x, t, level, c, i);
      UpvalIs(g, u, t, level);
      hide *;
      ReviveHolds(g, u);
      RevivedStructure(g, u);
      RevivedClosure(g, u, c, i);
      FillPuts(Revive(g, u), c, i, u);
      HeldThenPuts(g, Revive(g, u), r, c, i, Ptr(u));
      UpvalShows(g, r, u, t, level, c, i);
    } else {
      u := x;
      assert r == Fill(Add(g, x, Open(t, level), []), c, i, x);
      NewUpvalReach(g, x, t, level, c);
      hide *;
      var h := Add(g, x, Open(t, level), []);
      AddAdds(g, x, Open(t, level), []);
      AddedClosure(g, x, Open(t, level), [], c, i);
      FillPuts(h, c, i, x);
      PutsAfter(g, h, r, x, c, i, Ptr(x));
      NewShows(g, h, r, x, t, level, c, i);
    }
  }

  lemma UpvalFacts(g: Global, x: Ref, t: Ref, level: nat, c: Ref, i: nat)
    requires Inv(g) && Enabled(g, FindUpval(x, t, level, c, i))
    ensures Structure(g) && Interned(g) && x !in g.heap && Fillable(g, c, i) && IsThread(g, t) && Reachable(g, c)
    ensures t in g.heap && g.heap[t].kind.Thread? && level < |g.heap[t].slots| && Slots(g, t) == g.heap[t].slots && c in g.heap && g.heap[c].kind.Function?
  {
    hide PhaseOk, LiveClosed, Reachable;
  }

  lemma UpvalIs(g: Global, u: Ref, t: Ref, level: nat)
    requires IsUpvalOf(g, u, t, level)
    ensures u in g.heap
  {
  }

  lemma UpvalShows(g: Global, r: Global, u: Ref, t: Ref, level: nat, c: Ref, i: nat)
    requires Puts(g, r, c, i, Ptr(u), {}) && IsUpvalOf(g, u, t, level) && t in g.heap && g.heap[t].kind.Thread? && level < |Slots(g, t)|
    requires c in g.heap && g.heap[c].kind.Function?
    ensures IsUpvalOf(r, u, t, level) && Slots(r, u) == [Slots(g, t)[level]]
  {
  }

  lemma NewShows(g: Global, h: Global, r: Global, x: Ref, t: Ref, level: nat, c: Ref, i: nat)
    requires Adds(g, h, x) && h.heap[x].kind == Open(t, level) && t in g.heap && g.heap[t].kind.Thread? && level < |Slots(g, t)| && t != c
    requires x in r.heap && r.heap[x].kind == h.heap[x].kind && (h.heap[x].kind != Open(c, i) ==> Slots(r, x) == Slots(h, x))
    ensures IsUpvalOf(r, x, t, level) && Slots(r, x) == [Slots(g, t)[level]]
  {
    assert Slots(h, t) == h.heap[t].slots && Slots(h, t) == Slots(g, t);
  }

  /**
   The write barrier, by colours: a black object that gets a white value is gray and put aside again if it is a
   table; otherwise the value is no longer white while marking, and the object is white while sweeping.
   Without need nothing changes colour, and on stacks never.
   */
  lemma BarrierMeans(g: Global, o: Ref, i: nat, v: Value)
    requires Inv(g) && Enabled(g, SetSlot(o, i, v))
    ensures var r := Do(g, SetSlot(o, i, v));
            if o in g.heap && !g.heap[o].kind.Thread? && g.heap[o].color.Black? && v.Ptr? && IsWhite(g, v.ref) then
              && o in r.heap
              && (if g.heap[o].kind.Table? then r.heap[o].color.Gray? && r.again == [o] + g.again
                  else if g.phase.Propagate? then r.heap[o].color.Black? && v.ref in r.heap && !r.heap[v.ref].color.White?
                  else r.heap[o].color == White(g.cur))
            else r.again == g.again && r.gray == g.gray && forall y :: y in g.heap ==> y in r.heap && r.heap[y].color == g.heap[y].color
  {
    DoSetSlot(g, o, i, v);
    hide Inv, Enabled, Do;
    var h := Write(g, o, SetAt(g.heap[o].slots, i, v));
    WriteIs(g, o, SetAt(g.heap[o].slots, i, v));
    hide Write, SetAt;
    if h.heap[o].color.Black? && v.Ptr? && IsWhite(h, v.ref) && h.phase.Propagate? && !h.heap[o].kind.Table? {
      var r := Mark(h, v.ref);
      assert SameBut(h.heap[o], r.heap[o]);
    }
    hide Mark;
  }
}
