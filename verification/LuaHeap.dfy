/**
 The objects of the Lua engine as its collector sees them: their colours, what
 they refer to, the lists they are on, and what is reachable.
 */
module LuaHeap {

  type Ref = nat

  /** A tagged value: a collectable object, or something the collector ignores. */
  datatype Value = Plain | Ptr(ref: Ref)

  /** One of the two whites, or marked. */
  datatype Color = White(flip: bool) | Gray | Black

  /** An open upvalue is a window onto a stack slot; a closed one holds its value itself. */
  datatype Kind = Str(text: string) | Userdata | Closed | Open(owner: Ref, level: nat) | Function | Table | Thread | Proto

  /** `slots` is everything the object holds: fields, constants, upvalues, the stack of a thread. */
  datatype Obj = Obj(kind: Kind, color: Color, fixed: bool, slots: seq<Value>)

  datatype Phase = Pause | Propagate | SweepString | Sweep | Finalize

  /**
   The collector's state.  `rootgc` is the list of all objects but strings and open upvalues, `sweepgc`
   the sweeper's place in it; strings are in a hash table with `strsize` chains, the first `sweepstr` of
   them swept; `uvhead` lists the open upvalues; `mt` are the registry and the basic metatables.
   */
  datatype Global = Global(
    heap: map<Ref, Obj>, cur: bool, phase: Phase, gray: seq<Ref>, again: seq<Ref>,
    rootgc: seq<Ref>, sweepgc: nat, strsize: nat, sweepstr: nat, uvhead: seq<Ref>,
    main: Ref, running: Ref, mt: seq<Value>)

  predicate IsWhite(g: Global, x: Ref)
  {
    x in g.heap && g.heap[x].color.White?
  }

  /** White of the previous cycle: found unreachable. */
  predicate Dead(g: Global, x: Ref)
  {
    x in g.heap && g.heap[x].color == White(!g.cur)
  }

  predicate Live(g: Global, x: Ref)
  {
    x in g.heap && g.heap[x].color != White(!g.cur)
  }

  predicate Marked(g: Global, x: Ref)
  {
    x in g.heap && !g.heap[x].color.White?
  }

  /** What an object holds; an open upvalue holds what its stack slot holds. */
  function Slots(g: Global, x: Ref): seq<Value>
  {
    if x !in g.heap then []
    else match g.heap[x].kind
         case Open(t, l) => if t in g.heap && l < |g.heap[t].slots| then [g.heap[t].slots[l]] else []
         case _ => g.heap[x].slots
  }

  // ---------------------------------------------------------------- reachability

  predicate IsRoot(g: Global, x: Ref)
  {
    x == g.main || x == g.running || Ptr(x) in g.mt
  }

  predicate Refers(g: Global, x: Ref, y: Ref)
  {
    Ptr(y) in Slots(g, x)
  }

  /** A chain of references that starts at a root. */
  predicate IsPath(g: Global, p: seq<Ref>)
  {
    p != [] && IsRoot(g, p[0]) && forall i :: 0 <= i < |p| - 1 ==> Refers(g, p[i], p[i + 1])
  }

  ghost predicate Reachable(g: Global, x: Ref)
  {
    exists p :: IsPath(g, p) && p[|p| - 1] == x
  }

  lemma ReachRoot(g: Global, x: Ref)
    requires IsRoot(g, x)
    ensures Reachable(g, x)
  {
    assert IsPath(g, [x]);
  }

  lemma ReachStep(g: Global, x: Ref, y: Ref)
    requires Reachable(g, x) && Refers(g, x, y)
    ensures Reachable(g, y)
  {
    var p :| IsPath(g, p) && p[|p| - 1] == x;
    var q := p + [y];
    hide Slots;
    forall i | 0 <= i < |q| - 1 ensures Refers(g, q[i], q[i + 1]) {
      if i < |p| - 1 {
        assert Refers(g, p[i], p[i + 1]);
      }
    }
    assert IsPath(g, q);
  }

  /** A set of objects that holds the roots and whatever its members refer to. */
  ghost predicate ClosedSet(g: Global, s: iset<Ref>)
  {
    && (forall x :: IsRoot(g, x) ==> x in s)
    && (forall x, y :: x in s && Refers(g, x, y) ==> y in s)
  }

  /** Everything reachable is in every such set. */
  lemma {:induction false} ReachWithin(g: Global, s: iset<Ref>, p: seq<Ref>, i: nat)
    requires ClosedSet(g, s) && IsPath(g, p) && i < |p|
    ensures p[i] in s
    decreases i
  {
    hide Slots;
    if i > 0 {
      ReachWithin(g, s, p, i - 1);
      assert Refers(g, p[i - 1], p[i]);
    }
  }

  lemma ReachableIn(g: Global, s: iset<Ref>, x: Ref)
    requires ClosedSet(g, s) && Reachable(g, x)
    ensures x in s
  {
    var p :| IsPath(g, p) && p[|p| - 1] == x;
    ReachWithin(g, s, p, |p| - 1);
  }

  /** Two states with the same roots, where whatever the first reaches holds the same, reach the same. */
  lemma SameReach(g: Global, h: Global, x: Ref)
    requires forall y :: IsRoot(g, y) <==> IsRoot(h, y)
    requires forall y, z :: Reachable(g, y) ==> (Refers(g, y, z) <==> Refers(h, y, z))
    ensures Reachable(g, x) <==> Reachable(h, x)
  {
    hide Slots, IsRoot;
    if Reachable(g, x) {
      var s := iset y | Reachable(h, y) && Reachable(g, y);
      forall y | IsRoot(g, y) ensures y in s {
        ReachRoot(g, y);
        ReachRoot(h, y);
      }
      forall y, z | y in s && Refers(g, y, z) ensures z in s {
        ReachStep(g, y, z);
        ReachStep(h, y, z);
      }
      hide Reachable;
      ReachableIn(g, s, x);
    }
    if Reachable(h, x) {
      var s := iset y | Reachable(g, y);
      forall y | IsRoot(h, y) ensures y in s {
        ReachRoot(g, y);
      }
      forall y, z | y in s && Refers(h, y, z) ensures z in s {
        ReachStep(g, y, z);
      }
      hide Reachable;
      ReachableIn(h, s, x);
    }
  }

  // ---------------------------------------------------------------- structure

  predicate Distinct(s: seq<Ref>)
  {
    forall i, j :: 0 <= i < j < |s| ==> s[i] != s[j]
  }

  /** The chain a string is on; `Hash` is the engine's, on up to 32 of its characters. */
  function Chain(g: Global, text: string): (i: nat)
    requires 0 < g.strsize
    ensures i < g.strsize
  {
    Hash(text) % g.strsize
  }

  function Hash(text: string): nat
  {
    HashFrom(text, |text|, |text| / 32 + 1, |text| % 0x1_0000_0000)
  }

  /** h ^ ((h << 5) + (h >> 2) + c), in 32 bits, over every step-th character from the end. */
  function HashFrom(text: string, l1: nat, step: nat, h: nat): nat
    requires l1 <= |text| && 0 < step
    decreases l1
  {
    if l1 < step then h
    else HashFrom(text, l1 - step, step, Xor(h, (h * 32 + h / 4 + text[l1 - 1] as nat) % 0x1_0000_0000))
  }

  /** Exclusive or, bit by bit. */
  function Xor(a: nat, b: nat): nat
  {
    if a == 0 && b == 0 then 0 else (a + b) % 2 + 2 * Xor(a / 2, b / 2)
  }

  predicate OnRootList(k: Kind)
  {
    !k.Str? && !k.Open?
  }

  ghost predicate Structure(g: Global)
  {
    && 0 < g.strsize && g.sweepgc <= |g.rootgc|
    && Distinct(g.rootgc) && (forall x :: x in g.rootgc <==> x in g.heap && OnRootList(g.heap[x].kind))
    && Distinct(g.uvhead) && (forall x :: x in g.uvhead <==> x in g.heap && g.heap[x].kind.Open?)
    && (forall x :: x in g.heap ==> ObjectOk(g, x))
    && g.main in g.heap && g.heap[g.main].kind.Thread?
    && g.running in g.heap && g.heap[g.running].kind.Thread?
  }

  /** An open upvalue points into the stack of an existing thread; only strings and the main thread are fixed. */
  predicate ObjectOk(g: Global, x: Ref)
    requires x in g.heap
  {
    var o := g.heap[x];
    && (o.kind.Str? || o.kind.Open? ==> o.slots == [])
    && (o.kind.Closed? ==> |o.slots| == 1)
    && (o.kind.Open? ==> OwnerOk(g, o.kind.owner, o.kind.level))
    && (o.fixed ==> o.kind.Str? || x == g.main)
  }

  predicate OwnerOk(g: Global, t: Ref, l: nat)
  {
    t in g.heap && g.heap[t].kind.Thread? && l < |g.heap[t].slots|
  }

  /** Equal strings are one object. */
  ghost predicate Interned(g: Global)
  {
    forall x, y :: x in g.heap && y in g.heap && g.heap[x].kind.Str? && g.heap[x].kind == g.heap[y].kind ==> x == y
  }

  /** Roots are live, and live objects refer to live objects only. */
  ghost predicate LiveClosed(g: Global)
  {
    && (forall x :: IsRoot(g, x) ==> Live(g, x))
    && (forall x, y :: Live(g, x) && Refers(g, x, y) ==> Live(g, y))
  }

  lemma ReachLive(g: Global, x: Ref)
    requires LiveClosed(g) && Reachable(g, x)
    ensures Live(g, x)
  {
    hide Slots, IsRoot, Live, Reachable;
    var s := iset y | Live(g, y);
    ReachableIn(g, s, x);
  }
}
