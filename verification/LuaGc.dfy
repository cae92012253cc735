/**
 The collector as it runs: it updates the engine's global state in place, step by
 step and in loops.  Each method does to the state what the function it names says.
 */
module LuaGc {
  import opened LuaHeap
  import opened LuaMark
  import opened LuaCycle
  import opened LuaSweep
  import opened LuaMutator
  import opened LuaCollector
  import opened LuaFullGc

  class GlobalState {
    var g: Global

    constructor ()
      ensures g == Initial() && Inv(g)
    {
      g := Initial();
      InitialInv();
    }

    method SetColor(x: Ref, c: Color)
      requires x in g.heap
      modifies this
      ensures g == Paint(old(g), x, c)
    {
      g := g.(heap := g.heap[x := g.heap[x].(color := c)]);
    }

    /** Marks a white object. */
    method ReallyMarkObject(x: Ref)
      requires IsWhite(g, x)
      modifies this
      ensures g == Mark(old(g), x)
      decreases |Whites(g)|, 0
    {
      hide Whites, MarkSlots, Slots;
      var o := g.heap[x];
      ghost var was := g;
      GrownPaint(g, x, Gray);
      GrownPaint(g, x, Black);
      WhitesLess(g, Paint(g, x, Gray), x);
      WhitesLess(g, Paint(g, x, Black), x);
      var held := Slots(g, x);
      SetColor(x, Gray);
      match o.kind {
        case Str(_) =>
        case Userdata =>
          SetColor(x, Black);
          assert g.heap == Paint(was, x, Black).heap;
          MarkSeq(o.slots);
        case Closed =>
          MarkSeq(held);
          SetColor(x, Black);
        case Open(_, _) =>
          MarkSeq(held);
        case _ =>
          g := g.(gray := [x] + g.gray);
      }
    }

    /** Marks all that is white among the values. */
    method MarkSeq(s: seq<Value>)
      modifies this
      ensures g == MarkSlots(old(g), s)
      decreases |Whites(g)|, 2
    {
      hide Whites, Grown;
      var i := 0;
      assert s[0..] == s;
      while i < |s|
        invariant 0 <= i <= |s|
        invariant MarkSlots(g, s[i..]) == MarkSlots(old(g), s)
        invariant |Whites(g)| <= old(|Whites(g)|)
      {
        ghost var was := g;
        assert s[i..][1..] == s[i + 1..];
        WhitesGrown(was, MarkValue(was, s[i]));
        if s[i].Ptr? && IsWhite(g, s[i].ref) {
          ReallyMarkObject(s[i].ref);
        }
        i := i + 1;
      }
    }

    /** Takes one object off the gray list and marks what it holds. */
    method PropagateMark()
      requires g.gray != [] && g.gray[0] in g.heap
      modifies this
      ensures g == Step(old(g))
    {
      var x := g.gray[0];
      var o := g.heap[x];
      g := g.(gray := g.gray[1..]);
      if o.kind.Thread? {
        g := g.(again := [x] + g.again);
      } else {
        SetColor(x, Black);
      }
      assert g == Taken(old(g));
      MarkSeq(o.slots);
    }

    /** Until no object is waiting. */
    method PropagateAllGray()
      requires Tri(g, {}, false, false)
      modifies this
      ensures g == PropagateAll(old(g))
    {
      hide Tri, Step, Load;
      while g.gray != []
        invariant Tri(g, {}, false, false) && PropagateAll(g) == PropagateAll(old(g))
        decreases Load(g)
      {
        StepTri(g, false, false);
        StepLoad(g);
        PropagateMark();
      }
    }

    /** Marks what marked open upvalues hold now. */
    method RemarkUpvalues()
      modifies this
      ensures g == RemarkUpvals(old(g), old(g).uvhead)
    {
      var us, i := g.uvhead, 0;
      assert us[0..] == us;
      while i < |us|
        invariant 0 <= i <= |us|
        invariant RemarkUpvals(g, us[i..]) == RemarkUpvals(old(g), us)
      {
        assert us[i..][1..] == us[i + 1..];
        if us[i] in g.heap && g.heap[us[i]].color.Gray? {
          MarkSeq(Slots(g, us[i]));
        }
        i := i + 1;
      }
    }

    /** Ends the mark phase: upvalues, roots and the second gray list again, then the whites change roles. */
    method AtomicEnd()
      requires Marking(g, false, false)
      modifies this
      ensures g == Atomic(old(g))
    {
      hide Marking, MarkSlots, MarkValue, RemarkUpvals, PropagateAll, Spread, RootsMarked;
      ghost var g0 := g;
      RemarkMarking(g0);
      RemarkUpvalues();
      PropagateMarking(g, true, false);
      PropagateAllGray();
      assert g == Remarked(g0);
      ghost var g1 := g;
      MarkAgainOk(g1);
      MarkObject(g.running);
      MarkSeq(if |g.mt| > 0 then g.mt[1..] else []);
      PropagateMarking(g, true, false);
      PropagateAllGray();
      assert g == RootsAgain(g1);
      ghost var g2 := g;
      g := g.(gray := g.again, again := []);
      AgainMarking(g2);
      PropagateAllGray();
      assert g == AgainDone(g2);
      g := g.(cur := !g.cur, sweepstr := 0, sweepgc := 0, phase := SweepString);
    }

    /** Marks an object unless it is marked already. */
    method MarkObject(x: Ref)
      modifies this
      ensures g == MarkValue(old(g), Ptr(x))
    {
      if IsWhite(g, x) {
        ReallyMarkObject(x);
      }
    }

    lemma AgainMarking(h: Global)
      requires Marking(h, true, false) && h.gray == []
      ensures Tri(h.(gray := h.again, again := []), {}, false, false)
    {
      AgainTri(h);
      Weaken(h.(gray := h.again, again := []), {}, true, true);
    }

    /** Sweeps up to `n` objects of the root list. */
    method SweepList(n: nat)
      requires Sweeping(g)
      modifies this
      ensures g == SweepSome(old(g), n)
    {
      hide Sweeping, SweepOne, SweptTo, Left;
      var count := n;
      while g.sweepgc < |g.rootgc| && count > 0
        invariant Sweeping(g) && SweepSome(g, count) == SweepSome(old(g), n)
        decreases count
      {
        SweepOneOk(g);
        g := SweepOne(g);
        count := count - 1;
      }
    }

    /** One step of whatever the collector is doing. */
    method Singlestep()
      requires Inv(g)
      modifies this
      ensures g == SingleStep(old(g)) && Inv(g)
    {
      hide Inv, Step, Atomic, SweepChain, SweepSome, MarkSlots, MarkValue, Sweeping, Marking, SweptTo, Left;
      SingleStepInv(g);
      match g.phase {
        case Pause =>
          g := g.(gray := [], again := []);
          MarkObject(g.main);
          MarkSeq(Globals(g));
          MarkSeq(g.mt);
          g := g.(phase := Propagate);
        case Propagate =>
          StepReady(g);
          if g.gray != [] {
            PropagateMark();
          } else {
            AtomicEnd();
          }
        case SweepString =>
          ChainInv(g);
          g := SweepChain(g);
        case Sweep =>
          SweepInv(g);
          SweepList(SWEEP_MAX);
          if g.sweepgc >= |g.rootgc| {
            g := CheckSizes(g).(phase := Finalize);
          }
        case Finalize =>
          g := g.(phase := Pause);
      }
    }

    /** A full collection; by `FullGcExact`, exactly the reachable and the fixed objects survive it. */
    method FullCollection()
      requires Inv(g)
      modifies this
      ensures g == FullGc(old(g)) && Inv(g)
    {
      hide Inv, SingleStep, MarkRoot, Todo;
      ResetInv(g);
      if g.phase.Pause? || g.phase.Propagate? {
        g := g.(sweepstr := 0, sweepgc := 0, gray := [], again := [], phase := SweepString);
      }
      while g.phase != Finalize
        invariant Inv(g) && (g.phase.SweepString? || g.phase.Sweep? || g.phase.Finalize?)
        invariant FinishSweep(g) == FinishSweep(Reset(old(g)))
        decreases Rank(g.phase), Todo(g)
      {
        TodoNat(g);
        StepProgress(g);
        SweepOrder(g);
        Singlestep();
      }
      MarkRootInv(g);
      g := MarkRoot(g);
      while g.phase != Pause
        invariant Inv(g) && RunToPause(g) == FullGc(old(g))
        decreases Rank(g.phase), Todo(g)
      {
        TodoNat(g);
        StepProgress(g);
        Singlestep();
      }
    }

    /** Stores a value and runs the write barrier. */
    method SetField(o: Ref, i: nat, v: Value)
      requires Inv(g) && Enabled(g, SetSlot(o, i, v))
      modifies this
      ensures g == Do(old(g), SetSlot(o, i, v)) && Inv(g)
    {
      hide Inv, Mark;
      OpInv(g, SetSlot(o, i, v));
      var was := g.heap[o];
      g := g.(heap := g.heap[o := was.(slots := if i < |was.slots| then was.slots[i := v] else was.slots + [v])]);
      assert g == Write(old(g), o, SetAt(was.slots, i, v));
      if !was.kind.Thread? && was.color.Black? && v.Ptr? && IsWhite(g, v.ref) {
        if was.kind.Table? {
          SetColor(o, Gray);
          g := g.(again := [o] + g.again);
        } else if g.phase.Propagate? {
          ReallyMarkObject(v.ref);
        } else {
          SetColor(o, White(g.cur));
        }
      }
    }
  }
}
