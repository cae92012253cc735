/**
 A full collection, started in any state of the collector: it ends, and what is
 left are exactly the objects that are reachable or fixed.
 */
module LuaFullGc {
  import opened LuaHeap
  import opened LuaMark
  import opened LuaCycle
  import opened LuaSweep
  import opened LuaCollector

  // ---------------------------------------------------------------- progress

  function Rank(p: Phase): nat
  {
    match p case Propagate => 4 case SweepString => 3 case Sweep => 2 case Finalize => 1 case Pause => 0
  }

  /** What is left to do in the current phase. */
  function Todo(g: Global): int
  {
    match g.phase
    case Propagate => Load(g)
    case SweepString => g.strsize - g.sweepstr
    case Sweep => Left(g)
    case _ => 0
  }

  lemma {:induction false} DistinctFit(s: seq<Ref>, k: set<Ref>)
    requires Distinct(s) && forall x :: x in s ==> x in k
    ensures |s| <= |k|
    decreases |s|
  {
    if s != [] {
      var x := s[0];
      assert s == [x] + s[1..];
      forall y | y in s[1..] ensures y in k - {x} {
        var j :| 0 <= j < |s[1..]| && s[1..][j] == y;
        assert s[j + 1] == y;
      }
      assert Distinct(s[1..]);
      DistinctFit(s[1..], k - {x});
    }
  }

  lemma TodoNat(g: Global)
    requires Inv(g)
    ensures Todo(g) >= 0
  {
    if g.phase.Sweep? {
      DistinctFit(g.rootgc, g.heap.Keys);
      assert |g.heap| == |g.heap.Keys|;
    }
    hide Interned, LiveClosed, Load;
  }

  /** Every step but the one that starts a collection brings its end closer. */
  lemma StepProgress(g: Global)
    requires Inv(g) && !g.phase.Pause?
    ensures Inv(SingleStep(g)) && Todo(SingleStep(g)) >= 0
    ensures var r := SingleStep(g); Rank(r.phase) < Rank(g.phase) || (r.phase == g.phase && Todo(r) < Todo(g))
  {
    hide Inv, Step, Atomic, SweepChain, SweepStep, MarkRoot, Load, Left;
    SingleStepInv(g);
    TodoNat(SingleStep(g));
    match g.phase {
      case Propagate =>
        StepReady(g);
        if g.gray != [] {
          PropagateStepInv(g);
          StepLoad(g);
        } else {
          AtomicInv(g);
        }
      case SweepString => ChainProgress(g);
      case Sweep => SweepInv(g);
      case Finalize =>
    }
  }

  lemma ChainProgress(g: Global)
    requires Inv(g) && g.phase.SweepString?
    ensures g.sweepstr < g.strsize
    ensures var r := SweepChain(g); r.phase == Sweep || (r.phase == SweepString && r.strsize - r.sweepstr < g.strsize - g.sweepstr)
  {
    ChainInv(g);
  }

  /** Steps until the pending sweep is over. */
  function FinishSweep(g: Global): (r: Global)
    requires Inv(g) && (g.phase.SweepString? || g.phase.Sweep? || g.phase.Finalize?)
    ensures Inv(r) && r.phase == Finalize
    decreases Rank(g.phase), Todo(g)
  {
    if g.phase.Finalize? then g
    else
      TodoNat(g);
      StepProgress(g);
      SweepOrder(g);
      FinishSweep(SingleStep(g))
  }

  lemma SweepOrder(g: Global)
    requires Inv(g) && (g.phase.SweepString? || g.phase.Sweep?)
    ensures var p := SingleStep(g).phase; p.SweepString? || p.Sweep? || p.Finalize?
  {
    hide Inv, SweepChain, SweepStep;
    if g.phase.Sweep? {
      SweepInv(g);
    } else {
      ChainProgress(g);
    }
  }

  /** Steps until the collector pauses. */
  function RunToPause(g: Global): (r: Global)
    requires Inv(g)
    ensures Inv(r) && r.phase == Pause
    decreases Rank(g.phase), Todo(g)
  {
    if g.phase.Pause? then g
    else
      TodoNat(g);
      StepProgress(g);
      RunToPause(SingleStep(g))
  }

  /** A collection that is only marking is given up: everything will be swept back to white. */
  function Reset(g: Global): Global
  {
    if g.phase.Pause? || g.phase.Propagate? then
      g.(sweepstr := 0, sweepgc := 0, gray := [], again := [], phase := SweepString)
    else g
  }

  function FullGc(g: Global): (r: Global)
    requires Inv(g)
    ensures Inv(r) && r.phase == Pause
  {
    ResetInv(g);
    var h := FinishSweep(Reset(g));
    MarkRootInv(h);
    RunToPause(MarkRoot(h))
  }

  lemma ResetInv(g: Global)
    requires Inv(g)
    ensures Inv(Reset(g))
    ensures Reset(g).phase.SweepString? || Reset(g).phase.Sweep? || Reset(g).phase.Finalize?
  {
    if g.phase.Pause? || g.phase.Propagate? {
      var r := Reset(g);
      StructurePhase(g, r);
      LivePhase(g, r);
      forall x | x in r.heap && r.heap[x].kind.Open? ensures !r.heap[x].color.Black? {
        if g.phase.Propagate? {
          assert Done(g, x, false, false);
        } else {
          assert IsCurrent(g, x);
        }
      }
      hide Structure, Interned, LiveClosed, Chain, Tri;
      assert 0 < r.strsize by { KeepsSweep(r); }
    }
  }

  // ---------------------------------------------------------------- exactness

  /** The same objects, holding the same; the same roots. */
  ghost predicate SameObjects(g: Global, r: Global)
  {
    && r.heap.Keys == g.heap.Keys && r.main == g.main && r.running == g.running && r.mt == g.mt
    && forall x :: x in g.heap ==> Slots(r, x) == Slots(g, x) && r.heap[x].fixed == g.heap[x].fixed
  }

  lemma SameTrans(g: Global, h: Global, r: Global)
    requires SameObjects(g, h) && SameObjects(h, r)
    ensures SameObjects(g, r)
  {
    hide Slots;
  }

  lemma SameObjectsReach(g: Global, r: Global, x: Ref)
    requires SameObjects(g, r)
    ensures Reachable(g, x) <==> Reachable(r, x)
  {
    forall y, z ensures Refers(g, y, z) <==> Refers(r, y, z) {
      assert y !in g.heap ==> Slots(g, y) == [] && Slots(r, y) == [];
      hide Slots;
    }
    hide Slots, Reachable;
    SameReach(g, r, x);
  }

  lemma SpreadSame(g: Global, r: Global)
    requires Spread(g, r)
    ensures SameObjects(g, r)
  {
    forall x | x in g.heap ensures Slots(r, x) == Slots(g, x) && r.heap[x].fixed == g.heap[x].fixed {
      SpreadSlots(g, r, x);
      assert NoWhiter(g.heap[x], r.heap[x]);
    }
    hide Slots;
  }

  lemma PhaseSame(g: Global, r: Global)
    requires r == g.(cur := r.cur, gray := r.gray, again := r.again, phase := r.phase, sweepstr := r.sweepstr, sweepgc := r.sweepgc)
    ensures SameObjects(g, r)
  {
    assert forall x :: Slots(r, x) == Slots(g, x);
    hide Slots;
  }

  /** What is left after a sweep: all that was not found dead, and what is fixed. */
  lemma {:induction false} SweepEnds(g: Global)
    requires Inv(g) && !g.phase.Propagate?
    ensures SweptTo(g, RunToPause(g)) && AllCurrent(RunToPause(g))
    decreases Rank(g.phase), Todo(g)
  {
    hide Inv, SweepChain, SweepStep, MarkRoot, SweptTo, AllCurrent, Todo, Rank;
    if g.phase.Pause? {
      SweptSelf(g);
      PauseCurrent(g);
    } else {
      TodoNat(g);
      StepProgress(g);
      SweepStepTo(g);
      SweepEnds(SingleStep(g));
      SweptTrans(g, SingleStep(g), RunToPause(g));
    }
  }

  lemma PauseCurrent(g: Global)
    requires Inv(g) && (g.phase.Pause? || g.phase.Finalize?)
    ensures AllCurrent(g)
  {
  }

  lemma SweepStepTo(g: Global)
    requires Inv(g) && (g.phase.SweepString? || g.phase.Sweep? || g.phase.Finalize?)
    ensures SweptTo(g, SingleStep(g)) && !SingleStep(g).phase.Propagate?
  {
    hide Inv, SweepChain, SweepStep, SweptTo;
    match g.phase {
      case SweepString => ChainInv(g); ChainProgress(g);
      case Sweep => SweepInv(g);
      case Finalize => PausedTo(g);
      case _ =>
    }
  }

  lemma PausedTo(g: Global)
    ensures SweptTo(g, g.(phase := Pause))
  {
  }

  lemma {:induction false} FinishSwept(g: Global)
    requires Inv(g) && (g.phase.SweepString? || g.phase.Sweep? || g.phase.Finalize?)
    ensures SweptTo(g, FinishSweep(g))
    decreases Rank(g.phase), Todo(g)
  {
    hide Inv, SweepChain, SweepStep, SweptTo, Todo, Rank;
    if g.phase.Finalize? {
      SweptSelf(g);
    } else {
      TodoNat(g);
      StepProgress(g);
      SweepOrder(g);
      SweepStepTo(g);
      FinishSwept(SingleStep(g));
      SweptTrans(g, SingleStep(g), FinishSweep(g));
    }
  }

  /** Marking without interruption marks within any closed set that holds the roots and what is marked already. */
  lemma {:induction false} MarkEnds(g: Global, s: iset<Ref>) returns (f: Global)
    requires Inv(g) && g.phase.Propagate? && MarkedWithin(g, s) && RefersWithin(g, s) && RootsWithin(g, s)
    ensures Inv(f) && f.phase.SweepString? && RunToPause(f) == RunToPause(g)
    ensures SameObjects(g, f) && forall x :: Live(f, x) ==> x in s
    decreases Load(g)
  {
    hide Inv, Step, Atomic, Load, MarkedWithin, RefersWithin, RootsWithin, SameObjects, Live, Spread;
    TodoNat(g);
    StepProgress(g);
    StepReady(g);
    if g.gray != [] {
      var h := Step(g);
      PropagateStepInv(g);
      NoOpenListed(g);
      StepWithin(g, s);
      SpreadRefers(g, h, s);
      SpreadSame(g, h);
      RootsSame(g, h, s);
      StepLoad(g);
      f := MarkEnds(h, s);
      SameTrans(g, h, f);
    } else {
      f := Atomic(g);
      AtomicInv(g);
      AtomicEnds(g, s);
    }
  }

  lemma NoOpenListed(g: Global)
    requires Marking(g, false, false) && g.gray != []
    ensures g.gray[0] in g.heap && !g.heap[g.gray[0]].kind.Open?
  {
    assert g.gray[0] in g.gray;
    hide Structure, Interned, LiveClosed, NoDead, Whole;
  }

  lemma RootsSame(g: Global, h: Global, s: iset<Ref>)
    requires SameObjects(g, h) && RootsWithin(g, s)
    ensures RootsWithin(h, s)
  {
    assert forall x :: IsRoot(h, x) ==> IsRoot(g, x);
  }

  lemma AtomicEnds(g: Global, s: iset<Ref>)
    requires Marking(g, false, false) && MarkedWithin(g, s) && RefersWithin(g, s) && RootsWithin(g, s)
    ensures SameObjects(g, Atomic(g)) && forall x :: Live(Atomic(g), x) ==> x in s
  {
    var g1 := Remarked(g);
    var g2 := RootsAgain(g1);
    var h := AgainDone(g2);
    SpreadTrans(g, g1, g2);
    SpreadTrans(g, g2, h);
    AtomicWithin(g, s);
    hide Remarked, RootsAgain, AgainDone, RootsMarked, Tri, Structure, LiveClosed, Interned, Spread, RefersWithin;
    FlipLive(h, Atomic(g));
    SpreadSame(g, h);
    PhaseSame(h, Atomic(g));
    SameTrans(g, h, Atomic(g));
  }

  /**
   A full collection, started in any state: afterwards exactly the reachable and the fixed objects are
   there, all white, holding what they held, and the same objects are reachable.
   */
  lemma FullGcExact(g: Global)
    requires Inv(g)
    ensures var r := FullGc(g);
            && (forall x :: x in r.heap <==> x in g.heap && (Reachable(g, x) || g.heap[x].fixed))
            && (forall x :: x in r.heap ==> Slots(r, x) == Slots(g, x))
            && (forall x :: Reachable(r, x) <==> Reachable(g, x))
            && AllCurrent(r)
  {
    hide *;
    var g0 := Reset(g);
    ResetInv(g);
    ResetSame(g);
    var h := FinishSweep(g0);
    FinishSwept(g0);
    MarkRootInv(h);
    var s := iset x | Reachable(h, x);
    var m := MarkRoot(h);
    StartWithin(h, s);
    var f := MarkEnds(m, s);
    SweepEnds(f);
    FullGcIs(g);
    var r := RunToPause(m);
    InvParts2(g0);
    InvParts2(f);
    SameTrans(h, m, f);
    forall x ensures (Reachable(g, x) <==> Reachable(g0, x)) && (Reachable(g, x) <==> Reachable(h, x)) && (Reachable(h, x) <==> Reachable(f, x)) && (Reachable(f, x) <==> Reachable(r, x)) {
      SameObjectsReach(g, g0, x);
      SweptReach(g0, h, x);
      SameObjectsReach(h, f, x);
      SweptReach(f, r, x);
    }
    forall x ensures Live(f, x) ==> Reachable(h, x) {
      assert Live(f, x) ==> x in s;
    }
    forall x ensures (x in r.heap <==> x in g.heap && (Reachable(g, x) || g.heap[x].fixed)) && (x in r.heap ==> Slots(r, x) == Slots(g, x)) {
      Survives(g, g0, h, f, r, x);
    }
  }

  /** Who survives, stage by stage: reset, pending sweep, marking, sweep. */
  lemma Survives(g: Global, g0: Global, h: Global, f: Global, r: Global, x: Ref)
    requires SameObjects(g, g0) && SweptTo(g0, h) && SameObjects(h, f) && SweptTo(f, r)
    requires LiveClosed(g0) && LiveClosed(f) && AllCurrent(r) && (Live(f, x) ==> Reachable(h, x))
    requires (Reachable(g, x) <==> Reachable(g0, x)) && (Reachable(g, x) <==> Reachable(h, x)) && (Reachable(h, x) <==> Reachable(f, x))
    ensures x in r.heap <==> x in g.heap && (Reachable(g, x) || g.heap[x].fixed)
    ensures x in r.heap ==> Slots(r, x) == Slots(g, x)
  {
    hide Reachable, Slots, LiveClosed;
    if x in r.heap {
      assert IsCurrent(r, x);
      assert Kept(g0, h, x) && Kept(f, r, x);
    }
    if x in g.heap && x !in h.heap {
      assert Doomed(g0, x);
      DoomedUnreachable(g0, x);
    }
    if x in f.heap && x !in r.heap {
      assert Doomed(f, x);
      DoomedUnreachable(f, x);
    }
  }

  lemma InvParts2(g: Global)
    requires Inv(g)
    ensures LiveClosed(g)
  {
  }

  lemma FullGcIs(g: Global)
    requires Inv(g) && Inv(Reset(g)) && (Reset(g).phase.SweepString? || Reset(g).phase.Sweep? || Reset(g).phase.Finalize?)
    requires Inv(MarkRoot(FinishSweep(Reset(g))))
    ensures FullGc(g) == RunToPause(MarkRoot(FinishSweep(Reset(g))))
  {
    hide Inv, Reset, FinishSweep, MarkRoot, RunToPause;
  }

  lemma ResetSame(g: Global)
    ensures SameObjects(g, Reset(g))
  {
    PhaseSame(g, Reset(g));
  }

  /** When everything is white, marking the roots marks only what is reachable. */
  lemma StartWithin(h: Global, s: iset<Ref>)
    requires Inv(h) && h.phase.Finalize? && s == (iset x | Reachable(h, x))
    ensures var m := MarkRoot(h);
            MarkedWithin(m, s) && RefersWithin(m, s) && RootsWithin(m, s) && SameObjects(h, m)
  {
    var h0 := h.(gray := [], again := []);
    var m := MarkRoot(h);
    MarkRootInv(h);
    PauseCurrent(h);
    forall x | IsRoot(h, x) ensures x in s {
      ReachRoot(h, x);
    }
    forall x, y | x in s && Refers(h, x, y) ensures y in s {
      ReachStep(h, x, y);
    }
    PhaseSame(h, h0);
    PhaseSame(h, h0.(phase := Propagate));
    GrownSpread(h0.(phase := Propagate), m);
    SpreadSame(h0.(phase := Propagate), m);
    SameTrans(h, h0.(phase := Propagate), m);
    hide Reachable, Slots;
    WithinSame(h, h0, s);
    WithinSame(h, m, s);
    NothingMarked(h, h0);
    RootMarking(h0, s);
    hide MarkedWithin, RefersWithin;
    MarkRootIs(h, h0, s);
  }

  lemma NothingMarked(h: Global, h0: Global)
    requires AllCurrent(h) && h0.heap == h.heap
    ensures forall x :: !Marked(h0, x)
  {
    forall x ensures !Marked(h0, x) {
      if x in h.heap {
        assert IsCurrent(h, x);
      }
    }
  }

  lemma WithinSame(g: Global, r: Global, s: iset<Ref>)
    requires SameObjects(g, r) && RefersWithin(g, s) && RootsWithin(g, s)
    ensures RefersWithin(r, s) && RootsWithin(r, s)
  {
    forall x, y | x in s && Refers(r, x, y) ensures y in s {
      assert x in g.heap by { assert x !in r.heap ==> Slots(r, x) == []; }
      assert Refers(g, x, y);
      hide Slots;
    }
    assert forall x :: IsRoot(r, x) ==> IsRoot(g, x);
  }

  ghost function RootMarks3(h0: Global): Global
  {
    var g1 := MarkValue(h0, Ptr(h0.main));
    var g2 := MarkSlots(g1, Globals(g1));
    MarkSlots(g2, h0.mt)
  }

  lemma MarkRootIs(h: Global, h0: Global, s: iset<Ref>)
    requires h0 == h.(gray := [], again := []) && MarkedWithin(RootMarks3(h0), s)
    ensures MarkedWithin(MarkRoot(h), s)
  {
    assert MarkRoot(h) == RootMarks3(h0).(phase := Propagate);
    forall x | Marked(MarkRoot(h), x) ensures x in s {
      assert Marked(RootMarks3(h0), x);
    }
    hide RootMarks3, MarkRoot;
  }

  lemma RootMarking(h0: Global, s: iset<Ref>)
    requires MarkedWithin(h0, s) && RefersWithin(h0, s) && RootsWithin(h0, s) && h0.main in h0.heap && h0.heap[h0.main].kind.Thread?
    ensures MarkedWithin(RootMarks3(h0), s)
  {
    var g1 := MarkValue(h0, Ptr(h0.main));
    var g2 := MarkSlots(g1, Globals(g1));
    assert IsRoot(h0, h0.main);
    if IsWhite(h0, h0.main) {
      MarkWithin(h0, h0.main, s);
    }
    GrownSpread(h0, g1);
    SpreadRefers(h0, g1, s);
    assert SameBut(h0.heap[h0.main], g1.heap[h0.main]);
    GlobalsWithin(g1, s);
    MarkSlotsWithin(g1, Globals(g1), s);
    GrownSpread(g1, g2);
    SpreadRefers(g1, g2, s);
    MtWithin(h0, h0.mt, s);
    MarkSlotsWithin(g2, h0.mt, s);
  }

  lemma GlobalsWithin(g: Global, s: iset<Ref>)
    requires RefersWithin(g, s) && g.main in s && (g.main in g.heap ==> g.heap[g.main].kind.Thread?)
    ensures SeqWithin(Globals(g), s)
  {
    if g.main in g.heap && g.heap[g.main].slots != [] && g.heap[g.main].slots[0].Ptr? {
      SlotsWithin(g, g.main, s);
    }
  }
}
