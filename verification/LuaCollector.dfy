/**
 Runs of the engine: collector steps and program operations in any order.  Nothing
 a root reaches is ever freed, and a full collection leaves exactly what is
 reachable or fixed.
 */
module LuaCollector {
  import opened LuaHeap
  import opened LuaMark
  import opened LuaCycle
  import opened LuaSweep
  import opened LuaMutator

  /** One step of the collector, whatever it is doing. */
  function SingleStep(g: Global): Global
    requires Inv(g)
  {
    match g.phase
    case Pause => MarkRoot(g)
    case Propagate =>
      StepReady(g);
      if g.gray != [] then Step(g) else Atomic(g)
    case SweepString => SweepChain(g)
    case Sweep => SweepInv(g); SweepStep(g)
    case Finalize => g.(phase := Pause)
  }

  lemma StepReady(g: Global)
    requires Inv(g) && g.phase.Propagate?
    ensures Marking(g, false, false) && (g.gray != [] ==> Marked(g, g.gray[0]))
  {
    assert g.gray != [] ==> g.gray[0] in g.gray;
    hide Structure, Interned, LiveClosed, NoDead, Whole;
  }

  lemma PropagateStepInv(g: Global)
    requires Inv(g) && g.phase.Propagate? && g.gray != []
    ensures Marked(g, g.gray[0]) && Inv(Step(g)) && Spread(g, Step(g)) && Step(g).phase == Propagate
  {
    StepReady(g);
    StepTri(g, false, false);
    StepSpread(g);
    hide Tri, Structure, Interned, LiveClosed, NoDead, Marked, Step;
    MarkingSpread(g, Step(g), false, false, false, false);
    KeepsSweep(Step(g));
    assert Step(g).phase == g.phase;
  }

  lemma PauseInv(g: Global)
    requires Inv(g) && g.phase.Finalize?
    ensures Inv(g.(phase := Pause))
  {
    var r := g.(phase := Pause);
    StructurePhase(g, r);
    LivePhase(g, r);
    hide Structure, Interned, LiveClosed;
    assert forall x :: x in g.heap ==> IsCurrent(g, x);
  }

  /** Every step of the collector keeps the invariant, and frees only what no root reaches. */
  lemma SingleStepInv(g: Global)
    requires Inv(g)
    ensures Inv(SingleStep(g))
    ensures forall x :: x in g.heap && x !in SingleStep(g).heap ==> !Reachable(g, x) && !g.heap[x].fixed
  {
    hide Inv, Step, Atomic, SweepChain, SweepStep, MarkRoot, Reachable;
    match g.phase {
      case Pause =>
        MarkRootInv(g);
        SameHeap(g, MarkRoot(g));
      case Propagate =>
        StepReady(g);
        if g.gray != [] {
          PropagateStepInv(g);
        } else {
          AtomicInv(g);
          AtomicKeys(g);
        }
      case SweepString =>
        ChainInv(g);
        SweptFrees(g, SweepChain(g));
      case Sweep =>
        SweepInv(g);
        SweptFrees(g, SweepStep(g));
      case Finalize => PauseInv(g);
    }
  }

  lemma SameHeap(g: Global, r: Global)
    requires Grown(g.(gray := [], again := [], phase := Propagate), r)
    ensures r.heap.Keys == g.heap.Keys
  {
  }

  lemma AtomicKeys(g: Global)
    requires Marking(g, false, false)
    ensures Atomic(g).heap.Keys == g.heap.Keys
  {
    var g1 := Remarked(g);
    var g2 := RootsAgain(g1);
    var g3 := AgainDone(g2);
    SpreadTrans(g, g1, g2);
    SpreadTrans(g, g2, g3);
    hide Marking, Remarked, RootsAgain, AgainDone, RootsMarked;
  }

  lemma SweptFrees(g: Global, r: Global)
    requires Inv(g) && SweptTo(g, r)
    ensures forall x :: x in g.heap && x !in r.heap ==> !Reachable(g, x) && !g.heap[x].fixed
  {
    forall x | x in g.heap && x !in r.heap ensures !Reachable(g, x) && !g.heap[x].fixed {
      assert Doomed(g, x);
      DoomedUnreachable(g, x);
    }
  }

  // ---------------------------------------------------------------- runs

  datatype Act = Collect | Run(op: Op)

  ghost predicate Can(g: Global, act: Act)
  {
    act.Run? ==> Enabled(g, act.op)
  }

  ghost function Next(g: Global, act: Act): Global
    requires Inv(g) && Can(g, act)
  {
    match act
    case Collect => SingleStep(g)
    case Run(op) => Do(g, op)
  }

  /** A new engine: the main thread, its globals and the registry. */
  function Initial(): Global
  {
    Global(
      map[0 := Obj(Thread, White(false), true, [Ptr(1)]), 1 := Obj(Table, White(false), false, []), 2 := Obj(Table, White(false), false, [])],
      false, Pause, [], [], [2, 1, 0], 0, MIN_STRINGS, 0, [], 0, 0,
      [Ptr(2), Plain, Plain, Plain, Plain, Plain, Plain, Plain, Plain, Plain])
  }

  lemma InitialInv()
    ensures Inv(Initial())
  {
    var g := Initial();
    InitialStructure();
    assert AllCurrent(g);
    InitialLive();
    hide Structure, LiveClosed, Initial;
    assert g.phase == Pause by { InitialPhase(); }
  }

  lemma InitialPhase()
    ensures Initial().phase == Pause && Interned(Initial())
  {
  }

  lemma InitialStructure()
    ensures Structure(Initial())
  {
    var g := Initial();
    assert forall x :: x in g.heap ==> ObjectOk(g, x);
    assert Distinct([2, 1, 0]);
    assert forall x: Ref :: x in [2, 1, 0] <==> x == 0 || x == 1 || x == 2;
  }

  lemma InitialLive()
    ensures LiveClosed(Initial())
  {
    var g := Initial();
    assert forall x :: x in g.heap ==> Live(g, x);
    assert Slots(g, 0) == [Ptr(1)] && Slots(g, 1) == [] && Slots(g, 2) == [];
    assert forall x :: x in g.heap ==> x == 0 || x == 1 || x == 2;
    assert forall x, y :: Refers(g, x, y) ==> y == 1;
    assert forall x :: IsRoot(g, x) ==> x == 0 || x == 2;
    hide Live, Refers, IsRoot;
  }

  /**
   The states of a run.  An act is possible only if the program can reach its operands; what a
   state follows by is said for states that satisfy the invariant, which all turn out to do.
   */
  ghost predicate IsRun(run: seq<Global>, acts: seq<Act>)
  {
    && |run| == |acts| + 1 && run[0] == Initial()
    && forall i :: 0 <= i < |acts| ==> Follows(run[i], acts[i], run[i + 1])
  }

  ghost predicate Follows(g: Global, act: Act, r: Global)
  {
    Can(g, act) && (Inv(g) ==> r == Next(g, act))
  }

  lemma NextInv(g: Global, act: Act)
    requires Inv(g) && Can(g, act)
    ensures Inv(Next(g, act))
  {
    hide Inv, SingleStep, Do, Enabled;
    match act
    case Collect => SingleStepInv(g);
    case Run(op) => OpInv(g, op);
  }

  lemma {:induction false} RunInv(run: seq<Global>, acts: seq<Act>, i: nat)
    requires IsRun(run, acts) && i < |run|
    ensures Inv(run[i])
  {
    if i == 0 {
      InitialInv();
    } else {
      RunInv(run, acts, i - 1);
      hide Inv, Can, Next;
      assert Follows(run[i - 1], acts[i - 1], run[i]);
      NextInv(run[i - 1], acts[i - 1]);
    }
  }

  /** What an operation frees itself is an upvalue no root reaches. */
  lemma OpFrees(g: Global, op: Op, x: Ref)
    requires Inv(g) && Enabled(g, op) && x in g.heap && x !in Do(g, op).heap
    ensures !Reachable(g, x)
  {
    OpKeys(g, op);
    hide Inv, Do, Enabled, Reachable;
    if op.CloseUpval? {
      DoCloseUpval(g, op.u);
      DropInv(g, op.u);
    }
  }

  lemma OpKeys(g: Global, op: Op)
    requires Inv(g) && Enabled(g, op)
    ensures forall x :: x in g.heap && x !in Do(g, op).heap ==> op.CloseUpval? && x == op.u && Dead(g, x)
  {
    match op
    case New(x, kind, slots, k) =>
      DoNew(g, x, kind, slots, k);
      hide *;
      AddKeys(g, x, kind, slots);
      PushKeys(Add(g, x, kind, slots), k, x);
    case NewUpval(x, v, c, i) =>
      DoNewUpval(g, x, v, c, i);
      hide *;
      AddKeys(g, x, Closed, [v]);
      FillKeys(Add(g, x, Closed, [v]), c, i, x);
    case FindUpval(x, t, level, c, i) => FindKeys(g, x, t, level, c, i);
    case Intern(x, text, k) => InternKeys(g, x, text, k);
    case _ => OtherKeys(g, op);
  }

  lemma AddKeys(g: Global, x: Ref, kind: Kind, slots: seq<Value>)
    ensures g.heap.Keys <= Add(g, x, kind, slots).heap.Keys
  {
    AddIs(g, x, kind, slots);
  }

  lemma FindKeys(g: Global, x: Ref, t: Ref, level: nat, c: Ref, i: nat)
    requires Inv(g) && Enabled(g, FindUpval(x, t, level, c, i))
    ensures g.heap.Keys <= Do(g, FindUpval(x, t, level, c, i)).heap.Keys
  {
    if exists u :: IsUpvalOf(g, u, t, level) {
      var u := FoundUpval(g, x, t, level, c, i);
      FillKeys(Revive(g, u), c, i, u);
      hide Inv, Enabled, Fill, Do;
    } else {
      assert Do(g, FindUpval(x, t, level, c, i)) == Fill(Add(g, x, Open(t, level), []), c, i, x);
      hide *;
      AddKeys(g, x, Open(t, level), []);
      FillKeys(Add(g, x, Open(t, level), []), c, i, x);
    }
  }

  lemma InternKeys(g: Global, x: Ref, text: string, k: nat)
    requires Inv(g) && Enabled(g, Intern(x, text, k))
    ensures g.heap.Keys <= Do(g, Intern(x, text, k)).heap.Keys
  {
    if y :| IsString(g, y, text) {
      OneString(g, x, text, k, y);
      PushKeys(Revive(g, y), k, y);
      hide Inv, Enabled, Push, Do;
    } else {
      assert Do(g, Intern(x, text, k)) == Push(Add(g, x, Str(text), []), k, x);
      hide *;
      AddKeys(g, x, Str(text), []);
      PushKeys(Add(g, x, Str(text), []), k, x);
    }
  }

  lemma OtherKeys(g: Global, op: Op)
    requires Inv(g) && Enabled(g, op) && !op.New? && !op.NewUpval? && !op.FindUpval? && !op.Intern?
    ensures forall x :: x in g.heap && x !in Do(g, op).heap ==> op.CloseUpval? && x == op.u && Dead(g, x)
  {
    hide Inv, Store, CloseOne, Slots;
    match op
    case SetSlot(o, i, v) => StoreKeys(g, o, i, v);
    case SetUpval(u, v) =>
      if g.heap[u].kind.Closed? && 0 <= |g.heap[u].slots| {
        StoreKeys(g, u, 0, v);
      }
    case CloseUpval(u) => CloseKeys(g, u);
    case _ =>
  }

  lemma PushKeys(g: Global, k: nat, x: Ref)
    ensures Push(g, k, x).heap.Keys == g.heap.Keys
  {
  }

  lemma FillKeys(g: Global, c: Ref, i: nat, x: Ref)
    ensures Fill(g, c, i, x).heap.Keys == g.heap.Keys
  {
  }

  lemma StoreKeys(g: Global, o: Ref, i: nat, v: Value)
    requires o in g.heap && i <= |g.heap[o].slots|
    ensures Store(g, o, i, v).heap.Keys == g.heap.Keys
  {
    hide Mark;
  }

  lemma CloseKeys(g: Global, u: Ref)
    requires u in g.heap && g.heap[u].kind.Open?
    ensures forall x :: x in g.heap && x !in CloseOne(g, u).heap ==> x == u && Dead(g, u)
  {
    hide Mark, Slots;
  }

  /**
   Safety: in every state of every run, whatever a root reaches is there and is not white of the
   previous cycle; and no step frees what a root reaches.
   */
  lemma Safe(run: seq<Global>, acts: seq<Act>, i: nat, x: Ref)
    requires IsRun(run, acts) && i < |run|
    ensures Reachable(run[i], x) ==> x in run[i].heap && !Dead(run[i], x)
    ensures i + 1 < |run| && Reachable(run[i], x) ==> x in run[i + 1].heap
  {
    RunInv(run, acts, i);
    if Reachable(run[i], x) {
      ReachLive(run[i], x);
      if i + 1 < |run| {
        assert Follows(run[i], acts[i], run[i + 1]);
        hide Reachable, Inv, SingleStep, Do;
        if acts[i].Collect? {
          SingleStepInv(run[i]);
        } else if x !in run[i + 1].heap {
          OpFrees(run[i], acts[i].op, x);
        }
      }
    }
  }

  /** Every run can go on with an allocation, and the new object is then reachable: what is said of it is not empty. */
  lemma Allocates(run: seq<Global>, acts: seq<Act>, x: Ref, kind: Kind, k: nat)
    requires IsRun(run, acts) && x !in run[|acts|].heap && StackSlot(run[|acts|], k) && OnRootList(kind) && !kind.Closed?
    ensures var g, op := run[|acts|], New(x, kind, [], k);
            Inv(g) && Enabled(g, op) && IsRun(run + [Do(g, op)], acts + [Run(op)]) && Reachable(Do(g, op), x)
  {
    var g, op := run[|acts|], New(x, kind, [], k);
    RunInv(run, acts, |acts|);
    assert Enabled(g, op);
    GoesOn(run, acts, Run(op));
    hide *;
    NewHeld(g, x, kind, [], k);
  }

  /** The same for a string that is looked up, found dead or not, or made. */
  lemma LooksUp(run: seq<Global>, acts: seq<Act>, x: Ref, text: string, k: nat)
    requires IsRun(run, acts) && x !in run[|acts|].heap && StackSlot(run[|acts|], k)
    ensures var g, op := run[|acts|], Intern(x, text, k);
            && Inv(g) && Enabled(g, op) && IsRun(run + [Do(g, op)], acts + [Run(op)])
            && (exists y :: IsString(Do(g, op), y, text) && Reachable(Do(g, op), y))
            && (forall y :: IsString(g, y, text) ==> Reachable(Do(g, op), y))
  {
    var g, op := run[|acts|], Intern(x, text, k);
    RunInv(run, acts, |acts|);
    assert Enabled(g, op);
    GoesOn(run, acts, Run(op));
    hide *;
    InternHeld(g, x, text, k);
  }

  /** The same for a store of a value in hand into whatever a root reaches and that can be written, and what is there afterwards. */
  lemma Stores(run: seq<Global>, acts: seq<Act>, o: Ref, i: nat, v: Value)
    requires IsRun(run, acts) && Reachable(run[|acts|], o) && (v.Ptr? ==> Reachable(run[|acts|], v.ref))
    ensures var g, op := run[|acts|], SetSlot(o, i, v);
            && o in g.heap
            && (i <= |g.heap[o].slots| && !g.heap[o].kind.Str? && !g.heap[o].kind.Open? && !g.heap[o].kind.Closed? ==>
                  Inv(g) && Enabled(g, op) && IsRun(run + [Do(g, op)], acts + [Run(op)]) && Puts(g, Do(g, op), o, i, v, {}))
  {
    var g, op := run[|acts|], SetSlot(o, i, v);
    RunInv(run, acts, |acts|);
    ReachLive(g, o);
    if i <= |g.heap[o].slots| && !g.heap[o].kind.Str? && !g.heap[o].kind.Open? && !g.heap[o].kind.Closed? {
      assert Enabled(g, op);
      GoesOn(run, acts, Run(op));
      hide *;
      SetSlotMeans(g, o, i, v);
    }
  }

  /** The same for an assignment to an upvalue. */
  lemma Assigns(run: seq<Global>, acts: seq<Act>, u: Ref, v: Value)
    requires IsRun(run, acts) && Reachable(run[|acts|], u) && (v.Ptr? ==> Reachable(run[|acts|], v.ref))
    ensures var g, op := run[|acts|], SetUpval(u, v);
            && u in g.heap
            && (g.heap[u].kind.Open? || g.heap[u].kind.Closed? ==>
                  Inv(g) && Enabled(g, op) && IsRun(run + [Do(g, op)], acts + [Run(op)]) && Slots(Do(g, op), u) == [v])
  {
    var g, op := run[|acts|], SetUpval(u, v);
    RunInv(run, acts, |acts|);
    ReachLive(g, u);
    if g.heap[u].kind.Open? || g.heap[u].kind.Closed? {
      assert Enabled(g, op);
      GoesOn(run, acts, Run(op));
      hide *;
      SetUpvalMeans(g, u, v);
    }
  }

  lemma GoesOn(run: seq<Global>, acts: seq<Act>, act: Act)
    requires IsRun(run, acts) && Inv(run[|acts|]) && Can(run[|acts|], act)
    ensures IsRun(run + [Next(run[|acts|], act)], acts + [act])
    ensures act.Run? ==> Structure(run[|acts|]) && Next(run[|acts|], act) == Do(run[|acts|], act.op)
  {
    hide Inv, Can, Next, Follows, Initial;
    NextFollows(run[|acts|], act);
    var r, a := run + [Next(run[|acts|], act)], acts + [act];
    forall i | 0 <= i < |a| ensures Follows(r[i], a[i], r[i + 1]) {
      if i < |acts| {
        assert r[i] == run[i] && r[i + 1] == run[i + 1] && a[i] == acts[i];
      }
    }
  }

  lemma NextFollows(g: Global, act: Act)
    requires Inv(g) && Can(g, act)
    ensures Follows(g, act, Next(g, act))
    ensures act.Run? ==> Structure(g) && Next(g, act) == Do(g, act.op)
  {
    hide SingleStep, Do, Enabled;
  }
}
