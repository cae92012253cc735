/**
 The mark phase of a collection: from all white, over the roots and the gray
 lists, to the atomic end at which the two whites change roles.
 */
module LuaCycle {
  import opened LuaHeap
  import opened LuaMark

  // ---------------------------------------------------------------- the invariant of the collector

  /** Nothing is white of the previous cycle. */
  ghost predicate NoDead(g: Global)
  {
    forall x :: x in g.heap ==> Live(g, x)
  }

  predicate IsCurrent(g: Global, x: Ref)
  {
    x in g.heap && g.heap[x].color == White(g.cur)
  }

  ghost predicate AllCurrent(g: Global)
  {
    forall x :: x in g.heap ==> IsCurrent(g, x)
  }

  /** The sweeper has passed the first `n` string chains. */
  ghost predicate StringsSwept(g: Global, n: nat)
    requires 0 < g.strsize
  {
    forall x :: x in g.heap && g.heap[x].kind.Str? && Chain(g, g.heap[x].kind.text) < n ==> IsCurrent(g, x)
  }

  /** The object on the root list with which `x` is swept: itself, or the thread of an open upvalue. */
  function Home(o: Obj, x: Ref): Ref
  {
    if o.kind.Open? then o.kind.owner else x
  }

  /** The sweeper has passed the first `n` objects of the root list. */
  ghost predicate ListSwept(g: Global, n: nat)
    requires n <= |g.rootgc|
  {
    forall x :: x in g.heap && !g.heap[x].kind.Str? && Home(g.heap[x], x) in g.rootgc[..n] ==> IsCurrent(g, x)
  }

  /** Open upvalues are never black. */
  ghost predicate NoBlackOpen(g: Global)
  {
    forall x :: x in g.heap && g.heap[x].kind.Open? ==> !g.heap[x].color.Black?
  }

  ghost predicate PhaseOk(g: Global)
    requires 0 < g.strsize && g.sweepgc <= |g.rootgc|
  {
    match g.phase
    case Pause => AllCurrent(g)
    case Propagate => NoDead(g) && Tri(g, {}, false, false) && Marked(g, g.main) && (|g.mt| > 0 ==> ValueMarked(g, g.mt[0]))
    case SweepString => g.sweepgc == 0 && g.sweepstr < g.strsize && StringsSwept(g, g.sweepstr) && NoBlackOpen(g)
    case Sweep => StringsSwept(g, g.strsize) && ListSwept(g, g.sweepgc) && NoBlackOpen(g)
    case Finalize => AllCurrent(g)
  }

  /** What holds in every state the engine reaches. */
  ghost predicate Inv(g: Global)
  {
    Structure(g) && Interned(g) && LiveClosed(g) && PhaseOk(g)
  }

  // ---------------------------------------------------------------- roots

  /** The global table, which is the first thing a thread holds. */
  function Globals(g: Global): seq<Value>
  {
    if g.main in g.heap && g.heap[g.main].slots != [] then g.heap[g.main].slots[..1] else []
  }

  /** Starts a collection: marks the main thread, the globals, the registry and the basic metatables. */
  function MarkRoot(g: Global): Global
  {
    var g1 := MarkValue(g.(gray := [], again := []), Ptr(g.main));
    var g2 := MarkSlots(g1, Globals(g1));
    MarkSlots(g2, g.mt).(phase := Propagate)
  }

  lemma FreshTri(g: Global)
    requires AllCurrent(g) && Whole(g)
    ensures Tri(g.(gray := [], again := []), {}, false, false)
  {
    var h := g.(gray := [], again := []);
    GrownSame2(g, h);
    forall x | x in h.heap ensures Done(h, x, false, false) {
      assert IsCurrent(g, x);
    }
  }

  lemma GrownSame2(g: Global, h: Global)
    requires h == g.(gray := h.gray, again := h.again, phase := h.phase) && Whole(g)
    ensures Whole(h)
  {
    forall x ensures Slots(h, x) == Slots(g, x) {
    }
    hide Slots;
  }

  lemma LiveWhole(g: Global)
    requires LiveClosed(g) && NoDead(g)
    ensures Whole(g)
  {
    forall x, i | x in g.heap && 0 <= i < |Slots(g, x)| ensures Slots(g, x)[i].Ptr? ==> Slots(g, x)[i].ref in g.heap {
      if Slots(g, x)[i].Ptr? {
        assert Refers(g, x, Slots(g, x)[i].ref);
        assert Live(g, x);
      }
      hide Slots;
    }
  }

  /** What does not depend on colours and gray lists. */
  lemma SpreadStructure(g: Global, r: Global)
    requires Spread(g, r) && Structure(g) && Interned(g)
    ensures Structure(r) && Interned(r)
  {
    forall x | x in r.heap ensures ObjectOk(r, x) {
      assert NoWhiter(g.heap[x], r.heap[x]) && ObjectOk(g, x);
      if g.heap[x].kind.Open? {
        assert NoWhiter(g.heap[g.heap[x].kind.owner], r.heap[g.heap[x].kind.owner]);
      }
    }
    assert forall x :: x in g.heap ==> NoWhiter(g.heap[x], r.heap[x]);
    hide ObjectOk;
  }

  /** Where nothing is dead, marking creates nothing dead. */
  lemma SpreadLive(g: Global, r: Global)
    requires Spread(g, r) && LiveClosed(g) && NoDead(g)
    ensures LiveClosed(r) && NoDead(r)
  {
    forall x | x in r.heap ensures Live(r, x) {
      assert NoWhiter(g.heap[x], r.heap[x]) && Live(g, x);
    }
    forall x, y | Live(r, x) && Refers(r, x, y) ensures Live(r, y) {
      SpreadSlots(g, r, x);
      assert Live(g, x) && Refers(g, x, y);
      hide Slots;
    }
    assert forall x :: IsRoot(r, x) ==> IsRoot(g, x);
  }

  lemma CurrentLive(g: Global)
    requires AllCurrent(g)
    ensures NoDead(g)
  {
    forall x | x in g.heap ensures Live(g, x) {
      assert IsCurrent(g, x);
    }
  }

  /** Root values exist. */
  lemma RootsWhole(g: Global)
    requires LiveClosed(g) && Structure(g)
    ensures g.main in g.heap && g.running in g.heap && SeqWhole(g, g.mt)
    ensures Whole(g) ==> SeqWhole(g, Globals(g))
  {
    forall i | 0 <= i < |g.mt| ensures g.mt[i].Ptr? ==> g.mt[i].ref in g.heap {
      if g.mt[i].Ptr? {
        assert IsRoot(g, g.mt[i].ref);
        assert Live(g, g.mt[i].ref);
      }
    }
    if Whole(g) {
      assert Slots(g, g.main) == g.heap[g.main].slots;
      assert g.main in g.heap;
    }
  }

  lemma SeqWholeGrown(g: Global, r: Global, s: seq<Value>)
    requires Grown(g, r) && SeqWhole(g, s)
    ensures SeqWhole(r, s)
  {
  }

  lemma MarkRootInv(g: Global)
    requires Inv(g) && (g.phase.Pause? || g.phase.Finalize?)
    ensures Inv(MarkRoot(g)) && MarkRoot(g).phase == Propagate
    ensures Grown(g.(gray := [], again := [], phase := Propagate), MarkRoot(g))
  {
    hide Structure, Interned, LiveClosed, NoDead, Tri, Slots, AllCurrent, MarkSlots, MarkValue, Grown, Spread, Whole, Globals, SeqWhole, Marked;
    var g0 := g.(gray := [], again := []);
    var g1 := MarkValue(g0, Ptr(g.main));
    var g2 := MarkSlots(g1, Globals(g1));
    var g3 := MarkSlots(g2, g.mt);
    var r := g3.(phase := Propagate);
    CurrentLive(g);
    LiveWhole(g);
    FreshTri(g);
    RootsWhole(g);
    MarkRootSteps(g, g0, g1, g2, g3);
    GrownTrans(g0, g1, g2);
    GrownTrans(g0, g2, g3);
    LivePhase(g, g0);
    KeepsSweep(g);
    StructurePhase(g, g0);
    GrownSpread(g0, g3);
    SpreadStructure(g0, g3);
    SpreadLive(g0, g3);
    GrownPhase(g0, g3, Propagate);
    StructurePhase(g3, r);
    LivePhase(g3, r);
    TriPhase(g3, r);
    MarkedPhase(g3, r);
  }

  lemma KeepsSweep(g: Global)
    requires Structure(g)
    ensures 0 < g.strsize && g.sweepgc <= |g.rootgc|
  {
  }

  lemma GrownPhase(g: Global, r: Global, p: Phase)
    requires Grown(g, r)
    ensures Grown(g.(phase := p), r.(phase := p))
    ensures r.main == g.main && r.mt == g.mt && r.strsize == g.strsize && r.rootgc == g.rootgc && r.sweepgc == g.sweepgc && r.phase == g.phase
  {
  }

  lemma MarkedPhase(g: Global, h: Global)
    requires h == g.(phase := h.phase) && Marked(g, g.main) && SeqMarked(g, g.mt)
    ensures Marked(h, h.main) && (|h.mt| > 0 ==> ValueMarked(h, h.mt[0]))
  {
    if |h.mt| > 0 {
      assert ValueMarked(g, g.mt[0]);
    }
  }

  lemma MarkRootSteps(g: Global, g0: Global, g1: Global, g2: Global, g3: Global)
    requires Tri(g0, {}, false, false) && g0 == g.(gray := [], again := []) && Structure(g) && SeqWhole(g, g.mt)
    requires g1 == MarkValue(g0, Ptr(g.main)) && g2 == MarkSlots(g1, Globals(g1)) && g3 == MarkSlots(g2, g.mt)
    ensures Tri(g3, {}, false, false) && Marked(g3, g.main) && SeqMarked(g3, g.mt)
  {
    MarkValueTri(g0, Ptr(g.main), {}, false, false);
    GlobalsWhole(g1, {});
    MarkSlotsTri(g1, Globals(g1), {}, false, false);
    SeqWholeGrown(g0, g1, g.mt);
    SeqWholeGrown(g1, g2, g.mt);
    MarkSlotsTri(g2, g.mt, {}, false, false);
    MarkedStays(g1, g2, Ptr(g.main));
    MarkedStays(g2, g3, Ptr(g.main));
    hide Tri, MarkSlots, MarkValue, Structure;
  }

  lemma GlobalsWhole(g: Global, e: set<Ref>)
    requires Tri(g, e, false, false) && g.main in g.heap && g.heap[g.main].kind.Thread?
    ensures SeqWhole(g, Globals(g))
  {
    assert Slots(g, g.main) == g.heap[g.main].slots;
    hide Slots;
  }

  // what does not depend on the phase, the gray lists and the sweeper's place in the strings

  lemma LivePhase(g: Global, h: Global)
    requires h == g.(gray := h.gray, again := h.again, phase := h.phase, sweepstr := h.sweepstr, sweepgc := h.sweepgc)
    ensures LiveClosed(g) ==> LiveClosed(h)
    ensures NoDead(g) ==> NoDead(h)
  {
    assert forall x :: Slots(h, x) == Slots(g, x) && (Live(h, x) <==> Live(g, x)) && (IsRoot(h, x) <==> IsRoot(g, x));
    hide Slots, Live, IsRoot;
  }

  lemma StructurePhase(g: Global, h: Global)
    requires h == g.(gray := h.gray, again := h.again, phase := h.phase, sweepstr := h.sweepstr, sweepgc := h.sweepgc)
    requires h.sweepgc <= |h.rootgc|
    ensures Structure(g) ==> Structure(h)
    ensures Interned(g) ==> Interned(h)
  {
  }

  lemma TriPhase(g: Global, h: Global)
    requires h == g.(phase := h.phase) && Tri(g, {}, false, false)
    ensures Tri(h, {}, false, false)
  {
    GrownSame2(g, h);
    forall x | x in h.heap ensures Done(h, x, false, false) {
      assert Done(g, x, false, false);
      assert forall y :: Slots(h, y) == Slots(g, y) && (Marked(h, y) <==> Marked(g, y));
      SameMarked(g, h, x);
      hide Slots, AllMarked, Whole, Lists, Marked;
    }
  }

  // ---------------------------------------------------------------- the atomic end of marking

  /** Marks again what marked open upvalues hold: their stack slots change without a barrier. */
  function RemarkUpvals(g: Global, us: seq<Ref>): (r: Global)
    ensures Grown(g, r)
    decreases |us|
  {
    if us == [] then g
    else
      var h := if us[0] in g.heap && g.heap[us[0]].color.Gray? then MarkSlots(g, Slots(g, us[0])) else g;
      GrownTrans(g, h, RemarkUpvals(h, us[1..]));
      RemarkUpvals(h, us[1..])
  }

  /** The marked open upvalues among `us`. */
  ghost function GrayOpen(g: Global, us: seq<Ref>): set<Ref>
  {
    set u | u in us && u in g.heap && g.heap[u].color.Gray? && g.heap[u].kind.Open?
  }

  /** At first the open upvalues that are gray are exceptions ... */
  lemma ExceptOpen(g: Global)
    requires Tri(g, {}, false, false) && forall x :: x in g.heap && g.heap[x].kind.Open? ==> x in g.uvhead
    ensures Tri(g, GrayOpen(g, g.uvhead), true, false)
  {
    hide Whole, Lists, AllMarked, ColorOk;
    forall x | x in g.heap && x !in GrayOpen(g, g.uvhead) ensures Done(g, x, true, false) {
      assert Done(g, x, false, false);
    }
  }

  /** ... and each remarked one is done. */
  lemma {:induction false} RemarkTri(g: Global, us: seq<Ref>, e: set<Ref>)
    requires Tri(g, e, true, false) && (forall x :: x in e ==> x in us && g.heap[x].color.Gray? && g.heap[x].kind.Open?)
    requires forall u :: u in us && u in g.heap ==> g.heap[u].kind.Open?
    ensures Tri(RemarkUpvals(g, us), {}, true, false)
    decreases |us|
  {
    if us == [] {
      assert e == {};
    } else {
      var u := us[0];
      var h := if u in g.heap && g.heap[u].color.Gray? then MarkSlots(g, Slots(g, u)) else g;
      assert us == [u] + us[1..];
      if u in g.heap && g.heap[u].color.Gray? {
        RemarkOne(g, u, e);
      }
      RemarkRest(g, h, us, e);
      hide Tri, MarkSlots;
      RemarkTri(h, us[1..], e - {u});
    }
  }

  lemma RemarkRest(g: Global, h: Global, us: seq<Ref>, e: set<Ref>)
    requires Grown(g, h) && us != [] && (forall x :: x in e ==> Marked(g, x) && x in us && g.heap[x].color.Gray? && g.heap[x].kind.Open?)
    requires forall u :: u in us && u in g.heap ==> g.heap[u].kind.Open?
    ensures forall x :: x in e - {us[0]} ==> x in us[1..] && x in h.heap && h.heap[x].color.Gray? && h.heap[x].kind.Open?
    ensures forall u :: u in us[1..] && u in h.heap ==> h.heap[u].kind.Open?
  {
    assert us == [us[0]] + us[1..];
    forall x | x in g.heap ensures SameBut(g.heap[x], h.heap[x]) {
    }
  }

  lemma RemarkOne(g: Global, u: Ref, e: set<Ref>)
    requires Tri(g, e, true, false) && u in g.heap && g.heap[u].color.Gray? && g.heap[u].kind.Open?
    ensures Tri(MarkSlots(g, Slots(g, u)), e - {u}, true, false)
  {
    var r := MarkSlots(g, Slots(g, u));
    assert SeqWhole(g, Slots(g, u)) by { hide Slots; }
    MarkSlotsTri(g, Slots(g, u), e, true, false);
    GrownSlots(g, r, u);
    assert SameBut(g.heap[u], r.heap[u]);
    hide MarkSlots, Slots, Lists, Whole;
    assert Done(r, u, true, false);
    WidenTri(r, e, e - {u} + {u}, u);
    Settle(r, u, e - {u}, true, false);
  }

  lemma WidenTri(g: Global, e: set<Ref>, e': set<Ref>, u: Ref)
    requires Tri(g, e, true, false) && e' == e + {u} && Marked(g, u)
    ensures Tri(g, e', true, false)
  {
    hide Whole, Lists, Done, Marked;
  }

  /** What holds while marking, whatever else has been marked. */
  ghost predicate Marking(g: Global, upvals: bool, again: bool)
  {
    && Tri(g, {}, upvals, again) && Structure(g) && Interned(g) && LiveClosed(g) && NoDead(g)
    && Marked(g, g.main) && (|g.mt| > 0 ==> ValueMarked(g, g.mt[0]))
  }

  lemma MarkingSpread(g: Global, r: Global, upvals: bool, again: bool, upvals': bool, again': bool)
    requires Marking(g, upvals, again) && Spread(g, r) && Tri(r, {}, upvals', again')
    ensures Marking(r, upvals', again')
  {
    SpreadStructure(g, r);
    SpreadLive(g, r);
    SpreadSlots(g, r, g.main);
    if |g.mt| > 0 && g.mt[0].Ptr? {
      SpreadSlots(g, r, g.mt[0].ref);
    }
    hide Tri, Structure, Interned, LiveClosed, NoDead, Slots;
  }

  lemma StepSpread(g: Global)
    requires g.gray != [] && Marked(g, g.gray[0])
    ensures Spread(g, Step(g))
  {
    var h := Taken(g);
    var r := Step(g);
    assert Spread(g, h);
    GrownSpread(h, r);
    hide MarkSlots, Grown;
    SpreadTrans(g, h, r);
  }

  lemma {:induction false} PropagateMarking(g: Global, upvals: bool, again: bool)
    requires Marking(g, upvals, again)
    ensures Tri(g, {}, false, false)
    ensures var r := PropagateAll(g); r.gray == [] && Marking(r, upvals, again) && Spread(g, r)
    decreases Load(g)
  {
    PropagateAllTri(g, upvals, again);
    PropagateSpread(g);
    hide Tri, PropagateAll;
    MarkingSpread(g, PropagateAll(g), upvals, again, upvals, again);
  }

  lemma {:induction false} PropagateSpread(g: Global)
    requires Tri(g, {}, false, false)
    ensures Spread(g, PropagateAll(g))
    decreases Load(g)
  {
    hide Tri, Step, Load;
    if g.gray != [] {
      StepTri(g, false, false);
      StepLoad(g);
      StepSpread(g);
      PropagateSpread(Step(g));
      SpreadTrans(g, Step(g), PropagateAll(g));
    } else {
      assert PropagateAll(g) == g;
    }
  }

  /** First: open upvalues again, and all that follows from them. */
  function Remarked(g: Global): (r: Global)
    requires Marking(g, false, false)
    ensures Marking(r, true, false) && r.gray == [] && Spread(g, r)
  {
    RemarkMarking(g);
    PropagateMarking(RemarkUpvals(g, g.uvhead), true, false);
    SpreadTrans(g, RemarkUpvals(g, g.uvhead), PropagateAll(RemarkUpvals(g, g.uvhead)));
    PropagateAll(RemarkUpvals(g, g.uvhead))
  }

  lemma RemarkMarking(g: Global)
    requires Marking(g, false, false)
    ensures Marking(RemarkUpvals(g, g.uvhead), true, false) && Spread(g, RemarkUpvals(g, g.uvhead))
  {
    var r := RemarkUpvals(g, g.uvhead);
    ExceptOpen(g);
    RemarkTri(g, g.uvhead, GrayOpen(g, g.uvhead));
    GrownSpread(g, r);
    hide Tri, Spread, RemarkUpvals;
    MarkingSpread(g, r, false, false, true, false);
  }

  /** Then: the running thread and the basic metatables, which may have changed. */
  function RootsAgain(g: Global): (r: Global)
    requires Marking(g, true, false)
    ensures Marking(r, true, false) && r.gray == [] && Spread(g, r) && RootsMarked(r)
  {
    var h := MarkAgain(g);
    MarkAgainOk(g);
    PropagateMarking(h, true, false);
    SpreadTrans(g, h, PropagateAll(h));
    RootsStay(h, PropagateAll(h));
    PropagateAll(h)
  }

  function MarkAgain(g: Global): Global
  {
    MarkSlots(MarkValue(g, Ptr(g.running)), if |g.mt| > 0 then g.mt[1..] else [])
  }

  ghost predicate RootsMarked(g: Global)
  {
    Marked(g, g.main) && Marked(g, g.running) && SeqMarked(g, g.mt)
  }

  lemma RootsStay(g: Global, r: Global)
    requires Spread(g, r) && RootsMarked(g)
    ensures RootsMarked(r)
  {
    SpreadSlots(g, r, g.main);
    SpreadSlots(g, r, g.running);
    forall i | 0 <= i < |r.mt| ensures ValueMarked(r, r.mt[i]) {
      assert ValueMarked(g, g.mt[i]);
      if g.mt[i].Ptr? {
        SpreadSlots(g, r, g.mt[i].ref);
      }
    }
  }

  lemma MarkAgainOk(g: Global)
    requires Marking(g, true, false)
    ensures Marking(MarkAgain(g), true, false) && Spread(g, MarkAgain(g)) && RootsMarked(MarkAgain(g))
  {
    var rest := if |g.mt| > 0 then g.mt[1..] else [];
    var h := MarkValue(g, Ptr(g.running));
    var r := MarkSlots(h, rest);
    RootsWhole(g);
    assert SeqWhole(g, rest);
    hide Slots, LiveClosed, NoDead, Whole, Lists, Done;
    MarkValueTri(g, Ptr(g.running), {}, true, false);
    SeqWholeGrown(g, h, rest);
    MarkSlotsTri(h, rest, {}, true, false);
    GrownTrans(g, h, r);
    GrownSpread(g, r);
    hide Tri, MarkSlots, MarkValue, Structure, Interned;
    MarkingSpread(g, r, true, false, true, false);
    MarkedStays(h, r, Ptr(g.running));
    MtMarked(g, r, rest);
  }

  lemma MtMarked(g: Global, r: Global, rest: seq<Value>)
    requires Grown(g, r) && rest == (if |g.mt| > 0 then g.mt[1..] else []) && SeqMarked(r, rest)
    requires |g.mt| > 0 ==> ValueMarked(g, g.mt[0])
    ensures SeqMarked(r, r.mt)
  {
    forall i | 0 <= i < |r.mt| ensures ValueMarked(r, r.mt[i]) {
      if i == 0 {
        MarkedStays(g, r, g.mt[0]);
      } else {
        assert ValueMarked(r, rest[i - 1]);
      }
    }
  }

  /** Last: the objects barriers and threads have put aside. */
  function AgainDone(g: Global): (r: Global)
    requires Marking(g, true, false) && g.gray == [] && RootsMarked(g)
    ensures Marking(r, true, true) && r.gray == [] && RootsMarked(r) && Spread(g, r)
  {
    var h := g.(gray := g.again, again := []);
    AgainTri(g);
    assert Spread(g, h);
    MarkingSpread(g, h, true, false, true, true);
    PropagateMarking(h, true, true);
    SpreadTrans(g, h, PropagateAll(h));
    RootsStay(g, PropagateAll(h));
    PropagateAll(h)
  }

  lemma AgainTri(g: Global)
    requires Tri(g, {}, true, false) && g.gray == []
    ensures Tri(g.(gray := g.again, again := []), {}, true, true)
  {
    var h := g.(gray := g.again, again := []);
    assert forall y :: Slots(h, y) == Slots(g, y) && (Marked(h, y) <==> Marked(g, y));
    assert Lists(h);
    hide Slots, Marked;
    forall x | x in h.heap ensures Done(h, x, true, true) {
      assert Done(g, x, true, false);
      SameMarked(g, h, x);
      hide AllMarked, Whole, Lists;
    }
  }

  /** The atomic end of marking; then the other white becomes current. */
  function Atomic(g: Global): Global
    requires Marking(g, false, false)
  {
    var h := AgainDone(RootsAgain(Remarked(g)));
    h.(cur := !h.cur, sweepstr := 0, sweepgc := 0, phase := SweepString)
  }

  /** When marking ends, what a marked object holds is marked. */
  lemma MarkedClosed(h: Global, x: Ref, y: Ref)
    requires Marking(h, true, true) && h.gray == [] && Marked(h, x) && Refers(h, x, y)
    ensures Marked(h, y)
  {
    assert Done(h, x, true, true) && ObjectOk(h, x);
    assert AllMarked(h, x) by {
      hide AllMarked, Lists, Whole, Interned;
      if h.heap[x].kind.Str? {
        assert Slots(h, x) == [];
        EmptyMarked(h, x);
      }
    }
    hide Slots;
    var i :| 0 <= i < |Slots(h, x)| && Slots(h, x)[i] == Ptr(y);
    assert ValueMarked(h, Slots(h, x)[i]);
  }

  lemma EmptyMarked(h: Global, x: Ref)
    requires Slots(h, x) == []
    ensures AllMarked(h, x)
  {
  }

  /** After the flip an object is live exactly when it was marked. */
  lemma FlipLive(h: Global, r: Global)
    requires NoDead(h) && r == h.(cur := !h.cur, sweepstr := 0, sweepgc := 0, phase := SweepString)
    ensures forall x :: Live(r, x) <==> Marked(h, x)
  {
    forall x ensures Live(r, x) <==> Marked(h, x) {
      if x in h.heap {
        assert Live(h, x);
      }
    }
  }

  lemma FlipInv(h: Global)
    requires Marking(h, true, true) && h.gray == [] && RootsMarked(h)
    ensures Inv(h.(cur := !h.cur, sweepstr := 0, sweepgc := 0, phase := SweepString))
  {
    var r := h.(cur := !h.cur, sweepstr := 0, sweepgc := 0, phase := SweepString);
    FlipLive(h, r);
    FlipClosed(h, r);
    FlipStructure(h, r);
    FlipOpen(h, r);
    hide Structure, Interned, LiveClosed, Marking, Marked, Live;
    assert StringsSwept(r, 0);
  }

  lemma FlipOpen(h: Global, r: Global)
    requires Marking(h, true, true) && r.heap == h.heap
    ensures NoBlackOpen(r)
  {
    forall x | x in h.heap ensures ColorOk(h, x) {
      assert Done(h, x, true, true);
    }
  }

  lemma FlipStructure(h: Global, r: Global)
    requires Structure(h) && Interned(h) && r == h.(cur := !h.cur, sweepstr := 0, sweepgc := 0, phase := SweepString)
    ensures Structure(r) && Interned(r) && 0 < r.strsize
  {
  }

  lemma FlipClosed(h: Global, r: Global)
    requires Marking(h, true, true) && h.gray == [] && RootsMarked(h)
    requires r == h.(cur := !h.cur, sweepstr := 0, sweepgc := 0, phase := SweepString)
    requires forall x :: Live(r, x) <==> Marked(h, x)
    ensures LiveClosed(r)
  {
    forall x ensures Slots(r, x) == Slots(h, x) {
    }
    hide Slots, Marking, Live, Marked;
    forall x, y | Live(r, x) && Refers(r, x, y) ensures Live(r, y) {
      assert Refers(h, x, y);
      MarkedClosed(h, x, y);
    }
    forall x | IsRoot(r, x) ensures Live(r, x) {
      if Ptr(x) in r.mt {
        var i :| 0 <= i < |r.mt| && r.mt[i] == Ptr(x);
        assert ValueMarked(h, h.mt[i]);
      }
    }
  }

  lemma AtomicInv(g: Global)
    requires Inv(g) && g.phase.Propagate?
    ensures Marking(g, false, false) && Inv(Atomic(g)) && Atomic(g).phase == SweepString
  {
    hide Structure, Interned, LiveClosed, NoDead, Tri, Remarked, RootsAgain, AgainDone, Marked, ValueMarked;
    assert Marking(g, false, false);
    FlipInv(AgainDone(RootsAgain(Remarked(g))));
  }

  // ---------------------------------------------------------------- marking stays within what is reachable

  ghost predicate MarkedWithin(g: Global, s: iset<Ref>)
  {
    forall x :: Marked(g, x) ==> x in s
  }

  ghost predicate RefersWithin(g: Global, s: iset<Ref>)
  {
    forall x, y :: x in s && Refers(g, x, y) ==> y in s
  }

  predicate SeqWithin(vs: seq<Value>, s: iset<Ref>)
  {
    forall i :: 0 <= i < |vs| ==> (vs[i].Ptr? ==> vs[i].ref in s)
  }

  lemma SpreadRefers(g: Global, r: Global, s: iset<Ref>)
    requires Spread(g, r) && RefersWithin(g, s)
    ensures RefersWithin(r, s)
  {
    forall x, y | x in s && Refers(r, x, y) ensures y in s {
      SpreadSlots(g, r, x);
      assert Refers(g, x, y);
    }
  }

  lemma SlotsWithin(g: Global, x: Ref, s: iset<Ref>)
    requires RefersWithin(g, s) && x in s
    ensures SeqWithin(Slots(g, x), s)
  {
    hide Slots;
    forall i | 0 <= i < |Slots(g, x)| && Slots(g, x)[i].Ptr? ensures Slots(g, x)[i].ref in s {
      assert Refers(g, x, Slots(g, x)[i].ref);
    }
  }

  lemma PaintWithin(g: Global, x: Ref, c: Color, s: iset<Ref>)
    requires MarkedWithin(g, s) && RefersWithin(g, s) && x in s && IsWhite(g, x) && !c.White?
    ensures MarkedWithin(Paint(g, x, c), s) && RefersWithin(Paint(g, x, c), s)
  {
    GrownPaint(g, x, c);
    GrownSpread(g, Paint(g, x, c));
    SpreadRefers(g, Paint(g, x, c), s);
    forall y | Marked(Paint(g, x, c), y) ensures y in s {
      assert y == x || Marked(g, y);
    }
  }

  /** Marking an object of a set closed under reference marks within the set. */
  lemma {:induction false} MarkWithin(g: Global, x: Ref, s: iset<Ref>)
    requires MarkedWithin(g, s) && RefersWithin(g, s) && x in s && IsWhite(g, x)
    ensures MarkedWithin(Mark(g, x), s)
    decreases |Whites(g)|, 0
  {
    var o := g.heap[x];
    var gray, black := Paint(g, x, Gray), Paint(g, x, Black);
    GrownPaint(g, x, Gray);
    GrownPaint(g, x, Black);
    WhitesLess(g, gray, x);
    WhitesLess(g, black, x);
    PaintWithin(g, x, Gray, s);
    PaintWithin(g, x, Black, s);
    SlotsWithin(g, x, s);
    hide RefersWithin, SeqWithin, Whites;
    match o.kind
    case Str(_) =>
    case Userdata =>
      assert Slots(g, x) == o.slots;
      MarkSlotsWithin(black, o.slots, s);
    case Closed =>
      MarkSlotsWithin(gray, Slots(g, x), s);
    case Open(_, _) =>
      MarkSlotsWithin(gray, Slots(g, x), s);
    case _ =>
  }

  lemma {:induction false} MarkSlotsWithin(g: Global, vs: seq<Value>, s: iset<Ref>)
    requires MarkedWithin(g, s) && RefersWithin(g, s) && SeqWithin(vs, s)
    ensures MarkedWithin(MarkSlots(g, vs), s)
    decreases |Whites(g)|, 2, |vs|
  {
    hide RefersWithin, MarkedWithin;
    if vs != [] {
      var h := MarkValue(g, vs[0]);
      WhitesGrown(g, h);
      GrownSpread(g, h);
      SpreadRefers(g, h, s);
      assert vs[0].Ptr? ==> vs[0].ref in s;
      if vs[0].Ptr? && IsWhite(g, vs[0].ref) {
        MarkWithin(g, vs[0].ref, s);
      }
      MarkSlotsWithin(h, vs[1..], s);
    }
  }

  lemma StepWithin(g: Global, s: iset<Ref>)
    requires g.gray != [] && Marked(g, g.gray[0]) && !g.heap[g.gray[0]].kind.Open?
    requires MarkedWithin(g, s) && RefersWithin(g, s)
    ensures MarkedWithin(Step(g), s)
  {
    var h, x := Taken(g), g.gray[0];
    assert Spread(g, h);
    SpreadRefers(g, h, s);
    assert x in s && Slots(g, x) == g.heap[x].slots;
    SlotsWithin(g, x, s);
    forall y | Marked(h, y) ensures y in s {
      assert Marked(g, y);
    }
    hide Slots, MarkSlots;
    MarkSlotsWithin(h, g.heap[x].slots, s);
  }

  lemma {:induction false} PropagateWithin(g: Global, s: iset<Ref>)
    requires Tri(g, {}, false, false) && MarkedWithin(g, s) && RefersWithin(g, s)
    ensures MarkedWithin(PropagateAll(g), s) && RefersWithin(PropagateAll(g), s)
    decreases Load(g)
  {
    if g.gray != [] {
      assert g.gray[0] in g.gray;
      hide Step, Load, MarkedWithin, RefersWithin;
      StepTri(g, false, false);
      StepLoad(g);
      StepWithin(g, s);
      StepSpread(g);
      SpreadRefers(g, Step(g), s);
      PropagateWithin(Step(g), s);
    }
  }

  lemma {:induction false} RemarkWithin(g: Global, us: seq<Ref>, s: iset<Ref>)
    requires MarkedWithin(g, s) && RefersWithin(g, s)
    ensures MarkedWithin(RemarkUpvals(g, us), s)
    decreases |us|
  {
    if us != [] {
      var h := if us[0] in g.heap && g.heap[us[0]].color.Gray? then MarkSlots(g, Slots(g, us[0])) else g;
      if us[0] in g.heap && g.heap[us[0]].color.Gray? {
        assert Marked(g, us[0]);
        SlotsWithin(g, us[0], s);
        MarkSlotsWithin(g, Slots(g, us[0]), s);
      }
      GrownSpread(g, h);
      SpreadRefers(g, h, s);
      RemarkWithin(h, us[1..], s);
    }
  }

  ghost predicate RootsWithin(g: Global, s: iset<Ref>)
  {
    forall x :: IsRoot(g, x) ==> x in s
  }

  lemma AgainWithin(g: Global, s: iset<Ref>)
    requires MarkedWithin(g, s) && RefersWithin(g, s) && RootsWithin(g, s)
    ensures MarkedWithin(MarkAgain(g), s)
  {
    var rest := if |g.mt| > 0 then g.mt[1..] else [];
    var h := MarkValue(g, Ptr(g.running));
    assert IsRoot(g, g.running);
    if IsWhite(g, g.running) {
      MarkWithin(g, g.running, s);
    }
    GrownSpread(g, h);
    SpreadRefers(g, h, s);
    MtWithin(g, rest, s);
    MarkSlotsWithin(h, rest, s);
  }

  lemma MtWithin(g: Global, vs: seq<Value>, s: iset<Ref>)
    requires RootsWithin(g, s) && forall v :: v in vs ==> v in g.mt
    ensures SeqWithin(vs, s)
  {
    forall i | 0 <= i < |vs| && vs[i].Ptr? ensures vs[i].ref in s {
      assert vs[i] in vs;
      assert IsRoot(g, vs[i].ref);
    }
  }

  /** The atomic end marks nothing outside a closed set that holds the roots and all that is marked. */
  lemma AtomicWithin(g: Global, s: iset<Ref>)
    requires Marking(g, false, false) && MarkedWithin(g, s) && RefersWithin(g, s) && RootsWithin(g, s)
    ensures var h := AgainDone(RootsAgain(Remarked(g))); MarkedWithin(h, s)
  {
    var g1, g2 := Remarked(g), RootsAgain(Remarked(g));
    RemarkedWithin(g, s);
    hide Remarked, Tri, Structure, LiveClosed, Interned, NoDead, MarkedWithin, RefersWithin, MarkAgain, PropagateAll, Marked;
    AgainWithin(g1, s);
    MarkAgainOk(g1);
    SpreadRefers(g1, MarkAgain(g1), s);
    PropagateMarking(MarkAgain(g1), true, false);
    PropagateWithin(MarkAgain(g1), s);
    AgainStart(g2, s);
    PropagateWithin(g2.(gray := g2.again, again := []), s);
  }

  lemma AgainStart(g: Global, s: iset<Ref>)
    requires Tri(g, {}, true, false) && g.gray == [] && MarkedWithin(g, s) && RefersWithin(g, s)
    ensures var h := g.(gray := g.again, again := []); Tri(h, {}, false, false) && MarkedWithin(h, s) && RefersWithin(h, s)
  {
    var h := g.(gray := g.again, again := []);
    AgainTri(g);
    Weaken(h, {}, true, true);
    assert Spread(g, h);
    SpreadRefers(g, h, s);
    forall x | Marked(h, x) ensures x in s {
      assert Marked(g, x);
    }
  }

  lemma RemarkedWithin(g: Global, s: iset<Ref>)
    requires Marking(g, false, false) && MarkedWithin(g, s) && RefersWithin(g, s) && RootsWithin(g, s)
    ensures MarkedWithin(Remarked(g), s) && RefersWithin(Remarked(g), s) && RootsWithin(Remarked(g), s)
  {
    var h := RemarkUpvals(g, g.uvhead);
    RemarkMarking(g);
    RemarkWithin(g, g.uvhead, s);
    SpreadRefers(g, h, s);
    PropagateMarking(h, true, false);
    hide Tri, Structure, LiveClosed, Interned, NoDead, MarkedWithin, RefersWithin, RemarkUpvals, PropagateAll;
    PropagateWithin(h, s);
    assert forall x :: IsRoot(Remarked(g), x) ==> IsRoot(g, x);
  }
}
