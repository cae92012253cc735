/**
 The sweep phase: objects that are white of the previous cycle are freed, all
 others become white of the current one.
 */
module LuaSweep {
  import opened LuaHeap
  import opened LuaMark
  import opened LuaCycle

  /** Objects one step looks at. */
  const SWEEP_MAX: nat := 40

  const MIN_STRINGS: nat := 32

  /** What the sweeper frees. */
  predicate Doomed(g: Global, x: Ref)
  {
    Dead(g, x) && !g.heap[x].fixed
  }

  function Whitened(g: Global, o: Obj): Obj
  {
    o.(color := White(g.cur))
  }

  /** The invariant without what depends on the phase. */
  ghost predicate Core(g: Global)
  {
    Structure(g) && Interned(g) && LiveClosed(g)
  }

  /** Nothing that a root reaches is freed. */
  lemma DoomedUnreachable(g: Global, x: Ref)
    requires LiveClosed(g) && Doomed(g, x)
    ensures !Reachable(g, x)
  {
    if Reachable(g, x) {
      ReachLive(g, x);
    }
  }

  // ---------------------------------------------------------------- strings

  predicate OnChain(g: Global, x: Ref, i: nat)
    requires 0 < g.strsize
  {
    x in g.heap && g.heap[x].kind.Str? && Chain(g, g.heap[x].kind.text) == i
  }

  /** Sweeps one chain of the string table. */
  function SweepChain(g: Global): Global
    requires g.sweepstr < g.strsize
  {
    g.(heap := map x | x in g.heap && !(OnChain(g, x, g.sweepstr) && Doomed(g, x)) ::
                 if OnChain(g, x, g.sweepstr) then Whitened(g, g.heap[x]) else g.heap[x],
       sweepstr := g.sweepstr + 1,
       phase := if g.sweepstr + 1 >= g.strsize then Sweep else SweepString)
  }

  lemma ChainObject(g: Global, x: Ref)
    requires Core(g) && g.sweepstr < g.strsize
    ensures var r := SweepChain(g);
            (Live(g, x) ==> Live(r, x)) &&
            (x in r.heap ==> x in g.heap && Slots(r, x) == Slots(g, x) && (Live(r, x) ==> Live(g, x) || Slots(g, x) == []))
  {
    hide Chain;
    if x in g.heap {
      assert ObjectOk(g, x);
    }
    hide Structure, Interned, LiveClosed;
  }

  lemma ChainCore(g: Global)
    requires Core(g) && g.sweepstr < g.strsize
    ensures Core(SweepChain(g))
  {
    var r := SweepChain(g);
    ChainStructure(g);
    hide Structure, Interned, Slots, Live, LiveClosed, SweepChain;
    forall x ensures Kept(g, r, x) {
      ChainObject(g, x);
    }
    assert r.main == g.main && r.running == g.running && r.mt == g.mt by { ChainRoots(g); }
    KeptClosed(g, r);
  }

  lemma ChainRoots(g: Global)
    requires g.sweepstr < g.strsize
    ensures var r := SweepChain(g); r.main == g.main && r.running == g.running && r.mt == g.mt
  {
  }

  /** `x` stays alive if it was, and if it is there at all it holds what it held; only what holds nothing comes to life. */
  predicate Kept(g: Global, r: Global, x: Ref)
  {
    && (Live(g, x) ==> Live(r, x))
    && (x in r.heap ==> Slots(r, x) == Slots(g, x) && (Live(r, x) ==> Live(g, x) || Slots(g, x) == []))
  }

  lemma KeptClosed(g: Global, r: Global)
    requires LiveClosed(g) && r.main == g.main && r.running == g.running && r.mt == g.mt
    requires forall x :: Kept(g, r, x)
    ensures LiveClosed(r)
  {
    forall x, y | Live(r, x) && Refers(r, x, y) ensures Live(r, y) {
      assert Kept(g, r, x) && Kept(g, r, y);
      assert Refers(g, x, y);
      hide Slots;
    }
    forall x | IsRoot(r, x) ensures Live(r, x) {
      assert IsRoot(g, x) && Kept(g, r, x);
    }
  }

  /** What sweeping may do: free what is doomed, and let all else hold what it held. */
  ghost predicate SweptTo(g: Global, r: Global)
  {
    && r.main == g.main && r.running == g.running && r.mt == g.mt && r.cur == g.cur && r.heap.Keys <= g.heap.Keys
    && (forall x :: Kept(g, r, x))
    && (forall x :: x in g.heap && x !in r.heap ==> Doomed(g, x))
    && (forall x :: x in r.heap ==> (Doomed(r, x) <==> Doomed(g, x)))
    && (forall x :: x in r.heap ==> r.heap[x].fixed == g.heap[x].fixed)
  }

  lemma SweptSelf(g: Global)
    ensures SweptTo(g, g)
  {
  }

  lemma SweptTrans(g: Global, h: Global, r: Global)
    requires SweptTo(g, h) && SweptTo(h, r)
    ensures SweptTo(g, r)
  {
    forall x ensures Kept(g, r, x) {
      assert Kept(g, h, x) && Kept(h, r, x);
    }
    hide Kept, Doomed;
  }

  /** Sweeping does not change what is reachable. */
  lemma SweptReach(g: Global, r: Global, x: Ref)
    requires LiveClosed(g) && SweptTo(g, r)
    ensures Reachable(g, x) <==> Reachable(r, x)
  {
    assert forall y :: IsRoot(g, y) <==> IsRoot(r, y);
    forall y, z | Reachable(g, y) ensures Refers(g, y, z) <==> Refers(r, y, z) {
      ReachLive(g, y);
      assert Kept(g, r, y);
      hide Slots, Reachable;
    }
    hide Slots, Reachable, SweptTo, IsRoot;
    SameReach(g, r, x);
  }

  lemma ChainStructure(g: Global)
    requires Core(g) && g.sweepstr < g.strsize
    ensures Structure(SweepChain(g)) && Interned(SweepChain(g))
  {
    var r := SweepChain(g);
    hide Chain;
    forall x | x in r.heap ensures ObjectOk(r, x) {
      assert ObjectOk(g, x);
    }
  }

  lemma ChainSwept(g: Global)
    requires Core(g) && g.sweepstr < g.strsize
    ensures SweptTo(g, SweepChain(g))
  {
    var r := SweepChain(g);
    forall x ensures Kept(g, r, x) {
      ChainObject(g, x);
    }
    hide Kept, Chain;
  }

  lemma ChainInv(g: Global)
    requires Inv(g) && g.phase.SweepString?
    ensures g.sweepstr < g.strsize && Inv(SweepChain(g)) && SweptTo(g, SweepChain(g))
  {
    var r := SweepChain(g);
    ChainCore(g);
    ChainSwept(g);
    hide SweptTo;
    hide Core, Chain, Slots;
    assert Structure(g) && Structure(r) && Core(r) by { ChainStructure(g); }
    forall x | x in r.heap && r.heap[x].kind.Str? && Chain(r, r.heap[x].kind.text) < r.sweepstr ensures IsCurrent(r, x) {
      assert Chain(r, r.heap[x].kind.text) == Chain(g, g.heap[x].kind.text);
      if !OnChain(g, x, g.sweepstr) {
        assert IsCurrent(g, x);
      }
    }
  }

  // ---------------------------------------------------------------- the root list

  predicate OpenOf(g: Global, u: Ref, t: Ref)
  {
    u in g.heap && g.heap[u].kind.Open? && g.heap[u].kind.owner == t
  }

  /** The members of `us` that are, or are not, open upvalues of thread `t`. */
  function OpensOf(g: Global, us: seq<Ref>, t: Ref, of: bool): (r: seq<Ref>)
    ensures forall u :: u in r <==> u in us && OpenOf(g, u, t) == of
    ensures Distinct(us) ==> Distinct(r)
  {
    if us == [] then []
    else
      var rest := OpensOf(g, us[1..], t, of);
      assert us == [us[0]] + us[1..];
      if OpenOf(g, us[0], t) == of then [us[0]] + rest else rest
  }

  /** The members of `us` that still exist. */
  function Existing(heap: map<Ref, Obj>, us: seq<Ref>): (r: seq<Ref>)
    ensures forall u :: u in r <==> u in us && u in heap
    ensures Distinct(us) ==> Distinct(r)
  {
    if us == [] then []
    else
      var rest := Existing(heap, us[1..]);
      assert us == [us[0]] + us[1..];
      if us[0] in heap then [us[0]] + rest else rest
  }

  /** Sweeps the open upvalues of a thread. */
  function SweepUpvals(g: Global, t: Ref): Global
  {
    var heap := map x | x in g.heap && !(OpenOf(g, x, t) && Doomed(g, x)) ::
                  if OpenOf(g, x, t) then Whitened(g, g.heap[x]) else g.heap[x];
    g.(heap := heap, uvhead := Existing(heap, g.uvhead))
  }

  lemma UpvalsObject(g: Global, t: Ref, x: Ref)
    requires Core(g)
    ensures Kept(g, SweepUpvals(g, t), x)
    ensures x in SweepUpvals(g, t).heap ==> ObjectOk(SweepUpvals(g, t), x)
  {
    if x in g.heap {
      assert ObjectOk(g, x);
    }
    hide Structure, Interned, LiveClosed;
  }

  lemma UpvalsCore(g: Global, t: Ref)
    requires Core(g)
    ensures Core(SweepUpvals(g, t))
    ensures SweepUpvals(g, t).rootgc == g.rootgc && SweepUpvals(g, t).heap.Keys <= g.heap.Keys
  {
    var r := SweepUpvals(g, t);
    forall x ensures Kept(g, r, x) && (x in r.heap ==> ObjectOk(r, x)) {
      UpvalsObject(g, t, x);
    }
    UpvalsStructure(g, t);
    hide Structure, Interned, Kept, ObjectOk, OpenOf, Doomed;
    KeptClosed(g, r);
  }

  lemma UpvalsStructure(g: Global, t: Ref)
    requires Core(g) && forall x :: x in SweepUpvals(g, t).heap ==> ObjectOk(SweepUpvals(g, t), x)
    ensures Structure(SweepUpvals(g, t)) && Interned(SweepUpvals(g, t))
  {
    var r := SweepUpvals(g, t);
    hide ObjectOk, LiveClosed;
    assert Distinct(r.uvhead);
    forall x | x in g.heap && !g.heap[x].kind.Open? ensures x in r.heap && r.heap[x] == g.heap[x] {
    }
    forall x | x in r.heap ensures r.heap[x].kind == g.heap[x].kind {
    }
    hide OpenOf, Doomed, SweepUpvals;
  }

  /** A freed thread closes its remaining upvalues: each takes its value with it and joins the root list. */
  function CloseUpvals(g: Global, t: Ref): Global
  {
    var us := OpensOf(g, g.uvhead, t, true);
    g.(heap := map x | x in g.heap :: if OpenOf(g, x, t) then g.heap[x].(kind := Closed, slots := Slots(g, x)) else g.heap[x],
       uvhead := OpensOf(g, g.uvhead, t, false),
       rootgc := us + g.rootgc,
       sweepgc := if g.sweepgc == 0 then 0 else g.sweepgc + |us|)
  }

  lemma CloseObject(g: Global, t: Ref, x: Ref)
    requires Structure(g)
    ensures Kept(g, CloseUpvals(g, t), x)
    ensures x in CloseUpvals(g, t).heap ==> ObjectOk(CloseUpvals(g, t), x)
  {
    if x in g.heap {
      assert ObjectOk(g, x);
    }
    hide Structure;
  }

  lemma CloseStructure(g: Global, t: Ref)
    requires Structure(g) && Interned(g) && forall x :: x in CloseUpvals(g, t).heap ==> ObjectOk(CloseUpvals(g, t), x)
    ensures Structure(CloseUpvals(g, t)) && Interned(CloseUpvals(g, t))
  {
    var r := CloseUpvals(g, t);
    hide ObjectOk, Slots;
    forall x | x in g.heap ensures r.heap[x].kind == if OpenOf(g, x, t) then Closed else g.heap[x].kind {
    }
    var us := OpensOf(g, g.uvhead, t, true);
    DistinctAppend(us, g.rootgc);
    assert forall x :: x in us <==> OpenOf(g, x, t) && x in g.heap;
    hide OpensOf;
  }

  lemma DistinctAppend(a: seq<Ref>, b: seq<Ref>)
    requires Distinct(a) && Distinct(b) && forall x :: x in a ==> x !in b
    ensures Distinct(a + b)
  {
    var s := a + b;
    forall i, j | 0 <= i < j < |s| ensures s[i] != s[j] {
      if i < |a| <= j {
        assert a[i] in a && b[j - |a|] in b;
      }
    }
  }

  lemma CloseCore(g: Global, t: Ref)
    requires Core(g)
    ensures Core(CloseUpvals(g, t))
  {
    var r := CloseUpvals(g, t);
    forall x ensures Kept(g, r, x) && (x in r.heap ==> ObjectOk(r, x)) {
      CloseObject(g, t, x);
    }
    CloseStructure(g, t);
    hide Structure, Interned, Kept, ObjectOk, OpenOf, Slots;
    KeptClosed(g, r);
  }

  /** Unlinks and frees the i-th object of the root list. */
  function RemoveAt(g: Global, i: nat): Global
    requires i < |g.rootgc|
  {
    g.(heap := g.heap - {g.rootgc[i]}, rootgc := g.rootgc[..i] + g.rootgc[i + 1..])
  }

  lemma RemoveObject(g: Global, i: nat, x: Ref)
    requires Core(g) && i < |g.rootgc| && Doomed(g, g.rootgc[i]) && forall u :: !OpenOf(g, u, g.rootgc[i])
    ensures Kept(g, RemoveAt(g, i), x)
    ensures x in RemoveAt(g, i).heap ==> ObjectOk(RemoveAt(g, i), x)
  {
    if x in g.heap {
      assert ObjectOk(g, x);
      assert !OpenOf(g, x, g.rootgc[i]);
    }
    hide Structure, LiveClosed, Interned;
  }

  lemma RemoveStructure(g: Global, i: nat)
    requires Core(g) && g.sweepgc <= i < |g.rootgc| && Doomed(g, g.rootgc[i])
    requires forall x :: x in RemoveAt(g, i).heap ==> ObjectOk(RemoveAt(g, i), x)
    ensures Structure(RemoveAt(g, i)) && Interned(RemoveAt(g, i))
  {
    var r, x := RemoveAt(g, i), g.rootgc[i];
    assert IsRoot(g, g.main) && IsRoot(g, g.running) && Live(g, g.main) && Live(g, g.running);
    assert x in g.rootgc;
    hide ObjectOk, Slots, LiveClosed;
    RemovedFrom(g.rootgc, i);
    assert forall y :: y in r.heap <==> y in g.heap && y != x;
  }

  lemma RemovedFrom(s: seq<Ref>, i: nat)
    requires i < |s| && Distinct(s)
    ensures Distinct(s[..i] + s[i + 1..]) && forall y :: y in s[..i] + s[i + 1..] <==> y in s && y != s[i]
  {
    var r := s[..i] + s[i + 1..];
    forall y | y in s && y != s[i] ensures y in r {
      var j :| 0 <= j < |s| && s[j] == y;
      assert y == r[if j < i then j else j - 1];
    }
  }

  lemma RemoveCore(g: Global, i: nat)
    requires Core(g) && g.sweepgc <= i < |g.rootgc| && Doomed(g, g.rootgc[i]) && forall u :: !OpenOf(g, u, g.rootgc[i])
    ensures Core(RemoveAt(g, i))
  {
    var r := RemoveAt(g, i);
    forall x ensures Kept(g, r, x) && (x in r.heap ==> ObjectOk(r, x)) {
      RemoveObject(g, i, x);
    }
    RemoveStructure(g, i);
    hide Structure, Interned, Kept, ObjectOk, OpenOf, Slots, Doomed;
    KeptClosed(g, r);
  }

  /** Turns the object at the sweeper's place white and moves on. */
  function WhitenAt(g: Global): Global
    requires g.sweepgc < |g.rootgc| && g.rootgc[g.sweepgc] in g.heap
  {
    var x := g.rootgc[g.sweepgc];
    g.(heap := g.heap[x := Whitened(g, g.heap[x])], sweepgc := g.sweepgc + 1)
  }

  lemma WhitenCore(g: Global)
    requires Core(g) && g.sweepgc < |g.rootgc|
    ensures g.rootgc[g.sweepgc] in g.rootgc && g.rootgc[g.sweepgc] in g.heap
    ensures !Doomed(g, g.rootgc[g.sweepgc]) ==> Core(WhitenAt(g)) && Live(g, g.rootgc[g.sweepgc])
  {
    var x := g.rootgc[g.sweepgc];
    assert x in g.rootgc;
    if !Doomed(g, x) {
      var r := WhitenAt(g);
      assert Live(g, x) by {
        assert ObjectOk(g, x);
        assert IsRoot(g, g.main);
        hide Structure, Interned, Slots;
      }
      WhitenKept(g, x);
      WhitenStructure(g, x);
      hide Structure, Interned, Kept, ObjectOk, Slots, Doomed, Live;
      KeptClosed(g, r);
    }
  }

  lemma WhitenKept(g: Global, x: Ref)
    requires Live(g, x) && g.sweepgc < |g.rootgc| && x == g.rootgc[g.sweepgc]
    ensures forall y :: Kept(g, WhitenAt(g), y)
  {
  }

  lemma WhitenStructure(g: Global, x: Ref)
    requires Structure(g) && Interned(g) && g.sweepgc < |g.rootgc| && x == g.rootgc[g.sweepgc]
    ensures x in g.heap && Structure(WhitenAt(g)) && Interned(WhitenAt(g))
  {
    assert x in g.rootgc;
    var r := WhitenAt(g);
    forall y | y in r.heap ensures ObjectOk(r, y) {
      assert ObjectOk(g, y);
    }
    hide ObjectOk;
  }

  lemma UpvalsSweptTo(g: Global, t: Ref)
    requires Core(g)
    ensures SweptTo(g, SweepUpvals(g, t))
  {
    var r := SweepUpvals(g, t);
    forall x ensures Kept(g, r, x) {
      UpvalsObject(g, t, x);
    }
    hide Kept, Core;
  }

  lemma CloseSweptTo(g: Global, t: Ref)
    requires Core(g)
    ensures SweptTo(g, CloseUpvals(g, t))
  {
    var r := CloseUpvals(g, t);
    forall x ensures Kept(g, r, x) {
      CloseObject(g, t, x);
    }
    hide Kept, Core, OpensOf, Slots;
  }

  lemma RemoveSweptTo(g: Global, i: nat)
    requires Core(g) && i < |g.rootgc| && Doomed(g, g.rootgc[i]) && forall u :: !OpenOf(g, u, g.rootgc[i])
    ensures SweptTo(g, RemoveAt(g, i))
  {
    var r := RemoveAt(g, i);
    forall x ensures Kept(g, r, x) {
      RemoveObject(g, i, x);
    }
    hide Kept, Core;
  }

  lemma WhitenSweptTo(g: Global)
    requires g.sweepgc < |g.rootgc| && Live(g, g.rootgc[g.sweepgc])
    ensures SweptTo(g, WhitenAt(g))
  {
    WhitenKept(g, g.rootgc[g.sweepgc]);
    hide Kept;
  }

  // ---------------------------------------------------------------- one object

  ghost predicate OpensCurrent(g: Global, t: Ref)
  {
    forall u :: OpenOf(g, u, t) ==> IsCurrent(g, u)
  }

  lemma UpvalsSwept(g: Global, t: Ref, n: nat)
    requires n <= |g.rootgc| && ListSwept(g, n)
    ensures ListSwept(SweepUpvals(g, t), n) && OpensCurrent(SweepUpvals(g, t), t)
  {
  }

  lemma CloseSwept(g: Global, t: Ref)
    requires Structure(g) && ListSwept(g, g.sweepgc) && OpensCurrent(g, t)
    ensures var r := CloseUpvals(g, t);
            && r.sweepgc <= |r.rootgc| && ListSwept(r, r.sweepgc) && (forall u :: !OpenOf(r, u, t))
  {
    var r := CloseUpvals(g, t);
    var us := OpensOf(g, g.uvhead, t, true);
    assert r.rootgc[..r.sweepgc] == if g.sweepgc == 0 then [] else us + g.rootgc[..g.sweepgc];
    forall x | x in r.heap && !r.heap[x].kind.Str? && Home(r.heap[x], x) in r.rootgc[..r.sweepgc] ensures IsCurrent(r, x) {
      if OpenOf(g, x, t) {
        assert IsCurrent(g, x);
      } else {
        assert ObjectOk(g, x);
        assert Home(g.heap[x], x) !in us;
        assert IsCurrent(g, x);
      }
      hide Slots, OpensOf;
    }
  }

  lemma RemoveSwept(g: Global, i: nat)
    requires Structure(g) && g.sweepgc <= i < |g.rootgc| && ListSwept(g, g.sweepgc)
    ensures ListSwept(RemoveAt(g, i), g.sweepgc)
  {
    var r := RemoveAt(g, i);
    assert r.rootgc[..g.sweepgc] == g.rootgc[..g.sweepgc];
    forall x | x in r.heap && !r.heap[x].kind.Str? && Home(r.heap[x], x) in r.rootgc[..r.sweepgc] ensures IsCurrent(r, x) {
      assert IsCurrent(g, x);
    }
  }

  lemma WhitenSwept(g: Global)
    requires Structure(g) && g.sweepgc < |g.rootgc| && ListSwept(g, g.sweepgc)
    requires g.rootgc[g.sweepgc] in g.heap && OpensCurrent(g, g.rootgc[g.sweepgc])
    ensures ListSwept(WhitenAt(g), g.sweepgc + 1)
  {
    var r, x := WhitenAt(g), g.rootgc[g.sweepgc];
    assert r.rootgc[..g.sweepgc + 1] == g.rootgc[..g.sweepgc] + [x];
    forall y | y in r.heap && !r.heap[y].kind.Str? && Home(r.heap[y], y) in r.rootgc[..g.sweepgc + 1] ensures IsCurrent(r, y) {
      if y != x {
        assert OpenOf(g, y, x) || Home(g.heap[y], y) in g.rootgc[..g.sweepgc];
        assert IsCurrent(g, y);
      }
      hide Structure;
    }
  }

  /** Sweeps the object at the sweeper's place; a thread takes its open upvalues along. */
  function SweepOne(g: Global): Global
    requires g.sweepgc < |g.rootgc| && g.rootgc[g.sweepgc] in g.heap
  {
    var g1 := UpvalsFirst(g);
    if Doomed(g1, g.rootgc[g.sweepgc]) then FreeHere(g1) else WhitenAt(g1)
  }

  /** First the open upvalues, when it is a thread. */
  function UpvalsFirst(g: Global): (r: Global)
    requires g.sweepgc < |g.rootgc| && g.rootgc[g.sweepgc] in g.heap
    ensures g.rootgc[g.sweepgc] in r.heap && r.rootgc == g.rootgc && r.sweepgc == g.sweepgc
  {
    if g.heap[g.rootgc[g.sweepgc]].kind.Thread? then SweepUpvals(g, g.rootgc[g.sweepgc]) else g
  }

  /** Frees the object; closing a thread's upvalues puts them in front of it. */
  function FreeHere(g: Global): Global
    requires g.sweepgc < |g.rootgc|
  {
    var x := g.rootgc[g.sweepgc];
    var h := if x in g.heap && g.heap[x].kind.Thread? then CloseUpvals(g, x) else g;
    RemoveAt(h, |h.rootgc| - |g.rootgc| + g.sweepgc)
  }

  /** The invariant while the sweeper works on the root list. */
  ghost predicate Sweeping(g: Global)
  {
    Core(g) && StringsSwept(g, g.strsize) && ListSwept(g, g.sweepgc) && NoBlackOpen(g)
  }

  lemma UpvalsStep(g: Global)
    requires Sweeping(g) && g.sweepgc < |g.rootgc|
    ensures g.rootgc[g.sweepgc] in g.heap
    ensures var x, g1 := g.rootgc[g.sweepgc], UpvalsFirst(g);
            && Sweeping(g1) && OpensCurrent(g1, x) && g1.rootgc == g.rootgc && g1.sweepgc == g.sweepgc
            && x in g1.heap && g1.heap[x] == g.heap[x] && g1.heap.Keys <= g.heap.Keys && SweptTo(g, g1)
            && (!g.heap[x].kind.Thread? ==> forall u :: !OpenOf(g1, u, x))
  {
    var x := g.rootgc[g.sweepgc];
    assert x in g.rootgc;
    if g.heap[x].kind.Thread? {
      UpvalsSwept(g, x, g.sweepgc);
      UpvalsCore(g, x);
      UpvalsStrings(g, x);
      UpvalsSweptTo(g, x);
      hide Core, ListSwept, StringsSwept, SweptTo;
      assert !OpenOf(g, x, x);
    } else {
      SweptSelf(g);
      forall u ensures !OpenOf(g, u, x) {
        if u in g.heap {
          assert ObjectOk(g, u);
        }
      }
    }
  }

  lemma UpvalsStrings(g: Global, t: Ref)
    requires Structure(g) && StringsSwept(g, g.strsize)
    ensures StringsSwept(SweepUpvals(g, t), g.strsize)
  {
    var r := SweepUpvals(g, t);
    forall x | x in r.heap && r.heap[x].kind.Str? ensures IsCurrent(r, x) {
      assert IsCurrent(g, x);
    }
    hide Structure;
  }

  lemma FreeStep(g: Global)
    requires Sweeping(g) && g.sweepgc < |g.rootgc| && Doomed(g, g.rootgc[g.sweepgc]) && OpensCurrent(g, g.rootgc[g.sweepgc])
    requires !g.heap[g.rootgc[g.sweepgc]].kind.Thread? ==> forall u :: !OpenOf(g, u, g.rootgc[g.sweepgc])
    ensures var r := FreeHere(g);
            && Sweeping(r) && r.heap.Keys == g.heap.Keys - {g.rootgc[g.sweepgc]} && r.sweepgc >= g.sweepgc && SweptTo(g, r)
  {
    hide *;
    SweepingParts(g);
    var x := g.rootgc[g.sweepgc];
    InHeap(g, x);
    if g.heap[x].kind.Thread? {
      CloseStep(g, x);
      var h := CloseUpvals(g, x);
      RemoveStep(h, |h.rootgc| - |g.rootgc| + g.sweepgc);
      SweptTrans(g, h, RemoveAt(h, |h.rootgc| - |g.rootgc| + g.sweepgc));
    } else {
      RemoveStep(g, g.sweepgc);
    }
    FreeIs(g, x);
  }

  lemma InHeap(g: Global, x: Ref)
    requires Doomed(g, x)
    ensures x in g.heap
  {
  }

  lemma FreeIs(g: Global, x: Ref)
    requires g.sweepgc < |g.rootgc| && x == g.rootgc[g.sweepgc] && x in g.heap
    ensures g.heap[x].kind.Thread? ==> var h := CloseUpvals(g, x); |h.rootgc| >= |g.rootgc| && FreeHere(g) == RemoveAt(h, |h.rootgc| - |g.rootgc| + g.sweepgc)
    ensures !g.heap[x].kind.Thread? ==> FreeHere(g) == RemoveAt(g, g.sweepgc)
  {
  }

  lemma CloseStep(g: Global, x: Ref)
    requires Sweeping(g) && g.sweepgc < |g.rootgc| && x == g.rootgc[g.sweepgc] && Doomed(g, x) && OpensCurrent(g, x)
    requires g.heap[x].kind.Thread?
    ensures var h := CloseUpvals(g, x);
            var i := |h.rootgc| - |g.rootgc| + g.sweepgc;
            && Sweeping(h) && h.sweepgc <= i < |h.rootgc| && h.rootgc[i] == x && Doomed(h, x)
            && (forall u :: !OpenOf(h, u, x)) && h.heap.Keys == g.heap.Keys && h.sweepgc >= g.sweepgc && SweptTo(g, h)
  {
    hide *;
    SweepingParts(g);
    CloseSweptTo(g, x);
    InHeap(g, x);
    CloseSwept(g, x);
    CloseCore(g, x);
    CloseStrings(g, x);
    CloseFacts(g, x);
    var h := CloseUpvals(g, x);
    DoomedSame(g, h, x);
    SweepingWhole(h);
  }

  lemma SweepingParts(g: Global)
    requires Sweeping(g)
    ensures Core(g) && Structure(g) && 0 < g.strsize && g.sweepgc <= |g.rootgc| && StringsSwept(g, g.strsize) && ListSwept(g, g.sweepgc) && NoBlackOpen(g)
  {
  }

  lemma SweepingWhole(g: Global)
    requires Core(g) && 0 < g.strsize && g.sweepgc <= |g.rootgc| && StringsSwept(g, g.strsize) && ListSwept(g, g.sweepgc) && NoBlackOpen(g)
    ensures Sweeping(g)
  {
  }

  lemma DoomedSame(g: Global, h: Global, x: Ref)
    requires x in g.heap && x in h.heap && g.heap[x] == h.heap[x] && g.cur == h.cur
    ensures Doomed(g, x) <==> Doomed(h, x)
  {
  }

  lemma CloseFacts(g: Global, t: Ref)
    requires t in g.heap && g.heap[t].kind.Thread?
    ensures var r := CloseUpvals(g, t);
            && (NoBlackOpen(g) ==> NoBlackOpen(r)) && |r.rootgc| >= |g.rootgc| && r.rootgc[|r.rootgc| - |g.rootgc|..] == g.rootgc
            && r.heap.Keys == g.heap.Keys && r.heap[t] == g.heap[t] && r.cur == g.cur && r.strsize == g.strsize
            && r.sweepgc == if g.sweepgc == 0 then 0 else g.sweepgc + |r.rootgc| - |g.rootgc|
  {
  }

  lemma CloseStrings(g: Global, t: Ref)
    requires Structure(g) && StringsSwept(g, g.strsize)
    ensures StringsSwept(CloseUpvals(g, t), g.strsize)
  {
    var r := CloseUpvals(g, t);
    forall x | x in r.heap && r.heap[x].kind.Str? ensures IsCurrent(r, x) {
      assert IsCurrent(g, x);
    }
    hide Structure;
  }

  lemma RemoveStep(g: Global, i: nat)
    requires Sweeping(g) && g.sweepgc <= i < |g.rootgc| && Doomed(g, g.rootgc[i]) && forall u :: !OpenOf(g, u, g.rootgc[i])
    ensures var r := RemoveAt(g, i);
            Sweeping(r) && r.heap.Keys == g.heap.Keys - {g.rootgc[i]} && r.sweepgc == g.sweepgc && SweptTo(g, r)
  {
    var r := RemoveAt(g, i);
    RemoveSweptTo(g, i);
    hide SweptTo;
    RemoveSwept(g, i);
    RemoveCore(g, i);
    forall x | x in r.heap && r.heap[x].kind.Str? ensures IsCurrent(r, x) {
      assert IsCurrent(g, x);
    }
    hide Core, ListSwept, Structure;
  }

  lemma WhitenStep(g: Global)
    requires Sweeping(g) && g.sweepgc < |g.rootgc| && !Doomed(g, g.rootgc[g.sweepgc]) && OpensCurrent(g, g.rootgc[g.sweepgc])
    ensures g.rootgc[g.sweepgc] in g.heap
    ensures var r := WhitenAt(g); Sweeping(r) && r.heap.Keys == g.heap.Keys && r.sweepgc == g.sweepgc + 1 && SweptTo(g, r)
  {
    WhitenCore(g);
    WhitenSweptTo(g);
    hide SweptTo;
    WhitenSwept(g);
    var r := WhitenAt(g);
    forall x | x in r.heap && r.heap[x].kind.Str? ensures IsCurrent(r, x) {
      assert IsCurrent(g, x);
    }
    hide Core, ListSwept, Structure;
  }

  /** Objects still to be looked at: bounds what is left of the sweep. */
  function Left(g: Global): int
  {
    |g.heap| - g.sweepgc
  }

  lemma Listed(g: Global)
    requires Sweeping(g) && g.sweepgc < |g.rootgc|
    ensures g.rootgc[g.sweepgc] in g.heap
  {
    assert g.rootgc[g.sweepgc] in g.rootgc;
  }

  lemma SweepOneIs(g: Global)
    requires g.sweepgc < |g.rootgc| && g.rootgc[g.sweepgc] in g.heap
    ensures SweepOne(g) == if Doomed(UpvalsFirst(g), g.rootgc[g.sweepgc]) then FreeHere(UpvalsFirst(g)) else WhitenAt(UpvalsFirst(g))
    ensures SweepOne(g).phase == g.phase
  {
  }

  lemma LeftLess(g: Global, h: Global, r: Global, x: Ref)
    requires h.heap.Keys <= g.heap.Keys && h.sweepgc == g.sweepgc && x in h.heap
    requires (r.heap.Keys == h.heap.Keys - {x} && r.sweepgc >= h.sweepgc) || (r.heap.Keys == h.heap.Keys && r.sweepgc == h.sweepgc + 1)
    ensures Left(r) < Left(g)
  {
    Smaller(h.heap.Keys, g.heap.Keys);
    assert |h.heap| == |h.heap.Keys| && |g.heap| == |g.heap.Keys| && |r.heap| == |r.heap.Keys|;
  }

  /** Sweeping one object keeps the invariant, frees only what was found unreachable, and makes progress. */
  lemma SweepOneOk(g: Global)
    requires Sweeping(g) && g.sweepgc < |g.rootgc|
    ensures g.rootgc[g.sweepgc] in g.heap
    ensures var r := SweepOne(g);
            Sweeping(r) && Left(r) < Left(g) && SweptTo(g, r) && r.phase == g.phase
  {
    hide *;
    Listed(g);
    SweepOneIs(g);
    var x, g1 := g.rootgc[g.sweepgc], UpvalsFirst(g);
    UpvalsStep(g);
    if Doomed(g1, x) {
      FreeStep(g1);
    } else {
      WhitenStep(g1);
    }
    LeftLess(g, g1, SweepOne(g), x);
    SweptTrans(g, g1, SweepOne(g));
  }

  // ---------------------------------------------------------------- a step of the sweep

  /** Sweeps up to `n` objects. */
  function SweepSome(g: Global, n: nat): (r: Global)
    requires Sweeping(g)
    ensures Sweeping(r) && SweptTo(g, r) && Left(r) <= Left(g) && r.phase == g.phase
    ensures n > 0 && g.sweepgc < |g.rootgc| ==> Left(r) < Left(g)
    decreases n
  {
    if n == 0 || g.sweepgc >= |g.rootgc| then
      SweptSelf(g);
      g
    else
      SweepOneOk(g);
      SweptTrans(g, SweepOne(g), SweepSome(SweepOne(g), n - 1));
      SweepSome(SweepOne(g), n - 1)
  }

  function Strings(g: Global): set<Ref>
  {
    set x | x in g.heap && g.heap[x].kind.Str?
  }

  /** A string table that has become too large is halved. */
  function CheckSizes(g: Global): (r: Global)
  {
    if |Strings(g)| < g.strsize / 4 && g.strsize > MIN_STRINGS * 2 then g.(strsize := g.strsize / 2) else g
  }

  function SweepStep(g: Global): Global
    requires Sweeping(g)
  {
    var h := SweepSome(g, SWEEP_MAX);
    if h.sweepgc >= |h.rootgc| then CheckSizes(h).(phase := Finalize) else h
  }

  lemma OneKeepsSize(g: Global)
    requires Sweeping(g) && g.sweepgc < |g.rootgc| && g.rootgc[g.sweepgc] in g.heap
    ensures SweepOne(g).strsize == g.strsize
  {
    hide Sweeping, Doomed;
  }

  lemma SomeIs(g: Global, n: nat)
    requires Sweeping(g) && n > 0 && g.sweepgc < |g.rootgc| && g.rootgc[g.sweepgc] in g.heap && Sweeping(SweepOne(g))
    ensures SweepSome(g, n) == SweepSome(SweepOne(g), n - 1)
  {
    hide Sweeping, SweepOne, SweptTo;
  }

  lemma NoneLeft(g: Global, n: nat)
    requires Sweeping(g) && (n == 0 || g.sweepgc >= |g.rootgc|)
    ensures SweepSome(g, n) == g
  {
    hide Sweeping, SweepOne, SweptTo;
  }

  lemma {:induction false} SomeKeepsSize(g: Global, n: nat)
    requires Sweeping(g)
    ensures SweepSome(g, n).strsize == g.strsize
    decreases n
  {
    hide *;
    if n > 0 && g.sweepgc < |g.rootgc| {
      SweepOneOk(g);
      OneKeepsSize(g);
      SomeIs(g, n);
      SomeKeepsSize(SweepOne(g), n - 1);
    } else {
      NoneLeft(g, n);
    }
  }

  /** The string table is halved when sweeping ends with fewer strings than a quarter of its chains, and it has more than 64. */
  lemma HalvedMeans(g: Global)
    requires Sweeping(g)
    ensures var r := SweepStep(g);
            var strings := set x | x in r.heap && r.heap[x].kind.Str?;
            r.strsize == if r.sweepgc >= |r.rootgc| && |strings| < g.strsize / 4 && g.strsize > 64 then g.strsize / 2 else g.strsize
  {
    hide Sweeping, SweepSome, SweptTo, SweepStep;
    SomeKeepsSize(g, SWEEP_MAX);
    StepHalves(g, SweepSome(g, SWEEP_MAX));
  }

  lemma StepHalves(g: Global, h: Global)
    requires Sweeping(g) && h == SweepSome(g, SWEEP_MAX)
    ensures var r := SweepStep(g);
            var strings := set x | x in r.heap && r.heap[x].kind.Str?;
            r.strsize == if r.sweepgc >= |r.rootgc| && |strings| < h.strsize / 4 && h.strsize > 64 then h.strsize / 2 else h.strsize
  {
    hide Sweeping, SweepSome, SweptTo;
    assert Strings(h) == set x | x in SweepStep(g).heap && SweepStep(g).heap[x].kind.Str?;
  }

  /** When the sweeper is through, everything is white of the current cycle. */
  lemma SweptAll(g: Global)
    requires Sweeping(g) && g.sweepgc >= |g.rootgc|
    ensures AllCurrent(g)
  {
    assert g.rootgc[..g.sweepgc] == g.rootgc;
    forall x | x in g.heap ensures IsCurrent(g, x) {
      assert ObjectOk(g, x);
      if g.heap[x].kind.Open? {
        assert g.heap[x].kind.owner in g.rootgc;
      }
    }
    hide Interned, LiveClosed;
  }

  lemma Resized(g: Global, r: Global)
    requires Core(g) && AllCurrent(g) && r == g.(strsize := r.strsize, phase := Finalize) && 0 < r.strsize
    ensures Inv(r) && SweptTo(g, r)
  {
    forall x ensures Kept(g, r, x) {
    }
    assert forall x :: x in g.heap ==> IsCurrent(g, x);
    ResizedStructure(g, r);
    hide Kept, Structure, Interned;
    KeptClosed(g, r);
  }

  lemma ResizedStructure(g: Global, r: Global)
    requires Structure(g) && Interned(g) && r == g.(strsize := r.strsize, phase := r.phase) && 0 < r.strsize
    ensures Structure(r) && Interned(r)
  {
    forall x | x in g.heap ensures ObjectOk(r, x) {
      assert ObjectOk(g, x);
    }
    hide ObjectOk;
  }

  lemma SweepInv(g: Global)
    requires Inv(g) && g.phase.Sweep?
    ensures Sweeping(g) && Inv(SweepStep(g)) && SweptTo(g, SweepStep(g))
    ensures SweepStep(g).phase == Finalize || (SweepStep(g).phase == Sweep && Left(SweepStep(g)) < Left(g))
  {
    var h := SweepSome(g, SWEEP_MAX);
    hide *;
    SweepStepIs(g);
    if h.sweepgc >= |h.rootgc| {
      SweptAll(h);
      SweepingParts(h);
      Resized(h, SweepStep(g));
      SweptTrans(g, h, SweepStep(g));
    } else {
      SweepGoesOn(g, h);
    }
  }

  lemma SweepStepIs(g: Global)
    requires Sweeping(g)
    ensures var h := SweepSome(g, SWEEP_MAX);
            if h.sweepgc >= |h.rootgc| then 0 < SweepStep(g).strsize && SweepStep(g) == h.(strsize := SweepStep(g).strsize, phase := Finalize)
            else SweepStep(g) == h
  {
    SweepingParts(SweepSome(g, SWEEP_MAX));
    hide Sweeping, SweepSome, SweptTo;
  }

  lemma SweepGoesOn(g: Global, h: Global)
    requires Sweeping(g) && g.phase == Sweep && h == SweepSome(g, SWEEP_MAX) && h.sweepgc < |h.rootgc|
    ensures Inv(h) && Left(h) < Left(g)
  {
    hide Left, SweptTo;
  }
}
