/**
 What every operation of the code generator keeps of the code and the lists, and
 which registers it uses, whatever the code computes.
 */
module LuaShape {
  import opened Options
  import opened LuaVm
  import opened LuaCode
  import opened LuaLists

  /** Only new jumps, and those that were pending. */
  predicate NewOr(fs: FS, s: seq<nat>)
  {
    forall j :: j in s ==> j >= |fs.code| || j in fs.jpc
  }

  ghost predicate Ready(fs: FS)
  {
    Open(fs.code, fs.jpc) && Confined(fs.code) && fs.nactvar <= fs.freereg
  }

  /** `r` has come from `fs` by adding code and giving targets to pending jumps. */
  ghost predicate Grows(fs: FS, r: FS)
  {
    && r.nactvar == fs.nactvar && Refined(fs.code, r.code, Elems(fs.jpc)) && Confined(r.code)
    && Open(r.code, r.jpc) && NewOr(fs, r.jpc)
  }

  /** The code without an instruction whose target register is still open. */
  function Body(r: FS, e: Exp): seq<Instr>
  {
    if e.kind.KReloc? && e.kind.pc < |r.code| then r.code[..e.kind.pc] else r.code
  }

  /** A register a value may be in: a local, or the next free one. */
  predicate RegOk(fs: FS, q: nat)
  {
    q < fs.nactvar || q == fs.freereg
  }

  predicate KindOk(fs: FS, r: FS, k: Kind)
  {
    match k
    case KLit(_, _) => r.freereg == fs.freereg
    case KReg(q) => if q < fs.nactvar then r.freereg == fs.freereg else q == fs.freereg && r.freereg == fs.freereg + 1
    case KReloc(pc) =>
      && |fs.code| <= pc == |r.code| - 1 && r.code[pc].Not? && RegOk(fs, r.code[pc].b)
      && r.jpc == [] && r.freereg == fs.freereg && Confined(r.code[..pc])
    case KJmp(pc) =>
      && |fs.code| + 1 <= pc == |r.code| - 1 && r.code[pc] == Jmp(None) && r.code[pc - 1].Cmp?
      && r.jpc == [] && r.freereg == fs.freereg && Confined(r.code[..pc - 1])
  }

  /** A list of jumps out of the expression. */
  predicate ListOk(fs: FS, r: FS, s: seq<nat>)
  {
    Open(r.code, s) && NewOr(fs, s) && Apart(s, r.jpc)
  }

  /** An expression compiled from `fs` to `r`. */
  ghost predicate Shape(fs: FS, r: FS, e: Exp)
  {
    && Grows(fs, r) && KindOk(fs, r, e.kind)
    && ListOk(fs, r, e.t) && ListOk(fs, r, e.f) && Apart(e.t, e.f)
    && (e.kind.KJmp? ==> e.kind.pc !in e.t && e.kind.pc !in e.f)
  }

  /** Compiled up to a condition: going on here, or leaving by the list. */
  ghost predicate GoShape(fs: FS, g: FS, s: seq<nat>)
  {
    Grows(fs, g) && g.freereg == fs.freereg && ListOk(fs, g, s)
  }

  lemma RefinedSelf(fs: FS)
    requires Ready(fs)
    ensures Grows(fs, fs)
  {
    forall p | 0 <= p < |fs.code| ensures Replaces(fs.code[p], fs.code[p], p, Elems(fs.jpc)) {
      if p + 1 in fs.jpc {
        assert OpenJump(fs.code, p + 1);
      }
      if p in fs.jpc {
        assert OpenJump(fs.code, p);
      }
    }
  }

  lemma RefinedThrough(code: seq<Instr>, mid: seq<Instr>, more: seq<Instr>, h: set<nat>, h2: set<nat>)
    requires Confined(code) && Refined(code, mid, h) && Refined(mid, more, h2) && forall j :: j in h2 ==> j >= |code| || j in h
    ensures Refined(code, more, h)
  {
    forall p | 0 <= p < |code| ensures Replaces(code[p], more[p], p, h) {
      assert InstrOk(code, p);
      assert Replaces(code[p], mid[p], p, h) && Replaces(mid[p], more[p], p, h2);
    }
  }

  /** Code that differs only behind what `fs` had. */
  lemma RefinedBehind(code: seq<Instr>, mid: seq<Instr>, more: seq<Instr>, h: set<nat>)
    requires Refined(code, mid, h) && |code| <= |more| && forall p :: 0 <= p < |code| ==> more[p] == mid[p]
    ensures Refined(code, more, h)
  {
    forall p | 0 <= p < |code| ensures Replaces(code[p], more[p], p, h) {
      assert Replaces(code[p], mid[p], p, h);
    }
  }

  /** Open jumps that are not given a target stay open. */
  lemma StayOpen(code: seq<Instr>, more: seq<Instr>, h: set<nat>, s: seq<nat>)
    requires Refined(code, more, h) && Open(code, s) && forall j :: j in s ==> j !in h
    ensures Open(more, s)
  {
    forall j | j in s ensures OpenJump(more, j) {
      assert OpenJump(code, j) && Replaces(code[j], more[j], j, h);
      if j >= 1 {
        assert Replaces(code[j - 1], more[j - 1], j - 1, h);
      }
    }
  }

  // ---------------------------------------------------------------- a test and its jump

  lemma CondJumpGrows(fs: FS, r: FS, test: Instr)
    requires Confined(fs.code) && Grows(fs, r) && IsTest(test) && (test.TestSet? ==> test.to.None?)
    ensures var g := CondJump(r, test);
            && Grows(fs, g) && g.jpc == [] && Refined(r.code, g.code, Elems(r.jpc))
            && OpenJump(g.code, |g.code| - 1) && Tests(g.code, |g.code| - 1) && g.code[|g.code| - 2] == test && g.freereg == r.freereg
  {
    var n := |r.code|;
    var g := CondJump(r, test);
    CondJumpConfined(r, test);
    PatchRefines(r.code, r.jpc, n, None, n);
    RefinedMore(r.code, Patch(r.code, r.jpc, n, None, n), Elems(r.jpc), [test, Jmp(None)]);
    assert g.code == Patch(r.code, r.jpc, n, None, n) + [test, Jmp(None)];
    hide Refined, Confined, Patch;
    RefinedThrough(fs.code, r.code, g.code, Elems(fs.jpc), Elems(r.jpc));
  }

  lemma EmitGrows(fs: FS, r: FS, i: Instr)
    requires Confined(fs.code) && Grows(fs, r) && !IsTest(i) && !i.Jmp? && Within(i, |r.code|, |r.code| + 1)
    ensures var g := Emit(r, i);
            Grows(fs, g) && g.jpc == [] && Refined(r.code, g.code, Elems(r.jpc)) && g.freereg == r.freereg && |g.code| == |r.code| + 1 && g.code[|r.code|] == i
  {
    var n := |r.code|;
    var g := Emit(r, i);
    EmitConfined(r, i);
    PatchRefines(r.code, r.jpc, n, None, n);
    RefinedMore(r.code, Patch(r.code, r.jpc, n, None, n), Elems(r.jpc), [i]);
    hide Refined, Confined, Patch;
    RefinedThrough(fs.code, r.code, g.code, Elems(fs.jpc), Elems(r.jpc));
  }

  /** A list stays a list while pending jumps get their targets. */
  lemma ListStays(fs: FS, r: FS, g: FS, s: seq<nat>)
    requires ListOk(fs, r, s) && Refined(r.code, g.code, Elems(r.jpc)) && g.jpc == []
    ensures ListOk(fs, g, s)
  {
    hide Refined, Open;
    StayOpen(r.code, g.code, Elems(r.jpc), s);
  }

  // ---------------------------------------------------------------- conditions

  /** The generator when the value of `e` is in register `q`: a temporary is freed after the test. */
  lemma InAnyRegShape(fs: FS, r: FS, e: Exp)
    requires Ready(fs) && Shape(fs, r, e) && !e.kind.KJmp?
    ensures var (h, q) := InAnyReg(r, e);
            && Grows(fs, h) && RegOk(fs, q) && h.freereg == (if q < fs.nactvar then fs.freereg else fs.freereg + 1)
            && ListOk(fs, h, e.t) && ListOk(fs, h, e.f) && NewOr(fs, h.jpc)
  {
    match e.kind {
      case KReg(_) =>
      case KLit(Bool(b), _) => LoadShape(fs, Reserve(r), r, e, LoadBool(r.freereg, b, false));
      case KLit(v, _) => LoadShape(fs, Reserve(r), r, e, LoadK(r.freereg, v));
      case KReloc(pc) => RelocShape(fs, r, e, r.freereg);
      case KJmp(_) =>
    }
  }

  lemma LoadShape(fs: FS, h: FS, r: FS, e: Exp, i: Instr)
    requires Ready(fs) && Shape(fs, r, e) && h == r.(freereg := h.freereg) && !IsTest(i) && !i.Jmp? && Within(i, |r.code|, |r.code| + 1)
    ensures Grows(fs, Emit(h, i)) && ListOk(fs, Emit(h, i), e.t) && ListOk(fs, Emit(h, i), e.f) && Emit(h, i).freereg == h.freereg
  {
    EmitGrows(fs, h, i);
    ListStays(fs, h, Emit(h, i), e.t);
    ListStays(fs, h, Emit(h, i), e.f);
  }

  /** The open target register of the last instruction is filled in. */
  lemma RelocShape(fs: FS, r: FS, e: Exp, reg: nat)
    requires Ready(fs) && Shape(fs, r, e) && e.kind.KReloc?
    ensures var h := r.(code := r.code[e.kind.pc := WithA(r.code[e.kind.pc], reg)]);
            Grows(fs, h) && ListOk(fs, h, e.t) && ListOk(fs, h, e.f)
  {
    var pc := e.kind.pc;
    var h := r.(code := r.code[pc := WithA(r.code[pc], reg)]);
    RefinedBehind(fs.code, r.code, h.code, Elems(fs.jpc));
    forall j | OpenJump(r.code, j) ensures OpenJump(h.code, j) {
    }
    forall p | 0 <= p < |h.code| ensures InstrOk(h.code, p) {
      assert InstrOk(r.code, p);
    }
    hide Refined, Within, OpenJump;
  }

  /** The jump of a condition, and the lists as they were. */
  ghost predicate Jumped(fs: FS, e: Exp, g: FS)
  {
    && Grows(fs, g) && g.freereg == fs.freereg && g.jpc == [] && g.code != []
    && OpenJump(g.code, |g.code| - 1) && |g.code| - 1 >= |fs.code|
    && |g.code| - 1 !in e.t && |g.code| - 1 !in e.f && ListOk(fs, g, e.t) && ListOk(fs, g, e.f)
  }

  lemma JumpOnCondShape(fs: FS, r: FS, e: Exp, cond: bool)
    requires Ready(fs) && Shape(fs, r, e) && !e.kind.KJmp?
    ensures Jumped(fs, e, JumpOnCond(r, e, cond))
  {
    if e.kind.KReloc? {
      NotRemoved(fs, r, e, Test(r.code[e.kind.pc].b, !cond));
    } else {
      InAnyRegShape(fs, r, e);
      var (h, q) := InAnyReg(r, e);
      var h1 := FreeExp(h, Exp(KReg(q), [], []));
      assert Grows(fs, h1) && h1.freereg == fs.freereg && ListOk(fs, h1, e.t) && ListOk(fs, h1, e.f) by {
        hide Refined, Confined, InAnyReg, CondJump;
      }
      hide *;
      JumpedBy(fs, h1, e, TestSet(None, q, cond));
      JumpOnCondIs(r, e, cond);
    }
  }

  lemma JumpOnCondIs(r: FS, e: Exp, cond: bool)
    requires !e.kind.KReloc?
    ensures var (h, q) := InAnyReg(r, e); JumpOnCond(r, e, cond) == CondJump(FreeExp(h, Exp(KReg(q), [], [])), TestSet(None, q, cond))
  {
    hide CondJump, InAnyReg;
  }

  lemma JumpedBy(fs: FS, h: FS, e: Exp, test: Instr)
    requires Ready(fs) && Grows(fs, h) && h.freereg == fs.freereg && ListOk(fs, h, e.t) && ListOk(fs, h, e.f)
    requires IsTest(test) && (test.TestSet? ==> test.to.None?)
    ensures Jumped(fs, e, CondJump(h, test))
  {
    var g := CondJump(h, test);
    CondJumpGrows(fs, h, test);
    assert |h.code| >= |fs.code|;
    hide CondJump, Refined, Confined;
    ListStays(fs, h, g, e.t);
    ListStays(fs, h, g, e.f);
    FreshJump(h, g, e.t);
    FreshJump(h, g, e.f);
  }

  lemma FreshJump(h: FS, g: FS, s: seq<nat>)
    requires Open(h.code, s) && |g.code| - 1 >= |h.code|
    ensures |g.code| - 1 !in s
  {
    forall j | j in s ensures j < |h.code| {
      assert OpenJump(h.code, j);
    }
  }

  /** A `not` is taken back and its operand tested the other way round. */
  lemma NotRemoved(fs: FS, r: FS, e: Exp, test: Instr)
    requires Ready(fs) && Shape(fs, r, e) && e.kind.KReloc? && test.Test?
    ensures Jumped(fs, e, CondJump(r.(code := r.code[..|r.code| - 1]), test))
  {
    var h := r.(code := r.code[..|r.code| - 1]);
    var g := CondJump(h, test);
    RefinedBehind(fs.code, r.code, h.code, Elems(fs.jpc));
    Prefix(r.code, e.t, |r.code| - 1);
    Prefix(r.code, e.f, |r.code| - 1);
    hide Refined, Confined, Open;
    assert Grows(fs, h);
    JumpedBy(fs, h, e, test);
  }

  /** Open jumps before an instruction that is none. */
  lemma Prefix(code: seq<Instr>, s: seq<nat>, n: nat)
    requires Open(code, s) && n + 1 == |code| && !code[n].Jmp?
    ensures Open(code[..n], s)
  {
    forall j | j in s ensures OpenJump(code[..n], j) {
      assert OpenJump(code, j);
    }
  }

  lemma GoIfTrueShape(fs: FS, r: FS, e: Exp)
    requires Ready(fs) && Shape(fs, r, e)
    ensures var (g, s) := GoIfTrue(r, e); GoShape(fs, g, s)
  {
    match e.kind {
      case KLit(Bool(b), _) =>
        if b {
          MoveList(fs, r, e.t, e.f);
        } else {
          JumpToShape(fs, r, e, e.t, e.f);
        }
      case KLit(Other(_), _) => MoveList(fs, r, e.t, e.f);
      case KJmp(pc) => InvertedShape(fs, r, e);
      case _ =>
        JumpOnCondShape(fs, r, e, false);
        hide JumpOnCond;
        JoinLists(fs, JumpOnCond(r, e, false), e.t, e.f);
    }
  }

  lemma GoIfFalseShape(fs: FS, r: FS, e: Exp)
    requires Ready(fs) && Shape(fs, r, e)
    ensures var (g, s) := GoIfFalse(r, e); GoShape(fs, g, s)
  {
    match e.kind {
      case KLit(Bool(b), _) =>
        if b {
          JumpToShape(fs, r, e, e.f, e.t);
        } else {
          MoveList(fs, r, e.f, e.t);
        }
      case KLit(Nil, _) => MoveList(fs, r, e.f, e.t);
      case KJmp(pc) => JmpShape(fs, r, e);
      case _ =>
        JumpOnCondShape(fs, r, e, true);
        hide JumpOnCond;
        JoinLists(fs, JumpOnCond(r, e, true), e.f, e.t);
    }
  }

  /** One list becomes pending, the other gets the new jump. */
  lemma JoinLists(fs: FS, g: FS, here: seq<nat>, s: seq<nat>)
    requires Grows(fs, g) && g.freereg == fs.freereg && g.jpc == [] && g.code != [] && OpenJump(g.code, |g.code| - 1) && |g.code| - 1 >= |fs.code|
    requires |g.code| - 1 !in here && ListOk(fs, g, here) && ListOk(fs, g, s) && Apart(s, here)
    ensures GoShape(fs, g.(jpc := g.jpc + here), s + [|g.code| - 1 as nat])
  {
    hide Refined, Confined, OpenJump;
  }

  lemma MoveList(fs: FS, g: FS, here: seq<nat>, s: seq<nat>)
    requires Grows(fs, g) && g.freereg == fs.freereg && ListOk(fs, g, here) && ListOk(fs, g, s) && Apart(s, here)
    ensures GoShape(fs, g.(jpc := g.jpc + here), s + [])
  {
    hide Refined, Confined, OpenJump;
    assert s + [] == s;
  }

  /** The unconditional jump of a literal: it takes the pending jumps along into the list. */
  lemma JumpToShape(fs: FS, r: FS, e: Exp, here: seq<nat>, s: seq<nat>)
    requires Ready(fs) && Grows(fs, r) && r.freereg == fs.freereg && ListOk(fs, r, here) && ListOk(fs, r, s) && Apart(s, here)
    ensures var h := JumpTo(r); GoShape(fs, h.(jpc := h.jpc + here), s + JumpList(r))
  {
    var h := JumpTo(r);
    RefinedBehind(fs.code, r.code, h.code, Elems(fs.jpc));
    forall j: nat | OpenJump(r.code, j) ensures OpenJump(h.code, j) && j < |r.code| {
    }
    assert OpenJump(h.code, |r.code|) by { LastNoTest(r.code); }
    forall p | 0 <= p < |h.code| ensures InstrOk(h.code, p) {
      if p < |r.code| {
        assert InstrOk(r.code, p);
      }
    }
    hide Refined, Within, OpenJump;
  }

  lemma LastNoTest(code: seq<Instr>)
    requires Confined(code)
    ensures !Tests(code, |code|)
  {
    if code != [] {
      var p := |code| - 1;
      assert InstrOk(code, p);
    }
  }

  /** A comparison's jump goes into a list as it is. */
  lemma JmpShape(fs: FS, r: FS, e: Exp)
    requires Ready(fs) && Shape(fs, r, e) && e.kind.KJmp?
    ensures GoShape(fs, r.(jpc := r.jpc + e.f), e.t + [e.kind.pc])
    ensures GoShape(fs, r.(jpc := r.jpc + e.t), e.f + [e.kind.pc])
  {
    assert OpenJump(r.code, e.kind.pc);
    hide Refined, Confined, OpenJump;
  }

  lemma InvertGrows(fs: FS, r: FS, e: Exp)
    requires Ready(fs) && Shape(fs, r, e) && e.kind.KJmp?
    ensures var h := r.(code := InvertJump(r.code, e.kind.pc)); Shape(fs, h, e)
  {
    var pc := e.kind.pc;
    var h := r.(code := InvertJump(r.code, pc));
    RefinedBehind(fs.code, r.code, h.code, Elems(fs.jpc));
    forall j | OpenJump(r.code, j) ensures OpenJump(h.code, j) {
    }
    forall p | 0 <= p < |h.code| ensures InstrOk(h.code, p) {
      assert InstrOk(r.code, p);
    }
    assert h.code[..pc - 1] == r.code[..pc - 1];
    assert h.code[pc - 1].Cmp? && h.code[pc] == r.code[pc];
    assert KindOk(fs, h, e.kind) && Grows(fs, h);
    hide Refined, Within, OpenJump, KindOk, Grows;
  }

  lemma InvertedShape(fs: FS, r: FS, e: Exp)
    requires Ready(fs) && Shape(fs, r, e) && e.kind.KJmp?
    ensures var h := r.(code := InvertJump(r.code, e.kind.pc)); GoShape(fs, h.(jpc := h.jpc + e.t), e.f + [e.kind.pc])
  {
    InvertGrows(fs, r, e);
    JmpShape(fs, r.(code := InvertJump(r.code, e.kind.pc)), e);
  }

  // ---------------------------------------------------------------- negation

  lemma RemoveRefines(code: seq<Instr>, s: seq<nat>)
    requires Open(code, s) && Confined(code)
    ensures Refined(code, RemoveValues(code, s), Elems(s)) && Confined(RemoveValues(code, s))
    ensures forall j: nat :: OpenJump(code, j) ==> OpenJump(RemoveValues(code, s), j)
  {
    var r := RemoveValues(code, s);
    forall p | 0 <= p < |code| ensures Replaces(code[p], r[p], p, Elems(s)) && Weaker(code[p], r[p]) {
      if p + 1 in s {
        assert OpenJump(code, p + 1);
      }
      if p in s {
        assert OpenJump(code, p);
      }
    }
    hide RemoveValues, Elems;
    ConfinedWeaker(code, r);
  }

  /** The same instruction, or a test that has stopped keeping its value. */
  predicate Weaker(i: Instr, j: Instr)
  {
    j == i || (i.TestSet? && j.Test?)
  }

  lemma ConfinedWeaker(code: seq<Instr>, more: seq<Instr>)
    requires |code| == |more| && Confined(code) && forall p :: 0 <= p < |code| ==> Weaker(code[p], more[p])
    ensures Confined(more)
  {
    forall p | 0 <= p < |more| ensures InstrOk(more, p) {
      assert Weaker(code[p], more[p]) && InstrOk(code, p);
      if IsTest(code[p]) {
        assert Weaker(code[p + 1], more[p + 1]);
      }
    }
  }

  /** Jumps that carry no value any more are still the same lists. */
  lemma RemoveShape(fs: FS, r: FS, e: Exp, s: seq<nat>)
    requires Ready(fs) && Shape(fs, r, e) && (s == e.t || s == e.f)
    ensures Shape(fs, r.(code := RemoveValues(r.code, s)), e)
  {
    var h := r.(code := RemoveValues(r.code, s));
    RemoveRefines(r.code, s);
    RefinedThrough(fs.code, r.code, h.code, Elems(fs.jpc), Elems(s));
    RemoveKind(fs, r, e.kind, s);
    hide Refined, Confined, OpenJump, RemoveValues, KindOk;
  }

  lemma RemoveKind(fs: FS, r: FS, k: Kind, s: seq<nat>)
    requires KindOk(fs, r, k)
    ensures KindOk(fs, r.(code := RemoveValues(r.code, s)), k)
  {
    var more := RemoveValues(r.code, s);
    forall p | 0 <= p < |more| ensures Weaker(r.code[p], more[p]) {
    }
    hide RemoveValues;
    match k {
      case KReloc(pc) =>
        assert Weaker(r.code[pc], more[pc]);
        ConfinedPrefix(r.code, more, pc);
      case KJmp(pc) =>
        assert Weaker(r.code[pc], more[pc]) && Weaker(r.code[pc - 1], more[pc - 1]);
        ConfinedPrefix(r.code, more, pc - 1);
      case _ =>
    }
  }

  lemma ConfinedPrefix(code: seq<Instr>, more: seq<Instr>, n: nat)
    requires n <= |code| == |more| && Confined(code[..n]) && forall p :: 0 <= p < |code| ==> Weaker(code[p], more[p])
    ensures Confined(more[..n])
  {
    forall p | 0 <= p < n ensures Weaker(code[..n][p], more[..n][p]) {
      assert Weaker(code[p], more[p]);
    }
    hide Weaker;
    ConfinedWeaker(code[..n], more[..n]);
  }

  /** The code before an emitted instruction is confined by itself: pending jumps lead just behind it. */
  lemma EmitBody(r: FS, i: Instr)
    requires Open(r.code, r.jpc) && Confined(r.code)
    ensures Confined(Emit(r, i).code[..|r.code|])
  {
    var n := |r.code|;
    var body := Emit(r, i).code[..n];
    forall p | 0 <= p < n ensures InstrOk(body, p) {
      PatchedWithin(r.code, r.jpc, n, None, n, n, p);
    }
  }

  /** A `not` instruction, its target register open. */
  lemma NotShape(fs: FS, h: FS, q: nat, e: Exp)
    requires Ready(fs) && Grows(fs, h) && h.freereg == fs.freereg && RegOk(fs, q) && ListOk(fs, h, e.t) && ListOk(fs, h, e.f) && Apart(e.t, e.f)
    ensures var g := Emit(h, Instr.Not(0, q)); Shape(fs, g, Exp(KReloc(|g.code| - 1), e.t, e.f))
  {
    var i := Instr.Not(0, q);
    var g := Emit(h, i);
    EmitGrows(fs, h, i);
    EmitBody(h, i);
    assert |h.code| >= |fs.code|;
    hide Emit, Refined, Confined;
    ListStays(fs, h, g, e.t);
    ListStays(fs, h, g, e.f);
  }

  lemma NotValueShape(fs: FS, r: FS, e: Exp)
    requires Ready(fs) && Shape(fs, r, e)
    ensures var (h, k) := NotValue(r, e); Shape(fs, h, Exp(k, e.t, e.f))
  {
    match e.kind {
      case KLit(v, fits) =>
      case KJmp(pc) => InvertGrows(fs, r, e);
      case _ =>
        InAnyRegShape(fs, r, e);
        var (g, q) := InAnyReg(r, e);
        hide InAnyReg, Emit, Refined, Confined, OpenJump;
        NotShape(fs, FreeExp(g, Exp(KReg(q), [], [])), q, e);
    }
  }

  lemma CodeNotShape(fs: FS, r: FS, e: Exp)
    requires Ready(fs) && Shape(fs, r, e)
    ensures var (g, e') := CodeNot(r, e); Shape(fs, g, e')
  {
    hide Shape, NotValue, RemoveValues;
    NotValueShape(fs, r, e);
    var (h, k) := NotValue(r, e);
    var e1 := Exp(k, e.t, e.f);
    RemoveShape(fs, h, e1, e.t);
    var h1 := h.(code := RemoveValues(h.code, e.t));
    RemoveShape(fs, h1, e1, e.f);
    SwapShape(fs, h1.(code := RemoveValues(h1.code, e.f)), k, e.t, e.f);
  }

  lemma SwapShape(fs: FS, r: FS, k: Kind, t: seq<nat>, f: seq<nat>)
    requires Shape(fs, r, Exp(k, t, f))
    ensures Shape(fs, r, Exp(k, f, t))
  {
    hide Grows, KindOk, Open, NewOr;
  }

  // ---------------------------------------------------------------- into a register

  /** Two lists given their targets: what becomes of the code. */
  lemma PatchBothOk(code: seq<Instr>, f: seq<nat>, t: seq<nat>, reg: nat, lf: nat, lt: nat)
    requires Open(code, f) && Open(code, t) && Apart(t, f) && Confined(code)
    requires lf <= |code| && lt <= |code| && (forall j :: j in f ==> j < lf) && (forall j :: j in t ==> j < lt)
    ensures var r := PatchBoth(code, f, t, reg, lf, lt);
            && |r| == |code| && Refined(code, r, Elems(f + t)) && Confined(r)
            && (forall p :: 0 <= p < |code| ==> r[p] == BothAt(code, f, t, reg, lf, lt, p))
  {
    var n := |code|;
    var c1 := Patch(code, f, n, Some(reg), lf);
    var r := Patch(c1, t, n, Some(reg), lt);
    forall p | 0 <= p < n ensures r[p] == BothAt(code, f, t, reg, lf, lt, p) && Replaces(code[p], r[p], p, Elems(f + t)) && InstrOk(r, p) {
      BothOne(code, f, t, reg, lf, lt, p);
      if IsTest(r[p]) {
        assert InstrOk(code, p);
        BothOne(code, f, t, reg, lf, lt, p + 1);
      }
    }
  }

  function BothAt(code: seq<Instr>, f: seq<nat>, t: seq<nat>, reg: nat, lf: nat, lt: nat, p: nat): Instr
    requires p < |code|
  {
    if p in f then Jmp(Some(if TestsSet(code, p) then |code| else lf))
    else if p in t then Jmp(Some(if TestsSet(code, p) then |code| else lt))
    else if code[p].TestSet? && (p + 1 in f || p + 1 in t) then Settled(code[p], Some(reg))
    else code[p]
  }

  lemma BothOne(code: seq<Instr>, f: seq<nat>, t: seq<nat>, reg: nat, lf: nat, lt: nat, p: nat)
    requires Open(code, f) && Open(code, t) && Apart(t, f) && Confined(code) && p < |code|
    requires lf <= |code| && lt <= |code| && (forall j :: j in f ==> j < lf) && (forall j :: j in t ==> j < lt)
    ensures var r := PatchBoth(code, f, t, reg, lf, lt);
            && |r| == |code| && r[p] == BothAt(code, f, t, reg, lf, lt, p)
            && Replaces(code[p], r[p], p, Elems(f + t)) && Within(r[p], p, |code|)
            && (IsTest(r[p]) ==> IsTest(code[p])) && (code[p].Jmp? ==> r[p].Jmp?)
  {
    var n := |code|;
    var c1 := Patch(code, f, n, Some(reg), lf);
    assert InstrOk(code, p);
    if p in f || p in t {
      assert OpenJump(code, p);
    }
    if p + 1 in f || p + 1 in t {
      assert OpenJump(code, p + 1);
    }
    if p >= 1 && p in t {
      assert c1[p - 1] == PatchedInstr(code, f, n, Some(reg), lf, p - 1);
      assert p - 1 !in f || !IsTest(code[p - 1]) by { assert p - 1 in f ==> OpenJump(code, p - 1); }
    }
  }

  /** Both lists of an expression, on code that has grown. */
  ghost predicate HasLists(fs: FS, h: FS, e: Exp)
  {
    Grows(fs, h) && ListOk(fs, h, TrueJumps(e)) && ListOk(fs, h, e.f) && Apart(TrueJumps(e), e.f)
  }

  lemma DischargeShape(fs: FS, r: FS, n: nat, e: Exp, reg: nat)
    requires Ready(fs) && Shape(fs, r.(freereg := n), e)
    ensures HasLists(fs, Discharge2Reg(r, e, reg), e) && Discharge2Reg(r, e, reg).freereg == r.freereg
    ensures e.kind.KJmp? ==> Discharge2Reg(r, e, reg) == r && r.jpc == []
  {
    var r0 := r.(freereg := n);
    match e.kind {
      case KLit(Bool(b), _) => LoadShape(fs, r, r0, e, LoadBool(reg, b, false));
      case KLit(v, _) => LoadShape(fs, r, r0, e, LoadK(reg, v));
      case KReloc(pc) => RelocShape(fs, r0, e, reg);
      case KReg(q) =>
        if q != reg {
          LoadShape(fs, r, r0, e, Move(reg, q));
        }
      case KJmp(pc) => assert OpenJump(r.code, pc);
    }
    hide Refined, Confined, OpenJump, Emit;
  }

  lemma LoadBothShape(fs: FS, g: FS, reg: nat)
    requires Ready(fs) && Grows(fs, g)
    ensures var k := LoadBoth(g, reg);
            && Grows(fs, k) && k.jpc == [] && |k.code| == |g.code| + 2 && k.freereg == g.freereg && Refined(g.code, k.code, Elems(g.jpc))
            && k.code == Emit(g, LoadBool(reg, false, true)).code + [LoadBool(reg, true, false)]
  {
    var n := |g.code|;
    var i, i2 := LoadBool(reg, false, true), LoadBool(reg, true, false);
    var g1 := Emit(g, i);
    var k := LoadBoth(g, reg);
    assert Patch(g1.code, [], n + 1, None, n + 1) == g1.code;
    assert k.code == Patch(g.code, g.jpc, n, None, n) + [i, i2];
    PatchRefines(g.code, g.jpc, n, None, n);
    RefinedMore(g.code, Patch(g.code, g.jpc, n, None, n), Elems(g.jpc), [i, i2]);
    forall p | 0 <= p < |k.code| ensures InstrOk(k.code, p) {
      if p < n {
        PatchedWithin(g.code, g.jpc, n, None, n, n, p);
      }
    }
    hide Refined, Patch;
    RefinedThrough(fs.code, g.code, k.code, Elems(fs.jpc), Elems(g.jpc));
  }

  /** The jump over the loads, which takes the pending jumps along. */
  lemma SkipShape(fs: FS, h: FS, e: Exp)
    requires Ready(fs) && HasLists(fs, h, e)
    ensures var g := JumpTo(h);
            && HasLists(fs, g, e) && g.jpc == [] && ListOk(fs, g, JumpList(h)) && Apart(JumpList(h), TrueJumps(e)) && Apart(JumpList(h), e.f)
  {
    var g := JumpTo(h);
    RefinedBehind(fs.code, h.code, g.code, Elems(fs.jpc));
    forall j: nat | OpenJump(h.code, j) ensures OpenJump(g.code, j) && j < |h.code| {
    }
    assert OpenJump(g.code, |h.code|) by { LastNoTest(h.code); }
    forall p | 0 <= p < |g.code| ensures InstrOk(g.code, p) {
      if p < |h.code| {
        assert InstrOk(h.code, p);
      }
    }
    hide Refined, Within, OpenJump;
  }

  /** Giving both lists their targets. */
  lemma CloseShape(fs: FS, k: FS, e: Exp, reg: nat, lf: nat, lt: nat, fj: seq<nat>)
    requires Ready(fs) && HasLists(fs, k, e) && Open(k.code, fj) && NewOr(fs, fj) && Apart(fj, TrueJumps(e)) && Apart(fj, e.f)
    requires lf <= |k.code| && lt <= |k.code| && (forall j :: j in e.f ==> j < lf) && (forall j :: j in TrueJumps(e) ==> j < lt)
    ensures Grows(fs, k.(code := PatchBoth(k.code, e.f, TrueJumps(e), reg, lf, lt), jpc := fj))
  {
    var t := TrueJumps(e);
    var c2 := PatchBoth(k.code, e.f, t, reg, lf, lt);
    PatchBothOk(k.code, e.f, t, reg, lf, lt);
    hide Refined, Confined, PatchBoth, TrueJumps;
    RefinedThrough(fs.code, k.code, c2, Elems(fs.jpc), Elems(e.f + t));
    StayOpen(k.code, c2, Elems(e.f + t), fj);
  }

  /** The generator once an expression's value is wanted in a register, before its lists are closed. */
  function Landed(h: FS, e: Exp, reg: nat): FS
  {
    LoadBoth(if e.kind.KJmp? then h else JumpTo(h), reg)
  }

  lemma LandedShape(fs: FS, h: FS, e: Exp, reg: nat)
    requires Ready(fs) && HasLists(fs, h, e) && (e.kind.KJmp? ==> h.jpc == [])
    ensures var k := Landed(h, e, reg); var fj := if e.kind.KJmp? then [] else JumpList(h);
            && HasLists(fs, k, e) && Open(k.code, fj) && NewOr(fs, fj) && Apart(fj, TrueJumps(e)) && Apart(fj, e.f) && k.freereg == h.freereg
            && (forall j :: j in e.f ==> j < |h.code|) && (forall j :: j in TrueJumps(e) ==> j < |h.code|)
  {
    var g := if e.kind.KJmp? then h else JumpTo(h);
    var k := LoadBoth(g, reg);
    if !e.kind.KJmp? {
      SkipShape(fs, h, e);
    }
    LoadBothShape(fs, g, reg);
    assert forall j: nat :: OpenJump(h.code, j) ==> j < |h.code|;
    hide Refined, Confined, LoadBoth, OpenJump;
    ListStays(fs, g, k, TrueJumps(e));
    ListStays(fs, g, k, e.f);
    if !e.kind.KJmp? {
      ListStays(fs, g, k, JumpList(h));
    }
  }

  lemma Exp2RegShape(fs: FS, r: FS, n: nat, e: Exp, reg: nat)
    requires Ready(fs) && Shape(fs, r.(freereg := n), e)
    ensures Grows(fs, Exp2Reg(r, e, reg)) && Exp2Reg(r, e, reg).freereg == r.freereg
  {
    hide *;
    var h := Discharge2Reg(r, e, reg);
    DischargeShape(fs, r, n, e, reg);
    JpcApart(fs, h, e);
    Exp2RegIs(r, e, reg);
    if TrueJumps(e) == [] && e.f == [] {
    } else if NeedValue(h.code, TrueJumps(e)) || NeedValue(h.code, e.f) {
      LandedShape(fs, h, e, reg);
      LandedSize(h, e, reg);
      var g := if e.kind.KJmp? then h else JumpTo(h);
      CloseShape(fs, Landed(h, e, reg), e, reg, |g.code|, |g.code| + 1, if e.kind.KJmp? then [] else JumpList(h));
    } else {
      CloseShape(fs, h, e, reg, |h.code|, |h.code|, h.jpc);
    }
  }

  lemma Exp2RegIs(r: FS, e: Exp, reg: nat)
    ensures var h := Discharge2Reg(r, e, reg);
            Exp2Reg(r, e, reg) ==
              if TrueJumps(e) == [] && e.f == [] then h
              else if NeedValue(h.code, TrueJumps(e)) || NeedValue(h.code, e.f) then
                var k, g := Landed(h, e, reg), if e.kind.KJmp? then h else JumpTo(h);
                k.(code := PatchBoth(k.code, e.f, TrueJumps(e), reg, |g.code|, |g.code| + 1), jpc := if e.kind.KJmp? then [] else JumpList(h))
              else h.(code := PatchBoth(h.code, e.f, TrueJumps(e), reg, |h.code|, |h.code|))
  {
    hide Discharge2Reg, TrueJumps, LoadBoth, PatchBoth;
  }

  lemma LandedSize(h: FS, e: Exp, reg: nat)
    ensures var g := if e.kind.KJmp? then h else JumpTo(h);
            |h.code| <= |g.code| && |Landed(h, e, reg).code| == |g.code| + 2
  {
  }

  lemma JpcApart(fs: FS, h: FS, e: Exp)
    requires HasLists(fs, h, e)
    ensures Apart(h.jpc, TrueJumps(e)) && Apart(h.jpc, e.f) && Open(h.code, h.jpc) && NewOr(fs, h.jpc) && Grows(fs, h)
    ensures (forall j :: j in e.f ==> j < |h.code|) && (forall j :: j in TrueJumps(e) ==> j < |h.code|)
  {
    assert forall j: nat :: OpenJump(h.code, j) ==> j < |h.code|;
    hide Grows, OpenJump, TrueJumps;
    assert Grows(fs, h);
  }

  // ---------------------------------------------------------------- operands and whole expressions

  /** An operand: a literal, a local, or the temporary that has just been taken. */
  predicate OperandOk(fs: FS, h: FS, e: Exp, o: RK)
  {
    match o
    case K(_) => !e.kind.KReg? && h.freereg == fs.freereg
    case Reg(q) => e.kind == KReg(q) && if q < fs.nactvar then h.freereg == fs.freereg else q == fs.freereg && h.freereg == fs.freereg + 1
  }

  lemma NextRegShape(fs: FS, r: FS, e: Exp)
    requires Ready(fs) && Shape(fs, r, e)
    ensures var h := Exp2NextReg(r, e); Grows(fs, h) && h.freereg == fs.freereg + 1
    ensures Exp2NextReg(r, e) == Exp2Reg(r.(freereg := fs.freereg + 1), e, fs.freereg)
  {
    var h := Reserve(FreeExp(r, e));
    assert h == r.(freereg := fs.freereg + 1);
    hide Grows, ListOk, Exp2Reg;
    Exp2RegShape(fs, h, r.freereg, e, fs.freereg);
  }

  lemma Exp2RKShape(fs: FS, r: FS, e: Exp)
    requires Ready(fs) && Shape(fs, r, e)
    ensures var (h, e1, o) := Exp2RK(r, e); Grows(fs, h) && OperandOk(fs, h, e1, o)
  {
    GrowsLonger(fs, r);
    hide Grows, ListOk, Exp2NextReg, Exp2Reg;
    if e.kind.KLit? && e.kind.fits && !HasJumps(e) {
    } else if e.kind.KReg? && (e.kind.r >= fs.nactvar || !HasJumps(e)) {
      Exp2RegShape(fs, r, r.freereg, e, e.kind.r);
    } else {
      NextRegShape(fs, r, e);
    }
  }

  /** Freeing the operands' temporaries, in this order, gives back all registers. */
  lemma FreeBoth(fs: FS, h1: FS, ea: Exp, oa: RK, h3: FS, eb: Exp, ob: RK)
    requires fs.nactvar <= fs.freereg && h1.nactvar == fs.nactvar == h3.nactvar && OperandOk(fs, h1, ea, oa) && OperandOk(h1, h3, eb, ob)
    ensures FreeExp(FreeExp(h3, eb), ea) == h3.(freereg := fs.freereg)
  {
  }

  lemma GrowsTrans(fs: FS, g: FS, k: FS)
    requires Ready(fs) && Grows(fs, g) && Grows(g, k)
    ensures Grows(fs, k)
  {
    hide Confined, Open;
    RefinedThrough(fs.code, g.code, k.code, Elems(fs.jpc), Elems(g.jpc));
  }

  /** A list stays what it is while the second operand is compiled. */
  lemma ListAcross(fs: FS, g: FS, k: FS, s: seq<nat>)
    requires ListOk(fs, g, s) && Grows(g, k)
    ensures ListOk(fs, k, s)
  {
    StayOpen(g.code, k.code, Elems(g.jpc), s);
    assert forall j :: j in s ==> j < |g.code| by { assert forall j: nat :: OpenJump(g.code, j) ==> j < |g.code|; }
    hide Refined, Open, Confined;
  }

  /** The lists of the second operand, seen from the start of the first. */
  lemma ListBack(fs: FS, g: FS, k: FS, s: seq<nat>, old': seq<nat>)
    requires Grows(fs, g) && ListOk(g, k, s) && ListOk(fs, g, old')
    ensures ListOk(fs, k, s) && Apart(s, old')
  {
    assert forall j: nat :: OpenJump(g.code, j) ==> j < |g.code|;
    hide Refined, Confined, OpenJump;
  }

  lemma JoinShape(fs: FS, g: FS, s: seq<nat>, k: FS, e: Exp)
    requires Ready(fs) && GoShape(fs, g, s) && Shape(g, k, e)
    ensures Shape(fs, k, e.(f := e.f + s)) && Shape(fs, k, e.(t := e.t + s))
  {
    GrowsTrans(fs, g, k);
    ListAcross(fs, g, k, s);
    ListBack(fs, g, k, e.t, s);
    ListBack(fs, g, k, e.f, s);
    assert forall j :: j in s ==> j < |g.code| by { assert forall j: nat :: OpenJump(g.code, j) ==> j < |g.code|; }
    hide Refined, Confined, OpenJump;
    assert |g.code| >= |fs.code| by { GrowsLonger(fs, g); }
    AppendList(fs, k, e.f, s);
    AppendList(fs, k, e.t, s);
    hide Grows, Open, NewOr;
  }

  lemma GrowsLonger(fs: FS, g: FS)
    requires Grows(fs, g)
    ensures |g.code| >= |fs.code| && g.nactvar == fs.nactvar
  {
  }

  lemma AppendList(fs: FS, k: FS, s: seq<nat>, t: seq<nat>)
    requires ListOk(fs, k, s) && ListOk(fs, k, t)
    ensures ListOk(fs, k, s + t)
  {
    hide OpenJump;
  }

  /** All locals exist. */
  predicate Ok(x: Expr, n: nat)
  {
    match x
    case Local(r) => r < n
    case Lit(_, _) => true
    case Rel(_, a, b) => Ok(a, n) && Ok(b, n)
    case Neg(a) => Ok(a, n)
    case And(a, b) => Ok(a, n) && Ok(b, n)
    case Or(a, b) => Ok(a, n) && Ok(b, n)
  }

  lemma GoReady(fs: FS, g: FS, s: seq<nat>)
    requires Ready(fs) && GoShape(fs, g, s)
    ensures Ready(g) && g.nactvar == fs.nactvar
  {
  }

  lemma {:induction false} CompileShape(fs: FS, x: Expr)
    requires Ready(fs) && Ok(x, fs.nactvar)
    ensures var (r, e) := Compile(fs, x); Shape(fs, r, e)
    decreases x
  {
    hide Grows, Ready, ListOk, Shape, GoShape, GoIfTrue, GoIfFalse, CodeNot;
    match x {
      case Local(r) => AtomShape(fs, KReg(r));
      case Lit(v, fits) => AtomShape(fs, KLit(v, fits));
      case Neg(a) =>
        CompileShape(fs, a);
        var (h, e) := Compile(fs, a);
        CodeNotShape(fs, h, e);
      case And(a, b) =>
        CompileShape(fs, a);
        var (h, ea) := Compile(fs, a);
        GoIfTrueShape(fs, h, ea);
        var (g, s) := GoIfTrue(h, ea);
        GoReady(fs, g, s);
        CompileShape(g, b);
        var (k, eb) := Compile(g, b);
        JoinShape(fs, g, s, k, eb);
      case Or(a, b) =>
        CompileShape(fs, a);
        var (h, ea) := Compile(fs, a);
        GoIfFalseShape(fs, h, ea);
        var (g, s) := GoIfFalse(h, ea);
        GoReady(fs, g, s);
        CompileShape(g, b);
        var (k, eb) := Compile(g, b);
        JoinShape(fs, g, s, k, eb);
      case Rel(op, a, b) =>
        CompileShape(fs, a);
        var (h, ea) := Compile(fs, a);
        Exp2RKShape(fs, h, ea);
        var (h1, ea1, oa) := Exp2RK(h, ea);
        OperandReady(fs, h1, ea1, oa);
        CompileShape(h1, b);
        var (h2, eb) := Compile(h1, b);
        RelShape(fs, h1, ea1, oa, h2, eb, op);
    }
  }

  lemma AtomShape(fs: FS, k: Kind)
    requires Ready(fs) && ((k.KReg? && k.r < fs.nactvar) || k.KLit?)
    ensures Shape(fs, fs, Exp(k, [], []))
  {
    RefinedSelf(fs);
    hide Refined, Confined;
  }

  lemma OperandReady(fs: FS, h: FS, e: Exp, o: RK)
    requires Ready(fs) && Grows(fs, h) && OperandOk(fs, h, e, o)
    ensures Ready(h) && h.nactvar == fs.nactvar && fs.freereg <= h.freereg
  {
    hide Refined, Confined, Open;
  }

  lemma RelShape(fs: FS, h1: FS, ea: Exp, oa: RK, h2: FS, eb: Exp, op: RelOp)
    requires Ready(fs) && Grows(fs, h1) && OperandOk(fs, h1, ea, oa) && Ready(h1) && Shape(h1, h2, eb)
    ensures var (h3, eb1, ob) := Exp2RK(h2, eb);
            var h4 := FreeExp(FreeExp(h3, eb1), ea);
            var g := CondJump(h4, CompInstr(op, oa, ob));
            && h4 == h3.(freereg := fs.freereg) && Grows(h1, h3) && Grows(fs, h3) && OperandOk(h1, h3, eb1, ob)
            && Shape(fs, g, Exp(KJmp(|g.code| - 1), [], []))
  {
    Exp2RKShape(h1, h2, eb);
    var (h3, eb1, ob) := Exp2RK(h2, eb);
    GrowsTrans(fs, h1, h3);
    GrowsLonger(fs, h1);
    GrowsLonger(h1, h3);
    assert fs.nactvar <= fs.freereg;
    FreeBoth(fs, h1, ea, oa, h3, eb1, ob);
    CompareShape(fs, h3.(freereg := fs.freereg), CompInstr(op, oa, ob));
    hide Grows, Shape, Exp2RK, CondJump;
  }

  lemma CompareShape(fs: FS, h: FS, test: Instr)
    requires Ready(fs) && Grows(fs, h) && h.freereg == fs.freereg && test.Cmp?
    ensures var g := CondJump(h, test); Shape(fs, g, Exp(KJmp(|g.code| - 1), [], []))
  {
    var g := CondJump(h, test);
    CondJumpGrows(fs, h, test);
    EmitBody(h, test);
    assert g.code[..|h.code|] == Emit(h, test).code[..|h.code|];
    assert |h.code| >= |fs.code|;
    assert OpenJump(g.code, |g.code| - 1);
    hide Refined, Confined, Emit, Patch;
  }
}
