/**
 Negation, values wanted in a register, comparisons, and whole expressions.
 */
module LuaValues {
  import opened Options
  import opened LuaVm
  import opened LuaCode
  import opened LuaLists
  import opened LuaShape
  import opened LuaExits
  import opened LuaSound

  // ---------------------------------------------------------------- negation

  lemma RemoveRun(code: seq<Instr>, s: seq<nat>, c: Comparison, pc: nat, via: bool, m: Regs)
    requires Open(code, s) && Confined(code) && Entry(code, pc, via)
    ensures From(RemoveValues(code, s), c, pc, via, m) == From(code, c, pc, via, m)
    ensures Entry(RemoveValues(code, s), pc, via)
  {
    var more := RemoveValues(code, s);
    RemoveRefines(code, s);
    ComposeFrom(code, more, Elems(s), c, pc, via, m);
    var o := From(code, c, pc, via, m);
    if o.pc in s {
      assert OpenJump(code, o.pc);
    }
    hide Confined, Refined, Open;
  }

  /** The value of the negation, before its lists change roles. */
  predicate RightNeg(h: FS, e: Exp, x: Exit, o: Out)
  {
    o.Out? &&
    if AtHere(h.code, h.jpc, |Body(h, e)|, o) then
      && x.here == !e.kind.KJmp? && KindVal(h, e.kind, o.regs) == Bool(!x.truth)
      && CarriedAt(h.code, o) == if e.kind.KLit? then x.carried else None
    else if x.truth then !x.here && AtList(h.code, e.t, o)
    else !x.here && (AtList(h.code, e.f, o) || (e.kind.KJmp? && AtList(h.code, [e.kind.pc], o)))
  }

  lemma NegJmp(fs: FS, r: FS, e: Exp, x: Exit, c: Comparison, pc: nat, via: bool, m: Regs)
    requires Ready(fs) && Shape(fs, r, e) && e.kind.KJmp? && StartAt(fs, pc, via) && Right(r, e, x, From(r.code, c, pc, via, m))
    ensures var h, o := r.(code := InvertJump(r.code, e.kind.pc)), From(r.code, c, pc, via, m);
            var o' := From(h.code, c, pc, via, m);
            o.Out? && RightNeg(h, e, x, o') && o'.Out? && o'.regs == o.regs
  {
    hide *;
    var k, h := e.kind.pc, r.(code := InvertJump(r.code, e.kind.pc));
    StartBody(fs, r, e, pc, via);
    JmpLists(fs, r, e);
    JmpConfined(fs, r, e);
    InvertRun(r, k, c, pc, via, m);
    NegInverted(r, h, e, x, From(r.code, c, pc, via, m), From(h.code, c, pc, via, m));
  }

  lemma JmpConfined(fs: FS, r: FS, e: Exp)
    requires Shape(fs, r, e) && e.kind.KJmp?
    ensures var k := e.kind.pc; 1 <= k == |r.code| - 1 && r.code[k] == Jmp(None) && r.code[k - 1].Cmp? && Confined(r.code[..k - 1]) && r.jpc == []
  {
  }

  lemma NegInverted(r: FS, h: FS, e: Exp, x: Exit, o: Out, o': Out)
    requires e.kind.KJmp? && r.jpc == [] && h == r.(code := h.code) && |h.code| == |r.code| == e.kind.pc + 1
    requires Tests(r.code, e.kind.pc) && Tests(h.code, e.kind.pc) && TestsKept(r.code, h.code, e.t) && TestsKept(r.code, h.code, e.f)
    requires forall j :: j in e.t || j in e.f ==> j < e.kind.pc
    requires Right(r, e, x, o) && (o.pc >= e.kind.pc ==> o.via == (o.pc == e.kind.pc))
    requires o' == if o.pc == e.kind.pc then Out(e.kind.pc + 1, o.regs, false) else if o.pc == e.kind.pc + 1 then Out(e.kind.pc, o.regs, true) else o
    ensures RightNeg(h, e, x, o') && o'.Out? && o.Out? && o'.regs == o.regs
  {
    assert Body(r, e) == r.code && Body(h, e) == h.code;
  }

  lemma NegReg(fs: FS, r: FS, e: Exp, x: Exit, c: Comparison, pc: nat, via: bool, m: Regs)
    requires Ready(fs) && Shape(fs, r, e) && (e.kind.KReg? || e.kind.KReloc?) && StartAt(fs, pc, via)
    requires Right(r, e, x, From(Body(r, e), c, pc, via, m))
    ensures var (h, k) := NotValue(r, e); var o, o' := From(Body(r, e), c, pc, via, m), From(Body(h, Exp(k, e.t, e.f)), c, pc, via, m);
            o.Out? && RightNeg(h, Exp(k, e.t, e.f), x, o') && o'.Out? && Same(o'.regs, o.regs, fs.freereg)
  {
    var (g, q) := InAnyReg(r, e);
    var g1 := FreeExp(g, Exp(KReg(q), [], []));
    InAnyRegShape(fs, r, e);
    NegLoads(fs, r, e, x, c, pc, via, m);
    hide Shape, Right, Loaded, InAnyReg, Right0;
    NotEmits(fs, r, e, g1, q, x, c, pc, via, m);
  }

  /** Where the value to be negated is, and where the lists are. */
  ghost predicate InReg(fs: FS, r: FS, e: Exp, g: FS, q: nat, x: Exit, o: Out, o1: Out)
  {
    && o.Out? && o1.Out? && Same(o1.regs, o.regs, fs.freereg)
    && if AtHere(g.code, g.jpc, |g.code|, o1) then x.here && Truthy(Get(o1.regs, q)) == x.truth
       else !x.here && o1.pc !in g.jpc && o1.pc < |g.code| && if x.truth then AtList(g.code, e.t, o1) else AtList(g.code, e.f, o1)
  }

  lemma NegLoads(fs: FS, r: FS, e: Exp, x: Exit, c: Comparison, pc: nat, via: bool, m: Regs)
    requires Ready(fs) && Shape(fs, r, e) && (e.kind.KReg? || e.kind.KReloc?) && StartAt(fs, pc, via)
    requires Right(r, e, x, From(Body(r, e), c, pc, via, m))
    ensures var (g, q) := InAnyReg(r, e);
            && Entry(g.code, pc, via)
            && InReg(fs, r, e, g, q, x, From(Body(r, e), c, pc, via, m), From(g.code, c, pc, via, m))
  {
    var (g, q) := InAnyReg(r, e);
    var o := From(Body(r, e), c, pc, via, m);
    StartBody(fs, r, e, pc, via);
    RightElsewhere(fs, r, e, x, o);
    if e.kind.KReg? {
      FromEnds(r.code, c, pc, via, m);
      assert AtHere(r.code, r.jpc, |r.code|, o) || o.pc < |r.code|;
    } else {
      DischargeRun(fs, Reserve(r), r.freereg, e, r.freereg, c, pc, via, m);
      LoadedReserve(r, e, g, q, o, From(g.code, c, pc, via, m));
      RelocKeeps(fs, r, e, pc, via);
    }
    hide Confined, Refined, Open, Grows;
  }

  lemma RelocKeeps(fs: FS, r: FS, e: Exp, pc: nat, via: bool)
    requires Shape(fs, r, e) && e.kind.KReloc? && Entry(Body(r, e), pc, via)
    ensures var g := Discharge2Reg(Reserve(r), e, r.freereg);
            && Entry(g.code, pc, via) && g.jpc == [] && |g.code| == |Body(r, e)| + 1
            && (forall j: nat :: j <= |Body(r, e)| ==> Tests(g.code, j) == Tests(r.code, j))
            && (forall j :: j in e.t || j in e.f ==> j < |Body(r, e)|)
  {
    forall j | j in e.t || j in e.f ensures j < |Body(r, e)| {
      assert OpenJump(r.code, j);
    }
    hide Confined, Refined, Open, Grows;
  }

  lemma NotEmits(fs: FS, r: FS, e: Exp, g: FS, q: nat, x: Exit, c: Comparison, pc: nat, via: bool, m: Regs)
    requires Ready(fs) && Grows(fs, g) && g.freereg == fs.freereg && RegOk(fs, q) && ListOk(fs, g, e.t) && ListOk(fs, g, e.f)
    requires Entry(g.code, pc, via) && InReg(fs, r, e, g, q, x, From(Body(r, e), c, pc, via, m), From(g.code, c, pc, via, m))
    ensures var h := Emit(g, Instr.Not(0, q)); var e1 := Exp(KReloc(|h.code| - 1), e.t, e.f);
            var o, o' := From(Body(r, e), c, pc, via, m), From(Body(h, e1), c, pc, via, m);
            o.Out? && RightNeg(h, e1, x, o') && o'.Out? && Same(o'.regs, o.regs, fs.freereg)
  {
    var n := |g.code|;
    var h := Emit(g, Instr.Not(0, q));
    var body := h.code[..n];
    PatchRun(g, c, pc, via, m);
    assert body == Patch(g.code, g.jpc, n, None, n);
    var o1 := From(g.code, c, pc, via, m);
    PatchRefines(g.code, g.jpc, n, None, n);
    if !Here(g, o1) {
      assert OpenJump(g.code, o1.pc);
      TestsStay(g.code, body, Elems(g.jpc), o1.pc);
      assert Tests(h.code, o1.pc) == Tests(body, o1.pc);
    }
    hide Confined, Refined, Open, Emit, Patch;
    assert h.code[n] == Instr.Not(0, q) && |h.code| == n + 1 && h.jpc == [] by { EmitIs(g, Instr.Not(0, q)); }
  }

  lemma EmitIs(g: FS, i: Instr)
    ensures var h := Emit(g, i); |h.code| == |g.code| + 1 && h.code[|g.code|] == i && h.jpc == []
  {
  }

  /** Pending jumps given a target just behind the code: the run ends there. */
  lemma PatchRun(g: FS, c: Comparison, pc: nat, via: bool, m: Regs)
    requires Open(g.code, g.jpc) && Confined(g.code) && Entry(g.code, pc, via)
    ensures var n, o := |g.code|, From(g.code, c, pc, via, m);
            Ended(g.code, o) && From(Patch(g.code, g.jpc, n, None, n), c, pc, via, m) == if Here(g, o) then Out(n, o.regs, false) else o
  {
    var n := |g.code|;
    var body := Patch(g.code, g.jpc, n, None, n);
    PatchRefines(g.code, g.jpc, n, None, n);
    ComposeFrom(g.code, body, Elems(g.jpc), c, pc, via, m);
    var o := From(g.code, c, pc, via, m);
    assert Run(body, c, n, o.regs) == Out(n, o.regs, false);
    if o.pc in g.jpc {
      assert OpenJump(g.code, o.pc);
      assert body[o.pc] == Jmp(Some(n));
      if o.via {
        assert Sets(body[o.pc - 1], o.regs) == o.regs;
      }
    }
    hide Confined, Refined, Open;
  }

  lemma NotValueRight(fs: FS, r: FS, e: Exp, x: Exit, c: Comparison, pc: nat, via: bool, m: Regs)
    requires Ready(fs) && Shape(fs, r, e) && StartAt(fs, pc, via) && Right(r, e, x, From(Body(r, e), c, pc, via, m))
    ensures var (h, k) := NotValue(r, e); var o, o' := From(Body(r, e), c, pc, via, m), From(Body(h, Exp(k, e.t, e.f)), c, pc, via, m);
            o.Out? && RightNeg(h, Exp(k, e.t, e.f), x, o') && o'.Out? && Same(o'.regs, o.regs, fs.freereg) && k.KLit? == e.kind.KLit?
  {
    match e.kind {
      case KLit(w, fits) => assert Body(r, e) == r.code;
      case KJmp(_) => NegJmp(fs, r, e, x, c, pc, via, m);
      case _ => NegReg(fs, r, e, x, c, pc, via, m);
    }
    hide Shape, Ready;
  }

  /** Negation gives exactly true or false, whatever the operand's jumps carried. */
  lemma CodeNotRight(fs: FS, r: FS, e: Exp, x: Exit, c: Comparison, pc: nat, via: bool, m: Regs)
    requires Ready(fs) && Shape(fs, r, e) && StartAt(fs, pc, via) && Right(r, e, x, From(Body(r, e), c, pc, via, m))
    ensures var (g, e') := CodeNot(r, e); var o, o' := From(Body(r, e), c, pc, via, m), From(Body(g, e'), c, pc, via, m);
            o.Out? && Right(g, e', Negated(KindSort(e.kind), x), o') && o'.Out? && Same(o'.regs, o.regs, fs.freereg)
  {
    hide *;
    var (h, k) := NotValue(r, e);
    var e1 := Exp(k, e.t, e.f);
    NotValueShape(fs, r, e);
    NotValueRight(fs, r, e, x, c, pc, via, m);
    var h1 := h.(code := RemoveValues(h.code, e.t));
    RemoveShape(fs, h, e1, e.t);
    RemoveOne(fs, h, e1, e.t, x, c, pc, via, m);
    var h2 := h1.(code := RemoveValues(h1.code, e.f));
    RemoveShape(fs, h1, e1, e.f);
    RemoveOne(fs, h1, e1, e.f, x, c, pc, via, m);
    RemovedStays(h.code, e.t, e.f);
    Swapped(fs, h2, k, e.t, e.f, x, From(Body(h2, e1), c, pc, via, m));
    CodeNotIs(r, e);
    BodySwap(h2, k, e.t, e.f);
    NegatedSame(k, e.kind, x);
  }

  lemma NegatedSame(k: Kind, k': Kind, x: Exit)
    requires k.KLit? == k'.KLit?
    ensures Negated(KindSort(k), x) == Negated(KindSort(k'), x)
  {
  }

  lemma CodeNotIs(r: FS, e: Exp)
    ensures var (h, k) := NotValue(r, e);
            CodeNot(r, e) == (h.(code := RemoveValues(RemoveValues(h.code, e.t), e.f)), Exp(k, e.f, e.t))
  {
    hide NotValue, RemoveValues;
  }

  lemma BodySwap(r: FS, k: Kind, t: seq<nat>, f: seq<nat>)
    ensures Body(r, Exp(k, t, f)) == Body(r, Exp(k, f, t))
  {
  }

  lemma RemoveOne(fs: FS, h: FS, e: Exp, s: seq<nat>, x: Exit, c: Comparison, pc: nat, via: bool, m: Regs)
    requires Ready(fs) && Shape(fs, h, e) && StartAt(fs, pc, via) && (s == e.t || s == e.f) && RightNeg(h, e, x, From(Body(h, e), c, pc, via, m))
    ensures var h1 := h.(code := RemoveValues(h.code, s)); var o := From(Body(h1, e), c, pc, via, m);
            RightNeg(h1, e, x, o) && o == From(Body(h, e), c, pc, via, m) && NoneSet(h1.code, s)
  {
    hide *;
    var h1 := h.(code := RemoveValues(h.code, s));
    var body := Body(h, e);
    StartBody(fs, h, e, pc, via);
    BodyRemoved(h, e, s);
    BodyConfined(fs, h, e);
    BodyOpen(fs, h, e, s);
    RemoveRun(body, s, c, pc, via, m);
    RemovedTests(h.code, s);
    PendingKept(fs, h, e, s);
    NegSame(h, h1, e, x, From(body, c, pc, via, m));
  }

  lemma BodyRemoved(h: FS, e: Exp, s: seq<nat>)
    ensures Body(h.(code := RemoveValues(h.code, s)), e) == RemoveValues(Body(h, e), s)
  {
  }

  lemma RemovedTests(code: seq<Instr>, s: seq<nat>)
    ensures NoneSet(RemoveValues(code, s), s)
    ensures forall j: nat {:trigger Tests(RemoveValues(code, s), j)} :: Tests(RemoveValues(code, s), j) == Tests(code, j)
    ensures |RemoveValues(code, s)| == |code|
    ensures forall p :: 0 <= p < |code| && code[p].Not? ==> RemoveValues(code, s)[p] == code[p]
    ensures forall p :: 0 <= p < |code| && !code[p].Not? ==> !RemoveValues(code, s)[p].Not?
  {
  }

  /** Pending jumps keep what they carry. */
  lemma PendingKept(fs: FS, h: FS, e: Exp, s: seq<nat>)
    requires Shape(fs, h, e) && (s == e.t || s == e.f)
    ensures TestsKept(h.code, RemoveValues(h.code, s), h.jpc)
  {
    forall j | j in h.jpc ensures j !in s {
    }
    hide Grows, KindOk, Open, NewOr;
  }

  lemma NegSame(h: FS, h1: FS, e: Exp, x: Exit, o: Out)
    requires RightNeg(h, e, x, o) && h1.jpc == h.jpc && TestsKept(h.code, h1.code, h.jpc) && |h1.code| == |h.code| && (forall j: nat :: Tests(h1.code, j) == Tests(h.code, j))
    requires forall p :: 0 <= p < |h.code| && h.code[p].Not? ==> h1.code[p] == h.code[p]
    requires forall p :: 0 <= p < |h.code| && !h.code[p].Not? ==> !h1.code[p].Not?
    ensures RightNeg(h1, e, x, o)
  {
    hide Tests;
  }

  lemma BodyConfined(fs: FS, h: FS, e: Exp)
    requires Shape(fs, h, e)
    ensures Confined(Body(h, e))
  {
  }

  lemma BodyOpen(fs: FS, h: FS, e: Exp, s: seq<nat>)
    requires Shape(fs, h, e) && (s == e.t || s == e.f)
    ensures Open(Body(h, e), s)
  {
    forall j | j in s ensures OpenJump(Body(h, e), j) {
      assert OpenJump(h.code, j);
    }
  }

  lemma RemovedStays(code: seq<Instr>, t: seq<nat>, f: seq<nat>)
    ensures NoneSet(RemoveValues(RemoveValues(code, t), f), t)
  {
  }

  lemma Swapped(fs: FS, h: FS, k: Kind, t: seq<nat>, f: seq<nat>, x: Exit, o: Out)
    requires Shape(fs, h, Exp(k, t, f)) && RightNeg(h, Exp(k, t, f), x, o) && NoneSet(h.code, t) && NoneSet(h.code, f)
    ensures Right(h, Exp(k, f, t), Negated(KindSort(k), x), o)
  {
    BodySwap(h, k, t, f);
    hide Grows, Body;
  }

  // ---------------------------------------------------------------- into a register

  /** Runs at one of two lists go where the lists have been sent; others are not affected. */
  lemma BothRun(code: seq<Instr>, f: seq<nat>, t: seq<nat>, reg: nat, lf: nat, lt: nat, c: Comparison, pc: nat, via: bool, m: Regs)
    requires Open(code, f) && Open(code, t) && Apart(t, f) && Confined(code) && Entry(code, pc, via)
    requires lf <= |code| && lt <= |code| && (forall j :: j in f ==> j < lf) && (forall j :: j in t ==> j < lt)
    ensures var o, more := From(code, c, pc, via, m), PatchBoth(code, f, t, reg, lf, lt);
            && Ended(code, o)
            && (o.pc in f + t && o.via == Tests(code, o.pc) ==>
                 if TestsSet(code, o.pc) then
                   var o' := From(more, c, pc, via, m);
                   && o'.Out? && o'.pc == |code| && !o'.via && Get(o'.regs, reg) == Get(o.regs, code[o.pc - 1].b)
                   && forall q :: q != reg ==> Get(o'.regs, q) == Get(o.regs, q)
                 else From(more, c, pc, via, m) == Run(more, c, if o.pc in f then lf else lt, o.regs))
            && (o.pc !in f + t ==> From(more, c, pc, via, m) == o)
  {
    hide *;
    var more := PatchBoth(code, f, t, reg, lf, lt);
    var o := From(code, c, pc, via, m);
    PatchBothOk(code, f, t, reg, lf, lt);
    ComposeFrom(code, more, Elems(f + t), c, pc, via, m);
    EndedIs(code, o);
    if o.pc in f + t && o.via == Tests(code, o.pc) {
      OpenAt(code, f, t, o.pc);
      if TestsSet(code, o.pc) {
        SetGoes(code, f, t, reg, lf, lt, c, o);
      } else {
        PlainGoes(code, f, t, reg, lf, lt, c, o);
      }
    } else if o.pc == |code| {
      RunsOut(more, c, o.pc, o.regs);
    }
  }

  lemma OpenAt(code: seq<Instr>, f: seq<nat>, t: seq<nat>, j: nat)
    requires Open(code, f) && Open(code, t) && j in f + t
    ensures OpenJump(code, j) && j < |code| && j in Elems(f + t)
    ensures !Tests(code, j) ==> !TestsSet(code, j)
  {
  }

  lemma RunsOut(code: seq<Instr>, c: Comparison, n: nat, m: Regs)
    requires n == |code|
    ensures Run(code, c, n, m) == Out(n, m, false) == From(code, c, n, false, m)
  {
  }

  /** A jump that carries a value goes behind the code, its test putting the value into the register. */
  lemma SetGoes(code: seq<Instr>, f: seq<nat>, t: seq<nat>, reg: nat, lf: nat, lt: nat, c: Comparison, o: Out)
    requires Open(code, f) && Open(code, t) && Apart(t, f) && Confined(code) && lf <= |code| && lt <= |code|
    requires (forall j :: j in f ==> j < lf) && (forall j :: j in t ==> j < lt)
    requires o.Out? && o.pc in f + t && OpenJump(code, o.pc) && o.via && TestsSet(code, o.pc)
    ensures var o' := From(PatchBoth(code, f, t, reg, lf, lt), c, o.pc, o.via, o.regs);
            && o'.Out? && o'.pc == |code| && !o'.via && Get(o'.regs, reg) == Get(o.regs, code[o.pc - 1].b)
            && forall q :: q != reg ==> Get(o'.regs, q) == Get(o.regs, q)
  {
    var more := PatchBoth(code, f, t, reg, lf, lt);
    PatchBothOk(code, f, t, reg, lf, lt);
    hide Confined, Refined, PatchBoth;
    assert more[o.pc] == BothAt(code, f, t, reg, lf, lt, o.pc);
    assert more[o.pc - 1] == BothAt(code, f, t, reg, lf, lt, o.pc - 1);
    TestNoJump(code, f, o.pc - 1);
    TestNoJump(code, t, o.pc - 1);
    var m' := Sets(more[o.pc - 1], o.regs);
    RunsOut(more, c, |code|, m');
  }

  /** Any other jump goes to its load. */
  lemma PlainGoes(code: seq<Instr>, f: seq<nat>, t: seq<nat>, reg: nat, lf: nat, lt: nat, c: Comparison, o: Out)
    requires Open(code, f) && Open(code, t) && Apart(t, f) && Confined(code) && lf <= |code| && lt <= |code|
    requires (forall j :: j in f ==> j < lf) && (forall j :: j in t ==> j < lt)
    requires o.Out? && o.pc in f + t && OpenJump(code, o.pc) && o.via == Tests(code, o.pc) && !TestsSet(code, o.pc)
    ensures var more := PatchBoth(code, f, t, reg, lf, lt);
            From(more, c, o.pc, o.via, o.regs) == Run(more, c, if o.pc in f then lf else lt, o.regs)
  {
    var more := PatchBoth(code, f, t, reg, lf, lt);
    PatchBothOk(code, f, t, reg, lf, lt);
    hide Confined, Refined, PatchBoth;
    assert more[o.pc] == BothAt(code, f, t, reg, lf, lt, o.pc);
    if o.via {
      assert more[o.pc - 1] == BothAt(code, f, t, reg, lf, lt, o.pc - 1);
      PlainTest(code, f, t, reg, lf, lt, o.pc);
    }
  }

  lemma TestNoJump(code: seq<Instr>, s: seq<nat>, p: nat)
    requires Open(code, s) && p < |code| && IsTest(code[p])
    ensures p !in s
  {
    assert p in s ==> OpenJump(code, p);
  }

  lemma PlainTest(code: seq<Instr>, f: seq<nat>, t: seq<nat>, reg: nat, lf: nat, lt: nat, j: nat)
    requires Open(code, f) && Open(code, t) && 1 <= j < |code| && IsTest(code[j - 1]) && !code[j - 1].TestSet?
    ensures var i := BothAt(code, f, t, reg, lf, lt, j - 1); !i.TestSet?
  {
    TestNoJump(code, f, j - 1);
    TestNoJump(code, t, j - 1);
  }

  /** An expression before its lists are closed: the value is in `reg`, or the run is at a list. */
  ghost predicate AlmostIn(code: seq<Instr>, jpc: seq<nat>, e: Exp, reg: nat, x: Exit, o: Out, m: Regs)
  {
    o.Out? && (forall q :: q != reg ==> Get(o.regs, q) == Get(m, q)) &&
    if AtHere(code, jpc, |code|, o) then
      if e.kind.KJmp? then x.val == Bool(false) else x.val == Get(o.regs, reg)
    else x.val == Standing(CarriedAt(code, o), x.truth) && if x.truth then AtList(code, TrueJumps(e), o) else AtList(code, e.f, o)
  }

  /** The value is in `reg`, and the run is here; all other registers are as in `m`. */
  ghost predicate IsIn(code: seq<Instr>, jpc: seq<nat>, reg: nat, v: Val, o: Out, m: Regs)
  {
    && AtHere(code, jpc, |code|, o) && v == Get(o.regs, reg)
    && (forall q :: q != reg ==> Get(o.regs, q) == Get(m, q))
  }

  lemma ListsClosed(fs: FS, h: FS, e: Exp)
    requires HasLists(fs, h, e)
    ensures Confined(h.code) && Open(h.code, TrueJumps(e)) && Open(h.code, e.f) && Apart(TrueJumps(e), e.f)
  {
  }

  /** The value is in `reg` if the run is here; otherwise the run is at a list. */
  ghost predicate Landing(code: seq<Instr>, jpc: seq<nat>, e: Exp, reg: nat, x: Exit, o: Out, m: Regs)
  {
    o.Out? && (forall q :: q != reg ==> Get(o.regs, q) == Get(m, q)) &&
    if AtHere(code, jpc, |code|, o) then x.val == Get(o.regs, reg)
    else x.val == Standing(CarriedAt(code, o), x.truth) && if x.truth then AtList(code, TrueJumps(e), o) else AtList(code, e.f, o)
  }

  /** Both lists closed: every jump ends behind the code, with the value in the register. */
  lemma CloseLands(fs: FS, h: FS, e: Exp, jpc: seq<nat>, reg: nat, lf: nat, lt: nat, x: Exit, c: Comparison, pc: nat, via: bool, m0: Regs, m: Regs)
    requires Ready(fs) && HasLists(fs, h, e) && Entry(h.code, pc, via) && Open(h.code, jpc) && Apart(jpc, TrueJumps(e)) && Apart(jpc, e.f)
    requires lf <= |h.code| && lt <= |h.code| && (forall j :: j in e.f ==> j < lf) && (forall j :: j in TrueJumps(e) ==> j < lt)
    requires Loads(h.code, reg, lf, lt) || (!NeedValue(h.code, TrueJumps(e)) && !NeedValue(h.code, e.f))
    requires Landing(h.code, jpc, e, reg, x, From(h.code, c, pc, via, m0), m)
    ensures var more := PatchBoth(h.code, e.f, TrueJumps(e), reg, lf, lt);
            IsIn(more, jpc, reg, x.val, From(more, c, pc, via, m0), m)
  {
    hide *;
    var t := TrueJumps(e);
    var more := PatchBoth(h.code, e.f, t, reg, lf, lt);
    var o := From(h.code, c, pc, via, m0);
    ListsClosed(fs, h, e);
    BothRun(h.code, e.f, t, reg, lf, lt, c, pc, via, m0);
    PatchBothOk(h.code, e.f, t, reg, lf, lt);
    LandingCases(h.code, jpc, e, reg, x, o, m);
    if AtHere(h.code, jpc, |h.code|, o) {
      HereStays(h.code, jpc, e, reg, lf, lt, o);
      HereIn(h.code, more, jpc, e, reg, x, o, m);
    } else if TestsSet(h.code, o.pc) {
      ValueIn(h.code, more, jpc, e, reg, x, o, From(more, c, pc, via, m0), m);
    } else {
      SomeNeed(h.code, e, o.pc);
      LoadRun(h.code, e.f, t, reg, lf, lt, c, o.pc in e.f, o.regs);
      LoadIn(h.code, more, jpc, e, reg, x, o, o.pc in e.f, m);
    }
  }

  /** The two loads. */
  predicate Loads(code: seq<Instr>, reg: nat, lf: nat, lt: nat)
  {
    lf + 2 == |code| && lt == lf + 1 && code[lf] == LoadBool(reg, false, true) && code[lt] == LoadBool(reg, true, false)
  }

  lemma LandingCases(code: seq<Instr>, jpc: seq<nat>, e: Exp, reg: nat, x: Exit, o: Out, m: Regs)
    requires Landing(code, jpc, e, reg, x, o, m)
    ensures o.Out?
    ensures !AtHere(code, jpc, |code|, o) ==> o.pc in e.f + TrueJumps(e) && o.via == Tests(code, o.pc)
  {
  }

  lemma SomeNeed(code: seq<Instr>, e: Exp, j: nat)
    requires j in e.f + TrueJumps(e) && !TestsSet(code, j)
    ensures NeedValue(code, TrueJumps(e)) || NeedValue(code, e.f)
  {
  }

  /** A run that is here stays here when the lists are closed. */
  lemma HereStays(code: seq<Instr>, jpc: seq<nat>, e: Exp, reg: nat, lf: nat, lt: nat, o: Out)
    requires Open(code, TrueJumps(e)) && Open(code, e.f) && Apart(TrueJumps(e), e.f) && Confined(code)
    requires Open(code, jpc) && Apart(jpc, TrueJumps(e)) && Apart(jpc, e.f) && AtHere(code, jpc, |code|, o)
    requires lf <= |code| && lt <= |code| && (forall j :: j in e.f ==> j < lf) && (forall j :: j in TrueJumps(e) ==> j < lt)
    ensures var more := PatchBoth(code, e.f, TrueJumps(e), reg, lf, lt);
            |more| == |code| && AtHere(more, jpc, |more|, o) && o.pc !in e.f + TrueJumps(e)
  {
    var t := TrueJumps(e);
    var more := PatchBoth(code, e.f, t, reg, lf, lt);
    PatchBothOk(code, e.f, t, reg, lf, lt);
    if o.pc in jpc {
      assert OpenJump(code, o.pc);
      TestsStay(code, more, Elems(e.f + t), o.pc);
    }
    hide Confined, Refined, Open, PatchBoth, TrueJumps;
  }

  lemma HereIn(code: seq<Instr>, more: seq<Instr>, jpc: seq<nat>, e: Exp, reg: nat, x: Exit, o: Out, m: Regs)
    requires Landing(code, jpc, e, reg, x, o, m) && AtHere(code, jpc, |code|, o) && AtHere(more, jpc, |more|, o)
    ensures IsIn(more, jpc, reg, x.val, o, m)
  {
  }

  lemma ValueIn(code: seq<Instr>, more: seq<Instr>, jpc: seq<nat>, e: Exp, reg: nat, x: Exit, o: Out, o': Out, m: Regs)
    requires Landing(code, jpc, e, reg, x, o, m) && !AtHere(code, jpc, |code|, o) && TestsSet(code, o.pc) && |more| == |code|
    requires o'.Out? && o'.pc == |code| && !o'.via && Get(o'.regs, reg) == Get(o.regs, code[o.pc - 1].b)
    requires forall q :: q != reg ==> Get(o'.regs, q) == Get(o.regs, q)
    ensures IsIn(more, jpc, reg, x.val, o', m)
  {
  }

  lemma LoadRun(code: seq<Instr>, f: seq<nat>, t: seq<nat>, reg: nat, lf: nat, lt: nat, c: Comparison, no: bool, m: Regs)
    requires Open(code, f) && Open(code, t) && Apart(t, f) && Confined(code) && Loads(code, reg, lf, lt)
    requires (forall j :: j in f ==> j < lf) && (forall j :: j in t ==> j < lt)
    ensures Run(PatchBoth(code, f, t, reg, lf, lt), c, if no then lf else lt, m) == Out(|code|, m[reg := Bool(!no)], false)
  {
    var more := PatchBoth(code, f, t, reg, lf, lt);
    PatchBothOk(code, f, t, reg, lf, lt);
    assert lf !in t by { assert lf in t ==> OpenJump(code, lf); }
    assert more[lf] == BothAt(code, f, t, reg, lf, lt, lf) && more[lt] == BothAt(code, f, t, reg, lf, lt, lt);
    assert Run(more, c, |code|, m[reg := Bool(!no)]) == Out(|code|, m[reg := Bool(!no)], false);
    hide Confined, Refined, Open, PatchBoth;
  }

  lemma LoadIn(code: seq<Instr>, more: seq<Instr>, jpc: seq<nat>, e: Exp, reg: nat, x: Exit, o: Out, no: bool, m: Regs)
    requires Landing(code, jpc, e, reg, x, o, m) && !AtHere(code, jpc, |code|, o) && !TestsSet(code, o.pc) && |more| == |code|
    requires no == (o.pc in e.f) && Apart(TrueJumps(e), e.f)
    ensures IsIn(more, jpc, reg, x.val, Out(|code|, o.regs[reg := Bool(!no)], false), m)
  {
  }

  /** The tests of both lists are as they were before the value was loaded. */
  lemma DischargeKeeps(fs: FS, r: FS, n: nat, e: Exp, reg: nat, pc: nat, via: bool)
    requires Ready(fs) && Shape(fs, r.(freereg := n), e) && StartAt(fs, pc, via)
    ensures var h := Discharge2Reg(r, e, reg);
            TestsKept(r.code, h.code, TrueJumps(e)) && TestsKept(r.code, h.code, e.f) && Entry(h.code, pc, via)
  {
    var r0, h := r.(freereg := n), Discharge2Reg(r, e, reg);
    DischargeShape(fs, r, n, e, reg);
    assert Refined(fs.code, h.code, Elems(fs.jpc));
    StartEntry(fs, h.code, pc, via);
    match e.kind {
      case KLit(Bool(b), _) => LoadKeeps(fs, r, n, e, LoadBool(reg, b, false));
      case KLit(v, _) => LoadKeeps(fs, r, n, e, LoadK(reg, v));
      case KReloc(k) =>
      case KReg(q) =>
        if q != reg {
          LoadKeeps(fs, r, n, e, Move(reg, q));
        }
      case KJmp(_) =>
    }
    hide Confined, Refined, Open, Grows;
  }

  lemma LoadKeeps(fs: FS, r: FS, n: nat, e: Exp, i: Instr)
    requires Ready(fs) && Shape(fs, r.(freereg := n), e) && !e.kind.KJmp? && !IsTest(i) && !i.Jmp? && Within(i, |r.code|, |r.code| + 1)
    ensures TestsKept(r.code, Emit(r, i).code, TrueJumps(e)) && TestsKept(r.code, Emit(r, i).code, e.f)
  {
    EmitGrows(fs, r, i);
    hide Confined, Refined, Grows, Open, Emit;
    KeptRefined(fs, r, Emit(r, i).code, e.t);
    KeptRefined(fs, r, Emit(r, i).code, e.f);
  }

  lemma DischargeAlmost(fs: FS, r: FS, n: nat, e: Exp, reg: nat, x: Exit, c: Comparison, pc: nat, via: bool, m: Regs)
    requires Ready(fs) && Shape(fs, r.(freereg := n), e) && StartAt(fs, pc, via) && Right(r, e, x, From(Body(r, e), c, pc, via, m))
    ensures var h, o := Discharge2Reg(r, e, reg), From(Body(r, e), c, pc, via, m);
            o.Out? && AlmostIn(h.code, h.jpc, e, reg, x, From(h.code, c, pc, via, m), o.regs)
  {
    hide *;
    var h, o := Discharge2Reg(r, e, reg), From(Body(r, e), c, pc, via, m);
    BodyFree(r, n, e, x, o);
    StartBody(fs, r.(freereg := n), e, pc, via);
    RightElsewhere(fs, r.(freereg := n), e, x, o);
    DischargeRun(fs, r, n, e, reg, c, pc, via, m);
    DischargeKeeps(fs, r, n, e, reg, pc, via);
    DischargeShape(fs, r, n, e, reg);
    ListsBefore(fs, r, n, e, o);
    JpcLess(fs, r, n, e, reg);
    FromLoaded(r, e, h, reg, x, o, From(h.code, c, pc, via, m));
  }

  lemma BodyFree(r: FS, n: nat, e: Exp, x: Exit, o: Out)
    ensures Body(r, e) == Body(r.(freereg := n), e) && Right(r.(freereg := n), e, x, o) == Right(r, e, x, o) && Right0(r.(freereg := n), e, o) == Right0(r, e, o)
    ensures Right(r, e, x, o) ==> o.Out?
  {
  }

  lemma ListsBefore(fs: FS, r: FS, n: nat, e: Exp, o: Out)
    requires Shape(fs, r.(freereg := n), e) && o.Out?
    ensures o.pc in TrueJumps(e) || o.pc in e.f ==> o.pc < |r.code| && o.pc !in r.jpc
    ensures (o.pc in e.t || o.pc in e.f) ==> o.pc < |Body(r, e)|
  {
    if o.pc in e.t || o.pc in e.f {
      assert OpenJump(r.code, o.pc);
    }
    hide Confined, Refined, Open, Grows;
  }

  lemma JpcLess(fs: FS, r: FS, n: nat, e: Exp, reg: nat)
    requires Ready(fs) && Shape(fs, r.(freereg := n), e)
    ensures var h := Discharge2Reg(r, e, reg); (forall j :: j in h.jpc ==> j in r.jpc) && |h.code| >= |Body(r, e)| && (!e.kind.KJmp? && h.code != r.code ==> |h.code| > |Body(r, e)|) && |h.code| >= |r.code|
  {
    hide Grows, ListOk;
  }

  lemma FromLoaded(r: FS, e: Exp, h: FS, reg: nat, x: Exit, o: Out, o': Out)
    requires Right(r, e, x, o) && Loaded(r, e, h, reg, o, o') && (e.kind.KJmp? ==> h == r)
    requires TestsKept(r.code, h.code, TrueJumps(e)) && TestsKept(r.code, h.code, e.f)
    requires (o.pc in TrueJumps(e) || o.pc in e.f ==> o.pc < |r.code| && o.pc !in r.jpc) && (forall j :: j in h.jpc ==> j in r.jpc) && |h.code| >= |r.code|
    ensures AlmostIn(h.code, h.jpc, e, reg, x, o', o.regs) && o.Out?
  {
    if AtHere(r.code, r.jpc, |Body(r, e)|, o) {
    } else {
      assert o' == o;
      assert !AtHere(h.code, h.jpc, |h.code|, o');
    }
  }

  /** The loads: a comparison that was false falls into the first; all other runs that are here jump over both. */
  lemma LandedRun(fs: FS, h: FS, e: Exp, reg: nat, x: Exit, c: Comparison, pc: nat, via: bool, m0: Regs, m: Regs)
    requires Ready(fs) && HasLists(fs, h, e) && (e.kind.KJmp? ==> h.jpc == []) && StartAt(fs, pc, via)
    requires AlmostIn(h.code, h.jpc, e, reg, x, From(h.code, c, pc, via, m0), m)
    ensures var k := Landed(h, e, reg); var fj := if e.kind.KJmp? then [] else JumpList(h);
            Landing(k.code, fj, e, reg, x, From(k.code, c, pc, via, m0), m) && Entry(k.code, pc, via)
  {
    hide *;
    var k := Landed(h, e, reg);
    LandedShape(fs, h, e, reg);
    HasGrows(fs, k, e);
    StartEntry(fs, k.code, pc, via);
    if e.kind.KJmp? {
      FallsIn(fs, h, e, reg, x, c, pc, via, m0, m);
    } else {
      SkipsOver(fs, h, e, reg, x, c, pc, via, m0, m);
    }
  }

  lemma HasGrows(fs: FS, k: FS, e: Exp)
    requires Ready(fs) && HasLists(fs, k, e)
    ensures Grows(fs, k) && Refined(fs.code, k.code, Elems(fs.jpc)) && Confined(k.code) && Open(k.code, k.jpc) && Open(fs.code, fs.jpc)
    ensures ListOk(fs, k, TrueJumps(e)) && ListOk(fs, k, e.f)
  {
  }

  lemma FallsIn(fs: FS, h: FS, e: Exp, reg: nat, x: Exit, c: Comparison, pc: nat, via: bool, m0: Regs, m: Regs)
    requires Ready(fs) && HasLists(fs, h, e) && e.kind.KJmp? && h.jpc == [] && StartAt(fs, pc, via)
    requires AlmostIn(h.code, h.jpc, e, reg, x, From(h.code, c, pc, via, m0), m)
    ensures var k := Landed(h, e, reg); Landing(k.code, [], e, reg, x, From(k.code, c, pc, via, m0), m)
  {
    var k, n := Landed(h, e, reg), |h.code|;
    var o := From(h.code, c, pc, via, m0);
    HasGrows(fs, h, e);
    StartEntry(fs, h.code, pc, via);
    LoadBothShape(fs, h, reg);
    hide Confined, Refined, Open, Grows, LoadBoth, ListOk, HasLists;
    EmitRun(h, LoadBool(reg, false, true), [LoadBool(reg, true, false)], c, pc, via, m0);
    assert k.code[n] == LoadBool(reg, false, true) by { EmitIs(h, LoadBool(reg, false, true)); }
    assert Run(k.code, c, n, o.regs) == Run(k.code, c, n + 2, o.regs[reg := Bool(false)]) == Out(n + 2, o.regs[reg := Bool(false)], false);
    if !AtHere(h.code, h.jpc, n, o) {
      KeptRefined(fs, h, k.code, TrueJumps(e)) by { HasGrows(fs, h, e); }
      KeptRefined(fs, h, k.code, e.f) by { HasGrows(fs, h, e); }
      assert o.pc < n by { ListBound(fs, h, e, o.pc); }
    }
  }

  lemma ListBound(fs: FS, h: FS, e: Exp, j: nat)
    requires HasLists(fs, h, e) && (j in TrueJumps(e) || j in e.f)
    ensures j < |h.code| && j !in h.jpc && OpenJump(h.code, j)
  {
  }

  lemma SkipsOver(fs: FS, h: FS, e: Exp, reg: nat, x: Exit, c: Comparison, pc: nat, via: bool, m0: Regs, m: Regs)
    requires Ready(fs) && HasLists(fs, h, e) && !e.kind.KJmp? && StartAt(fs, pc, via)
    requires AlmostIn(h.code, h.jpc, e, reg, x, From(h.code, c, pc, via, m0), m)
    ensures var k := Landed(h, e, reg); Landing(k.code, JumpList(h), e, reg, x, From(k.code, c, pc, via, m0), m)
  {
    hide *;
    var k, n := Landed(h, e, reg), |h.code|;
    var o := From(h.code, c, pc, via, m0);
    HasGrows(fs, h, e);
    StartEntry(fs, h.code, pc, via);
    SkipFront(h, k, e, reg);
    ComposeFrom(h.code, k.code, {}, c, pc, via, m0);
    EndedIs(h.code, o);
    LastNoTest(h.code);
    SkipTests(h, k.code, |h.code|);
    SkipTests(h, k.code, o.pc);
    RunsInto(k.code, c, n, o.regs);
    SkipLands(h, k, e, reg, x, o, m);
    FromNoVia(k.code, c, n, o.regs);
  }

  lemma EndedIs(code: seq<Instr>, o: Out)
    requires Ended(code, o)
    ensures o.Out? && o.pc <= |code| && (o.pc == |code| ==> o == Out(o.pc, o.regs, false))
  {
  }

  lemma FromNoVia(code: seq<Instr>, c: Comparison, n: nat, m: Regs)
    ensures From(code, c, n, false, m) == Run(code, c, n, m)
  {
  }

  lemma RunsInto(code: seq<Instr>, c: Comparison, n: nat, m: Regs)
    requires n < |code| && code[n] == Jmp(None)
    ensures Run(code, c, n, m) == Out(n, m, false)
  {
  }

  lemma SkipFront(h: FS, k: FS, e: Exp, reg: nat)
    requires k == Landed(h, e, reg) && !e.kind.KJmp?
    ensures |k.code| == |h.code| + 3 && k.code[|h.code|] == Jmp(None) && k.code[..|h.code|] == h.code && Refined(h.code, k.code, {})
  {
    var g := JumpTo(h);
    LoadBothFront(g, reg);
    JumpOverRefines(h, k.code);
    assert g.code[|h.code|] == Jmp(None);
  }

  /** The tests are as they were. */
  lemma SkipTests(h: FS, more: seq<Instr>, j: nat)
    requires j <= |h.code| < |more| && more[..|h.code|] == h.code
    ensures Tests(more, j) == Tests(h.code, j) && TestsSet(more, j) == TestsSet(h.code, j)
    ensures TestsSet(h.code, j) ==> more[j - 1] == h.code[j - 1]
  {
    if j >= 1 {
      assert more[j - 1] == more[..|h.code|][j - 1];
    }
  }

  /** Skipping over the loads: a run that was here is now at the jump. */
  lemma SkipLands(h: FS, k: FS, e: Exp, reg: nat, x: Exit, o: Out, m: Regs)
    requires AlmostIn(h.code, h.jpc, e, reg, x, o, m) && !e.kind.KJmp? && |k.code| == |h.code| + 3 && o.pc <= |h.code|
    requires Tests(k.code, o.pc) == Tests(h.code, o.pc) && TestsSet(k.code, o.pc) == TestsSet(h.code, o.pc)
    requires TestsSet(h.code, o.pc) ==> k.code[o.pc - 1] == h.code[o.pc - 1]
    requires !Tests(k.code, |h.code|)
    ensures Landing(k.code, JumpList(h), e, reg, x, o, m)
  {
    hide Tests;
  }

  lemma LoadBothFront(g: FS, reg: nat)
    requires g.jpc == []
    ensures g.code <= LoadBoth(g, reg).code
  {
    var n := |g.code|;
    assert Patch(g.code, [], n, None, n) == g.code;
    var g1 := Emit(g, LoadBool(reg, false, true));
    assert Patch(g1.code, [], n + 1, None, n + 1) == g1.code;
  }

  lemma JumpOverRefines(h: FS, more: seq<Instr>)
    requires JumpTo(h).code <= more
    ensures Refined(h.code, more, {})
  {
    assert h.code <= more;
    RefinedPrefix(h.code, more);
  }
}
