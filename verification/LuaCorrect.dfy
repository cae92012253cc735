/**
 The code of a whole expression does what is said of it without code, and leaves the
 value said in the wanted register.
 */
module LuaCorrect {
  import opened Options
  import opened LuaVm
  import opened LuaCode
  import opened LuaLists
  import opened LuaShape
  import opened LuaExits
  import opened LuaSound
  import opened LuaValues

  /** `Exp2Reg`: the run is here, with the value in the register; no other register changes. */
  lemma Exp2RegRight(fs: FS, r: FS, n: nat, e: Exp, reg: nat, x: Exit, c: Comparison, pc: nat, via: bool, m: Regs)
    requires Ready(fs) && Shape(fs, r.(freereg := n), e) && StartAt(fs, pc, via) && Right(r, e, x, From(Body(r, e), c, pc, via, m))
    ensures var h, o := Exp2Reg(r, e, reg), From(Body(r, e), c, pc, via, m);
            o.Out? && IsIn(h.code, h.jpc, reg, x.val, From(h.code, c, pc, via, m), o.regs)
  {
    hide *;
    var h, o := Discharge2Reg(r, e, reg), From(Body(r, e), c, pc, via, m);
    DischargeShape(fs, r, n, e, reg);
    DischargeAlmost(fs, r, n, e, reg, x, c, pc, via, m);
    HasGrows(fs, h, e);
    StartEntry(fs, h.code, pc, via);
    JpcApart(fs, h, e);
    Exp2RegIs(r, e, reg);
    if TrueJumps(e) == [] && e.f == [] {
      NoLists(h, e, reg, x, From(h.code, c, pc, via, m), o.regs);
    } else if NeedValue(h.code, TrueJumps(e)) || NeedValue(h.code, e.f) {
      LandedShape(fs, h, e, reg);
      LandedSize(h, e, reg);
      LandedRun(fs, h, e, reg, x, c, pc, via, m, o.regs);
      var g := if e.kind.KJmp? then h else JumpTo(h);
      LandedLoads(h, e, reg);
      CloseLands(fs, Landed(h, e, reg), e, if e.kind.KJmp? then [] else JumpList(h), reg, |g.code|, |g.code| + 1, x, c, pc, via, m, o.regs);
    } else {
      DirectLanding(fs, r, h, n, e, reg, x, From(h.code, c, pc, via, m), o.regs);
      CloseLands(fs, h, e, h.jpc, reg, |h.code|, |h.code|, x, c, pc, via, m, o.regs);
    }
  }

  lemma NoLists(h: FS, e: Exp, reg: nat, x: Exit, o: Out, m: Regs)
    requires AlmostIn(h.code, h.jpc, e, reg, x, o, m) && TrueJumps(e) == [] && e.f == []
    ensures IsIn(h.code, h.jpc, reg, x.val, o, m)
  {
  }

  lemma LandedLoads(h: FS, e: Exp, reg: nat)
    ensures var g := if e.kind.KJmp? then h else JumpTo(h); Loads(Landed(h, e, reg).code, reg, |g.code|, |g.code| + 1)
  {
    var g := if e.kind.KJmp? then h else JumpTo(h);
    var g1 := Emit(g, LoadBool(reg, false, true));
    assert Patch(g1.code, [], |g1.code|, None, |g1.code|) == g1.code;
  }

  /** A comparison's jump carries no value. */
  lemma JmpNeeds(fs: FS, r: FS, e: Exp)
    requires Shape(fs, r, e) && e.kind.KJmp?
    ensures NeedValue(r.code, TrueJumps(e))
  {
    assert e.kind.pc in TrueJumps(e) && !TestsSet(r.code, e.kind.pc);
  }

  lemma DirectLanding(fs: FS, r: FS, h: FS, n: nat, e: Exp, reg: nat, x: Exit, o: Out, m: Regs)
    requires Shape(fs, r.(freereg := n), e) && h == Discharge2Reg(r, e, reg) && AlmostIn(h.code, h.jpc, e, reg, x, o, m)
    requires !NeedValue(h.code, TrueJumps(e))
    ensures Landing(h.code, h.jpc, e, reg, x, o, m)
  {
    if e.kind.KJmp? {
      JmpNeeds(fs, r.(freereg := n), e);
    }
  }

  // ---------------------------------------------------------------- operands

  /** The operand's value, and the run is here, by a jump that carries `carried` if it does. */
  ghost predicate OperandIs(h: FS, o: RK, v: Val, carried: Option<Val>, out: Out, m: Regs, n: nat)
  {
    && out.Out? && AtHere(h.code, h.jpc, |h.code|, out) && Operand(out.regs, o) == v && Same(out.regs, m, n)
    && carried == CarriedAt(h.code, out)
  }

  /** An operand that needs no code. */
  predicate InPlace(e: Exp)
  {
    ((e.kind.KLit? && e.kind.fits) || e.kind.KReg?) && !HasJumps(e)
  }

  lemma Exp2RKRight(fs: FS, r: FS, e: Exp, x: Exit, c: Comparison, pc: nat, via: bool, m: Regs)
    requires Ready(fs) && Shape(fs, r, e) && StartAt(fs, pc, via) && Right(r, e, x, From(Body(r, e), c, pc, via, m))
    requires e.kind.KReg? ==> e.kind.r < fs.nactvar
    ensures var (h, e1, k) := Exp2RK(r, e); var o := From(Body(r, e), c, pc, via, m);
            o.Out? && OperandIs(h, k, x.val, if InPlace(e) then x.carried else None, From(h.code, c, pc, via, m), o.regs, fs.freereg)
  {
    var o := From(Body(r, e), c, pc, via, m);
    if InPlace(e) {
      assert Body(r, e) == r.code;
      hide Shape, Exp2NextReg, Exp2Reg;
    } else {
      GrowsLonger(fs, r);
      NextRegShape(fs, r, e);
      hide Shape, Exp2Reg, Exp2NextReg, Right, Body, AtHere, CarriedAt;
      NextRegRight(fs, r, e, x, c, pc, via, m);
      NextRegQuiet(fs, r, e);
      InSame(Exp2NextReg(r, e), fs.freereg, x.val, From(Exp2NextReg(r, e).code, c, pc, via, m), o.regs);
    }
  }

  lemma InSame(h: FS, reg: nat, v: Val, o: Out, m: Regs)
    requires IsIn(h.code, h.jpc, reg, v, o, m) && NoneSet(h.code, h.jpc)
    ensures OperandIs(h, Reg(reg), v, None, o, m, reg)
  {
  }

  /** Once a value has been put into a register, no pending jump carries one. */
  lemma NextRegQuiet(fs: FS, r: FS, e: Exp)
    requires Ready(fs) && Shape(fs, r, e) && (e.kind.KReg? ==> e.kind.r < fs.nactvar)
    ensures NoneSet(Exp2NextReg(r, e).code, Exp2NextReg(r, e).jpc)
  {
    hide *;
    var r1, reg := r.(freereg := fs.freereg + 1), fs.freereg;
    NextRegShape(fs, r, e);
    ReadyRegs(fs);
    var h := Discharge2Reg(r1, e, reg);
    DischargeShape(fs, r1, r.freereg, e, reg);
    DischargeQuiet(fs, r1, r.freereg, e, reg);
    Exp2RegIs(r1, e, reg);
    if (TrueJumps(e) == [] && e.f == []) || (!NeedValue(h.code, TrueJumps(e)) && !NeedValue(h.code, e.f)) || e.kind.KJmp? {
      NonePending(Exp2NextReg(r, e));
    } else {
      var k := Landed(h, e, reg);
      LandedShape(fs, h, e, reg);
      LandedSize(h, e, reg);
      ListsClosed(fs, k, e);
      HasGrows(fs, h, e);
      SkipFront(h, k, e, reg);
      LastNoTest(h.code);
      SkipTests(h, k.code, |h.code|);
      SkipQuiet(k.code, e.f, TrueJumps(e), reg, |JumpTo(h).code|, |JumpTo(h).code| + 1, |h.code|);
      OneSkip(h, Exp2NextReg(r, e));
    }
  }

  lemma DischargeQuiet(fs: FS, r: FS, n: nat, e: Exp, reg: nat)
    requires Shape(fs, r.(freereg := n), e) && (e.kind.KReg? ==> e.kind.r != reg)
    ensures Discharge2Reg(r, e, reg).jpc == []
  {
    hide Grows, ListOk;
  }

  lemma NonePending(h: FS)
    requires h.jpc == []
    ensures NoneSet(h.code, h.jpc)
  {
  }

  lemma OneSkip(h: FS, k: FS)
    requires h.jpc == [] && k.jpc == JumpList(h) && !TestsSet(k.code, |h.code|)
    ensures NoneSet(k.code, k.jpc)
  {
  }

  lemma SkipQuiet(code: seq<Instr>, f: seq<nat>, t: seq<nat>, reg: nat, lf: nat, lt: nat, j: nat)
    requires Open(code, f) && Open(code, t) && Apart(t, f) && Confined(code) && j < |code| && !Tests(code, j)
    requires lf <= |code| && lt <= |code| && (forall j :: j in f ==> j < lf) && (forall j :: j in t ==> j < lt)
    ensures !TestsSet(PatchBoth(code, f, t, reg, lf, lt), j)
  {
    if j >= 1 {
      BothOne(code, f, t, reg, lf, lt, j - 1);
    }
    hide Confined, Open, PatchBoth;
  }

  /** Into the next free register. */
  lemma NextRegRight(fs: FS, r: FS, e: Exp, x: Exit, c: Comparison, pc: nat, via: bool, m: Regs)
    requires Ready(fs) && Shape(fs, r, e) && StartAt(fs, pc, via) && Right(r, e, x, From(Body(r, e), c, pc, via, m))
    ensures var h, o := Exp2NextReg(r, e), From(Body(r, e), c, pc, via, m);
            o.Out? && IsIn(h.code, h.jpc, fs.freereg, x.val, From(h.code, c, pc, via, m), o.regs)
  {
    hide *;
    NextRegShape(fs, r, e);
    var r1 := r.(freereg := fs.freereg + 1);
    BodyFree(r, fs.freereg + 1, e, x, From(Body(r, e), c, pc, via, m));
    Exp2RegRight(fs, r1, r.freereg, e, fs.freereg, x, c, pc, via, m);
  }

  // ---------------------------------------------------------------- expressions

  lemma {:induction false} LeaveSame(x: Expr, carried: Option<Val>, c: Comparison, a: Regs, b: Regs, n: nat)
    requires Ok(x, n) && Same(a, b, n)
    ensures Leave(x, carried, c, a) == Leave(x, carried, c, b)
    decreases x
  {
    match x
    case Local(r) => assert Get(a, r) == Get(b, r);
    case Lit(_, _) =>
    case Neg(y) => LeaveSame(y, carried, c, a, b, n);
    case And(y, z) =>
      LeaveSame(y, carried, c, a, b, n);
      LeaveSame(z, Go(SortOf(y), Leave(y, carried, c, a), true).carried, c, a, b, n);
    case Or(y, z) =>
      LeaveSame(y, carried, c, a, b, n);
      LeaveSame(z, Go(SortOf(y), Leave(y, carried, c, a), false).carried, c, a, b, n);
    case Rel(_, y, z) =>
      LeaveSame(y, carried, c, a, b, n);
      LeaveSame(z, Second(y, Leave(y, carried, c, a)), c, a, b, n);
  }

  lemma SameLess(a: Regs, b: Regs, n: nat, k: nat)
    requires Same(a, b, n) && k <= n
    ensures Same(a, b, k) && Same(b, a, k)
  {
  }

  lemma SameTrans(a: Regs, b: Regs, d: Regs, n: nat)
    requires Same(a, b, n) && Same(b, d, n)
    ensures Same(a, d, n)
  {
  }

  /** A run that goes on from where the first operand's ended. */
  lemma GoesOn(fs: FS, g: FS, s: seq<nat>, k: FS, e: Exp, c: Comparison, pc: nat, via: bool, m: Regs)
    requires Ready(fs) && GoShape(fs, g, s) && Shape(g, k, e) && StartAt(fs, pc, via)
    ensures var o := From(g.code, c, pc, via, m);
            && Ended(g.code, o)
            && From(Body(k, e), c, pc, via, m) == if o.pc == |g.code| || o.pc in g.jpc then From(Body(k, e), c, o.pc, o.via, o.regs) else o
  {
    BodyRefines(g, k, e);
    StartEntry(fs, g.code, pc, via);
    hide Shape;
    ComposeFrom(g.code, Body(k, e), Elems(g.jpc), c, pc, via, m);
  }

  lemma BodyRefines(g: FS, k: FS, e: Exp)
    requires Shape(g, k, e)
    ensures Refined(g.code, Body(k, e), Elems(g.jpc)) && |g.code| <= |Body(k, e)|
  {
    RefinedBehind(g.code, k.code, Body(k, e), Elems(g.jpc));
  }

  /** The second operand decides: its outcome is the outcome of the whole. */
  lemma SecondRight(k: FS, e: Exp, s: seq<nat>, x: Exit, o: Out)
    requires Right(k, e, x, o)
    ensures Right(k, e.(f := e.f + s), x, o) && Right(k, e.(t := e.t + s), x, o)
  {
    assert Body(k, e.(f := e.f + s)) == Body(k, e) == Body(k, e.(t := e.t + s));
  }

  /** The first operand decides: the run has left by its list. */
  lemma FirstRight(fs: FS, g: FS, s: seq<nat>, k: FS, e: Exp, y: Went, o: Out, truth: bool)
    requires Ready(fs) && GoShape(fs, g, s) && Shape(g, k, e) && GoRight(g, s, y, o) && !y.on
    ensures truth ==> Right(k, e.(f := e.f + s), Leaving(y, truth), o)
    ensures !truth ==> Right(k, e.(t := e.t + s), Leaving(y, truth), o)
    ensures o.pc != |g.code| && o.pc !in g.jpc
  {
    JoinShape(fs, g, s, k, e);
    BodyRefines(g, k, e);
    KeptRefined(fs, g, k.code, s);
    assert OpenJump(g.code, o.pc);
    assert e.kind.KJmp? ==> e.kind.pc >= |g.code|;
    assert Body(k, e.(f := e.f + s)) == Body(k, e) == Body(k, e.(t := e.t + s));
    LeftList(fs, k, e, s, o.pc);
    hide Confined, Refined, Open, Grows;
  }

  lemma LeftList(fs: FS, k: FS, e: Exp, s: seq<nat>, j: nat)
    requires Shape(fs, k, e.(f := e.f + s)) && Shape(fs, k, e.(t := e.t + s)) && j in s
    ensures j !in k.jpc && j !in e.t && j !in e.f
  {
    assert j in e.f + s && j in e.t + s;
  }

  lemma HereStart(g: FS, o: Out)
    requires AtHere(g.code, g.jpc, |g.code|, o)
    ensures StartAt(g, o.pc, o.via) && (o.pc == |g.code| || o.pc in g.jpc)
  {
  }

  /** What the code of `x` does, started at `pc` with registers `m`. */
  ghost predicate Computes(fs: FS, r: FS, e: Exp, x: Exit, c: Comparison, pc: nat, via: bool, m: Regs)
  {
    var o := From(Body(r, e), c, pc, via, m);
    o.Out? && Right(r, e, x, o) && Same(o.regs, m, fs.freereg)
  }

  /** Both operands of and/or, given that the second one is right from wherever the first lets it start. */
  lemma AndOrRight(fs: FS, h: FS, ea: Exp, g: FS, s: seq<nat>, k: FS, eb: Exp, y: Went, xb: Exit, truth: bool, c: Comparison, pc: nat, via: bool, m: Regs)
    requires Ready(fs) && StartAt(fs, pc, via) && GoShape(fs, g, s) && Shape(g, k, eb) && g.freereg == fs.freereg
    requires var o, o' := From(Body(h, ea), c, pc, via, m), From(g.code, c, pc, via, m);
             o.Out? && o'.Out? && GoRight(g, s, y, o') && Same(o'.regs, o.regs, fs.freereg) && Same(o.regs, m, fs.freereg)
    requires var o' := From(g.code, c, pc, via, m);
             y.on ==> Computes(g, k, eb, xb, c, o'.pc, o'.via, o'.regs)
    ensures var x := if y.on then xb else Leaving(y, truth);
            && (truth ==> Computes(fs, k, eb.(f := eb.f + s), x, c, pc, via, m))
            && (!truth ==> Computes(fs, k, eb.(t := eb.t + s), x, c, pc, via, m))
  {
    var o := From(g.code, c, pc, via, m);
    GoesOn(fs, g, s, k, eb, c, pc, via, m);
    JoinedBody(k, eb, s);
    if y.on {
      hide Right, Shape, GoShape, Body;
      HereStart(g, o);
      SecondRight(k, eb, s, xb, From(Body(k, eb), c, o.pc, o.via, o.regs));
    } else {
      FirstRight(fs, g, s, k, eb, y, o, truth);
      hide Right, Shape, GoShape, Body;
    }
  }

  lemma JoinedBody(k: FS, e: Exp, s: seq<nat>)
    ensures Body(k, e.(f := e.f + s)) == Body(k, e) == Body(k, e.(t := e.t + s))
  {
  }

  /** What the jump carries by which a run starts. */
  function StartCarried(fs: FS, pc: nat, via: bool, m: Regs): Option<Val>
  {
    CarriedAt(fs.code, Out(pc, m, via))
  }

  /** The code of every expression is left as said. */
  lemma {:induction false} CompileRight(fs: FS, x: Expr, c: Comparison, pc: nat, via: bool, m: Regs)
    requires Ready(fs) && Ok(x, fs.nactvar) && StartAt(fs, pc, via)
    ensures var (r, e) := Compile(fs, x); Computes(fs, r, e, Leave(x, StartCarried(fs, pc, via, m), c, m), c, pc, via, m)
    decreases x
  {
    CompileShape(fs, x);
    match x {
      case Local(r) => AtomRight(fs, KReg(r), c, pc, via, m);
      case Lit(v, fits) => AtomRight(fs, KLit(v, fits), c, pc, via, m);
      case Neg(a) => NegRight(fs, a, c, pc, via, m);
      case And(a, b) => AndRight(fs, a, b, c, pc, via, m);
      case Or(a, b) => OrRight(fs, a, b, c, pc, via, m);
      case Rel(op, a, b) => RelRight(fs, op, a, b, c, pc, via, m);
    }
  }

  lemma AtomRight(fs: FS, k: Kind, c: Comparison, pc: nat, via: bool, m: Regs)
    requires Ready(fs) && StartAt(fs, pc, via) && (k.KReg? || k.KLit?)
    ensures var v := KindVal(fs, k, m);
            Computes(fs, fs, Exp(k, [], []), Exit(true, Truthy(v), v, StartCarried(fs, pc, via, m), true), c, pc, via, m)
  {
    if via {
      assert OpenJump(fs.code, pc);
    } else if pc in fs.jpc {
      assert OpenJump(fs.code, pc);
    }
    hide Confined, Open;
  }

  lemma {:induction false} NegRight(fs: FS, a: Expr, c: Comparison, pc: nat, via: bool, m: Regs)
    requires Ready(fs) && Ok(a, fs.nactvar) && StartAt(fs, pc, via)
    ensures var (r, e) := Compile(fs, Neg(a)); Computes(fs, r, e, Leave(Neg(a), StartCarried(fs, pc, via, m), c, m), c, pc, via, m)
    decreases Neg(a), 0
  {
    hide Shape, Right, Body, CodeNot, From, Negated, StartCarried;
    CompileRight(fs, a, c, pc, via, m);
    CompileShape(fs, a);
    CompileSort(fs, a);
    var (h, e) := Compile(fs, a);
    CodeNotRight(fs, h, e, Leave(a, StartCarried(fs, pc, via, m), c, m), c, pc, via, m);
  }

  lemma {:induction false} AndRight(fs: FS, a: Expr, b: Expr, c: Comparison, pc: nat, via: bool, m: Regs)
    requires Ready(fs) && Ok(And(a, b), fs.nactvar) && StartAt(fs, pc, via)
    ensures var (r, e) := Compile(fs, And(a, b)); Computes(fs, r, e, Leave(And(a, b), StartCarried(fs, pc, via, m), c, m), c, pc, via, m)
    decreases And(a, b), 0
  {
    hide Shape, Right, GoRight, Body, GoIfTrue, From, Ready, StartAt, Go, Leaving, StartCarried;
    CompileRight(fs, a, c, pc, via, m);
    CompileShape(fs, a);
    CompileSort(fs, a);
    var (h, ea) := Compile(fs, a);
    var xa := Leave(a, StartCarried(fs, pc, via, m), c, m);
    GoIfTrueShape(fs, h, ea);
    GoIfTrueRight(fs, h, ea, xa, c, pc, via, m);
    var (g, s) := GoIfTrue(h, ea);
    GoReady(fs, g, s);
    CompileShape(g, b);
    var (k, eb) := Compile(g, b);
    var o, y := From(g.code, c, pc, via, m), Go(SortOf(a), xa, true);
    if y.on {
      ThenStart(g, s, y, o);
      CompileRight(g, b, c, o.pc, o.via, o.regs);
      ThenLeave(fs, b, y.carried, c, From(Body(h, ea), c, pc, via, m).regs, o.regs, m);
    }
    AndOrRight(fs, h, ea, g, s, k, eb, y, Leave(b, y.carried, c, m), true, c, pc, via, m);
  }

  lemma {:induction false} OrRight(fs: FS, a: Expr, b: Expr, c: Comparison, pc: nat, via: bool, m: Regs)
    requires Ready(fs) && Ok(Or(a, b), fs.nactvar) && StartAt(fs, pc, via)
    ensures var (r, e) := Compile(fs, Or(a, b)); Computes(fs, r, e, Leave(Or(a, b), StartCarried(fs, pc, via, m), c, m), c, pc, via, m)
    decreases Or(a, b), 0
  {
    hide Shape, Right, GoRight, Body, GoIfFalse, From, Ready, StartAt, Go, Leaving, StartCarried;
    CompileRight(fs, a, c, pc, via, m);
    CompileShape(fs, a);
    CompileSort(fs, a);
    var (h, ea) := Compile(fs, a);
    var xa := Leave(a, StartCarried(fs, pc, via, m), c, m);
    GoIfFalseShape(fs, h, ea);
    GoIfFalseRight(fs, h, ea, xa, c, pc, via, m);
    var (g, s) := GoIfFalse(h, ea);
    GoReady(fs, g, s);
    CompileShape(g, b);
    var (k, eb) := Compile(g, b);
    var o, y := From(g.code, c, pc, via, m), Go(SortOf(a), xa, false);
    if y.on {
      ThenStart(g, s, y, o);
      CompileRight(g, b, c, o.pc, o.via, o.regs);
      ThenLeave(fs, b, y.carried, c, From(Body(h, ea), c, pc, via, m).regs, o.regs, m);
    }
    AndOrRight(fs, h, ea, g, s, k, eb, y, Leave(b, y.carried, c, m), false, c, pc, via, m);
  }

  lemma ThenStart(g: FS, s: seq<nat>, y: Went, o: Out)
    requires GoRight(g, s, y, o) && y.on
    ensures StartAt(g, o.pc, o.via) && o.Out? && StartCarried(g, o.pc, o.via, o.regs) == y.carried
  {
  }

  /** The second operand does the same with the registers the first one leaves. */
  lemma ThenLeave(fs: FS, b: Expr, carried: Option<Val>, c: Comparison, m1: Regs, m2: Regs, m: Regs)
    requires Ready(fs) && Ok(b, fs.nactvar) && Same(m1, m, fs.freereg) && Same(m2, m1, fs.freereg)
    ensures Leave(b, carried, c, m2) == Leave(b, carried, c, m)
  {
    SameTrans(m2, m1, m, fs.freereg);
    SameLess(m2, m, fs.freereg, fs.nactvar);
    LeaveSame(b, carried, c, m2, m, fs.nactvar);
  }

  /** Only a local is left in its register. */
  lemma {:induction false} CompileLocal(fs: FS, x: Expr, n: nat)
    requires Ok(x, n)
    ensures var e := Compile(fs, x).1; e.kind.KReg? ==> e.kind.r < n
    decreases x
  {
    hide GoIfTrue, GoIfFalse, Exp2RK, CondJump;
    match x {
      case Local(_) =>
      case Lit(_, _) =>
      case Rel(_, _, _) =>
      case Neg(a) => CompileLocal(fs, a, n);
      case And(a, b) => var (h, ea) := Compile(fs, a); CompileLocal(GoIfTrue(h, ea).0, b, n);
      case Or(a, b) => var (h, ea) := Compile(fs, a); CompileLocal(GoIfFalse(h, ea).0, b, n);
    }
  }

  lemma DirectInPlace(fs: FS, x: Expr)
    ensures InPlace(Compile(fs, x).1) == Direct(x)
  {
    CompileSort(fs, x);
  }

  lemma {:induction false} RelRight(fs: FS, op: RelOp, a: Expr, b: Expr, c: Comparison, pc: nat, via: bool, m: Regs)
    requires Ready(fs) && Ok(Rel(op, a, b), fs.nactvar) && StartAt(fs, pc, via)
    ensures var (r, e) := Compile(fs, Rel(op, a, b)); Computes(fs, r, e, Leave(Rel(op, a, b), StartCarried(fs, pc, via, m), c, m), c, pc, via, m)
    decreases Rel(op, a, b), 0
  {
    hide Shape, Right, Body, Exp2RK, From, Ready, StartAt, OperandIs, CondJump, CompInstr, Compares, FreeExp, StartCarried, InPlace, Direct;
    CompileRight(fs, a, c, pc, via, m);
    CompileShape(fs, a);
    CompileLocal(fs, a, fs.nactvar);
    DirectInPlace(fs, a);
    var (h, ea) := Compile(fs, a);
    var xa := Leave(a, StartCarried(fs, pc, via, m), c, m);
    Exp2RKShape(fs, h, ea);
    Exp2RKRight(fs, h, ea, xa, c, pc, via, m);
    var (h1, ea1, oa) := Exp2RK(h, ea);
    OperandReady(fs, h1, ea1, oa);
    ReadyRegs(fs);
    var o1, o2 := From(Body(h, ea), c, pc, via, m), From(h1.code, c, pc, via, m);
    OperandStart(h1, oa, xa.val, Second(a, xa), o2, o1.regs, fs.freereg);
    CompileShape(h1, b);
    CompileLocal(h1, b, fs.nactvar);
    CompileRight(h1, b, c, o2.pc, o2.via, o2.regs);
    var xb := Leave(b, Second(a, xa), c, m);
    ThenLeave(fs, b, Second(a, xa), c, o1.regs, o2.regs, m);
    var (h2, eb) := Compile(h1, b);
    Exp2RKRight(h1, h2, eb, xb, c, o2.pc, o2.via, o2.regs);
    RelShape(fs, h1, ea1, oa, h2, eb, op);
    var (h3, eb1, ob) := Exp2RK(h2, eb);
    var o3 := From(Body(h2, eb), c, o2.pc, o2.via, o2.regs);
    var o4 := From(h3.code, c, o2.pc, o2.via, o2.regs);
    BothOperands(fs, h1, ea1, oa, h3, ob, xa.val, Second(a, xa), xb.val, if InPlace(eb) then xb.carried else None, o1.regs, o2, o3.regs, o4, m);
    CompareRight(fs, h1, h3, op, oa, ob, xa.val, xb.val, c, pc, via, m);
  }

  lemma ReadyRegs(fs: FS)
    requires Ready(fs)
    ensures fs.nactvar <= fs.freereg
  {
  }

  lemma OperandStart(h: FS, o: RK, v: Val, carried: Option<Val>, out: Out, m: Regs, n: nat)
    requires OperandIs(h, o, v, carried, out, m, n)
    ensures StartAt(h, out.pc, out.via) && out.Out? && Same(out.regs, m, n) && StartCarried(h, out.pc, out.via, out.regs) == carried
  {
  }

  /** The first operand is still there when the second one is. */
  lemma BothOperands(fs: FS, h1: FS, ea: Exp, oa: RK, h3: FS, ob: RK, va: Val, ka: Option<Val>, vb: Val, kb: Option<Val>, m1: Regs, o2: Out, m3: Regs, o4: Out, m: Regs)
    requires fs.nactvar <= fs.freereg <= h1.freereg && OperandOk(fs, h1, ea, oa)
    requires OperandIs(h1, oa, va, ka, o2, m1, fs.freereg) && Same(m1, m, fs.freereg) && Same(m3, o2.regs, h1.freereg)
    requires OperandIs(h3, ob, vb, kb, o4, m3, h1.freereg)
    ensures o4.Out? && AtHere(h3.code, h3.jpc, |h3.code|, o4) && Operand(o4.regs, oa) == va && Operand(o4.regs, ob) == vb && Same(o4.regs, m, fs.freereg)
  {
    SameTrans(o4.regs, m3, o2.regs, h1.freereg);
    SameLess(o4.regs, o2.regs, h1.freereg, fs.freereg);
    SameTrans(o4.regs, o2.regs, m1, fs.freereg);
    SameTrans(o4.regs, m1, m, fs.freereg);
    if oa.Reg? {
      assert Get(o4.regs, oa.r) == Get(o2.regs, oa.r);
    }
    hide AtHere;
  }

  lemma CompareRight(fs: FS, h1: FS, h3: FS, op: RelOp, oa: RK, ob: RK, va: Val, vb: Val, c: Comparison, pc: nat, via: bool, m: Regs)
    requires Ready(fs) && Grows(fs, h1) && Grows(h1, h3) && Grows(fs, h3) && StartAt(fs, pc, via)
    requires var o2 := From(h1.code, c, pc, via, m); o2.Out? && StartAt(h1, o2.pc, o2.via)
    requires var o2 := From(h1.code, c, pc, via, m); var o4 := From(h3.code, c, o2.pc, o2.via, o2.regs);
             o4.Out? && AtHere(h3.code, h3.jpc, |h3.code|, o4) && Operand(o4.regs, oa) == va && Operand(o4.regs, ob) == vb && Same(o4.regs, m, fs.freereg)
    ensures var g := CondJump(h3.(freereg := fs.freereg), CompInstr(op, oa, ob));
            var t := Compares(op, va, vb, c); Computes(fs, g, Exp(KJmp(|g.code| - 1), [], []), Exit(false, t, Bool(t), None, true), c, pc, via, m)
  {
    var h := h3.(freereg := fs.freereg);
    var test := CompInstr(op, oa, ob);
    var g := CondJump(h, test);
    var o2 := From(h1.code, c, pc, via, m);
    var o4 := From(h3.code, c, o2.pc, o2.via, o2.regs);
    StartEntry(fs, h1.code, pc, via);
    StartEntry(fs, h3.code, pc, via);
    ComposeFrom(h1.code, h3.code, Elems(h1.jpc), c, pc, via, m);
    TestRun(h, test, c, pc, via, m);
    CompTakes(op, oa, ob, c, o4.regs);
    assert g.code[|g.code| - 2] == test && g.jpc == [] && |g.code| == |h.code| + 2;
    hide Confined, Refined, Open, CondJump, CompInstr, Compares;
  }

  lemma CompTakes(op: RelOp, x: RK, y: RK, c: Comparison, m: Regs)
    ensures Takes(CompInstr(op, x, y), c, m) == Compares(op, Operand(m, x), Operand(m, y), c) && CompInstr(op, x, y).Cmp?
  {
  }
}
