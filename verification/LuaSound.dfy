/**
 The code of an expression is left as said without code: at every stage, a run has
 come behind the code with the value where the descriptor says, or to a jump of the
 list for its truth, and that jump carries what it should.
 */
module LuaSound {
  import opened Options
  import opened LuaVm
  import opened LuaCode
  import opened LuaLists
  import opened LuaShape
  import opened LuaExits

  /** What the jump the run is at carries: the value its test has taken, if it keeps one. */
  function CarriedAt(code: seq<Instr>, o: Out): Option<Val>
    requires o.Out?
  {
    if o.via && TestsSet(code, o.pc) then Some(Get(o.regs, code[o.pc - 1].b)) else None
  }

  predicate AtList(code: seq<Instr>, s: seq<nat>, o: Out)
  {
    o.Out? && o.pc in s && o.via == Tests(code, o.pc)
  }

  /** Where the next instruction will be: behind the code, or at a jump pending to there. */
  predicate AtHere(code: seq<Instr>, jpc: seq<nat>, n: nat, o: Out)
  {
    o.Out? && ((o.pc == n && !o.via) || AtList(code, jpc, o))
  }

  /** The value of the expression once the run has come here. */
  function KindVal(r: FS, k: Kind, m: Regs): Val
  {
    match k
    case KLit(v, _) => v
    case KReg(q) => Get(m, q)
    case KReloc(pc) => if pc < |r.code| && r.code[pc].Not? then Bool(!Truthy(Get(m, r.code[pc].b))) else Nil
    case KJmp(_) => Bool(false)
  }

  /** The run has left the expression's code as `x` says. */
  predicate Right(r: FS, e: Exp, x: Exit, o: Out)
  {
    o.Out? && x.carried == CarriedAt(r.code, o) &&
    if AtHere(r.code, r.jpc, |Body(r, e)|, o) then
      x.here == !e.kind.KJmp? && x.val == KindVal(r, e.kind, o.regs) && x.truth == Truthy(x.val)
    else
      !x.here && x.val == Standing(x.carried, x.truth) && if x.truth then AtList(r.code, TrueJumps(e), o) else AtList(r.code, e.f, o)
  }

  /** A condition: going on here, or leaving by the list, as `y` says. */
  predicate GoRight(g: FS, s: seq<nat>, y: Went, o: Out)
  {
    o.Out? && y.carried == CarriedAt(g.code, o) &&
    if y.on then AtHere(g.code, g.jpc, |g.code|, o) else AtList(g.code, s, o)
  }

  /** No jump on the list carries a value. */
  predicate NoneSet(code: seq<Instr>, s: seq<nat>)
  {
    forall j :: j in s ==> !TestsSet(code, j)
  }

  // ---------------------------------------------------------------- a test and its jump

  lemma TestRun(h: FS, test: Instr, c: Comparison, pc: nat, via: bool, m: Regs)
    requires Open(h.code, h.jpc) && Confined(h.code) && Entry(h.code, pc, via) && IsTest(test) && (test.TestSet? ==> test.to.None?)
    ensures var o, g := From(h.code, c, pc, via, m), CondJump(h, test);
            && Ended(h.code, o)
            && From(g.code, c, pc, via, m) ==
                 if Here(h, o) then
                   if Takes(test, c, o.regs) then Out(|g.code| - 1, o.regs, true) else Out(|g.code|, o.regs, false)
                 else o
  {
    var n, g := |h.code|, CondJump(h, test);
    var o := From(h.code, c, pc, via, m);
    EmitRun(h, test, [Jmp(None)], c, pc, via, m);
    assert g.code == Emit(h, test).code + [Jmp(None)];
    assert g.code[n] == test && g.code[n + 1] == Jmp(None) && |g.code| == n + 2;
    hide Emit, CondJump;
    if Here(h, o) {
      RunTest(g.code, c, n, o.regs);
    }
  }

  lemma HereIs(h: FS, e: Exp, r: FS, o: Out)
    requires Ended(h.code, o) && h.jpc == r.jpc && |h.code| == |Body(r, e)| && AtHere(r.code, r.jpc, |Body(r, e)|, o)
    ensures Here(h, o)
  {
  }

  /** Tests in front of open jumps keep being tests. */
  lemma TestsStay(code: seq<Instr>, more: seq<Instr>, h: set<nat>, j: nat)
    requires Refined(code, more, h) && j < |code| && code[j] == Jmp(None)
    ensures Tests(more, j) == Tests(code, j)
    ensures j !in h ==> TestsSet(more, j) == TestsSet(code, j) && (TestsSet(code, j) ==> more[j - 1] == code[j - 1])
  {
    if j >= 1 {
      assert Replaces(code[j - 1], more[j - 1], j - 1, h);
    }
  }

  /** A run that is at a list stays right when the code grows behind it. */
  lemma ListStaysRight(fs: FS, r: FS, g: FS, s: seq<nat>, o: Out)
    requires ListOk(fs, r, s) && Refined(r.code, g.code, Elems(r.jpc)) && AtList(r.code, s, o)
    ensures AtList(g.code, s, o) && CarriedAt(g.code, o) == CarriedAt(r.code, o)
  {
    assert OpenJump(r.code, o.pc);
    TestsStay(r.code, g.code, Elems(r.jpc), o.pc);
  }

  // ---------------------------------------------------------------- into a register

  /** What `Discharge2Reg` does to a run: one that has come here has the value in `reg`, others stay where they are. */
  ghost predicate Loaded(r: FS, e: Exp, h: FS, reg: nat, o: Out, o': Out)
  {
    o.Out? && o'.Out? &&
    if AtHere(r.code, r.jpc, |Body(r, e)|, o) && !e.kind.KJmp? then
      && AtHere(h.code, h.jpc, |h.code|, o') && Get(o'.regs, reg) == KindVal(r, e.kind, o.regs)
      && forall q :: q != reg ==> Get(o'.regs, q) == Get(o.regs, q)
    else o' == o
  }

  lemma EmitLoads(r: FS, n: nat, e: Exp, i: Instr, reg: nat, c: Comparison, pc: nat, via: bool, m: Regs)
    requires Open(r.code, r.jpc) && Confined(r.code) && Entry(r.code, pc, via) && Body(r, e) == r.code && !e.kind.KJmp?
    requires match i case LoadBool(a, b, skip) => a == reg && !skip && e.kind.KLit? && e.kind.v == Bool(b)
                     case LoadK(a, v) => a == reg && e.kind.KLit? && e.kind.v == v
                     case Move(a, b) => a == reg && e.kind == KReg(b)
                     case _ => false
    ensures Ended(r.code, From(r.code, c, pc, via, m))
    ensures Right0(r, e, From(r.code, c, pc, via, m)) ==>
              Loaded(r, e, Emit(r, i), reg, From(r.code, c, pc, via, m), From(Emit(r, i).code, c, pc, via, m))
  {
    var o, h := From(r.code, c, pc, via, m), Emit(r, i);
    EmitRun(r, i, [], c, pc, via, m);
    assert h.code + [] == h.code && |h.code| == |r.code| + 1 && h.code[|r.code|] == i && h.jpc == [];
    hide Emit, Confined, Open;
  }

  /** A run that is nowhere else than here or at a list. */
  predicate Right0(r: FS, e: Exp, o: Out)
  {
    o.Out? && (AtHere(r.code, r.jpc, |Body(r, e)|, o) || (o.pc !in r.jpc && o.pc != |Body(r, e)|))
  }

  lemma RelocLoads(r: FS, e: Exp, reg: nat, c: Comparison, pc: nat, via: bool, m: Regs)
    requires e.kind.KReloc? && e.kind.pc == |r.code| - 1 && r.code[e.kind.pc].Not? && r.jpc == []
    requires Confined(r.code[..e.kind.pc]) && Entry(r.code[..e.kind.pc], pc, via)
    ensures var o, h := From(Body(r, e), c, pc, via, m), Discharge2Reg(r, e, reg);
            Ended(Body(r, e), o) && Loaded(r, e, h, reg, o, From(h.code, c, pc, via, m))
  {
    var body, h := Body(r, e), Discharge2Reg(r, e, reg);
    var p := e.kind.pc;
    assert h.code == body + [Instr.Not(reg, r.code[p].b)];
    RefinedPrefix(body, h.code);
    ComposeFrom(body, h.code, {}, c, pc, via, m);
    var o := From(body, c, pc, via, m);
    if o.pc == p {
      var b := r.code[p].b;
      var m' := o.regs[reg := Bool(!Truthy(Get(o.regs, b)))];
      assert Run(h.code, c, p + 1, m') == Out(p + 1, m', false);
      assert Run(h.code, c, p, o.regs) == Run(h.code, c, p + 1, m');
      assert Get(m', reg) == Bool(!Truthy(Get(o.regs, b)));
    }
    hide Confined;
  }

  lemma RefinedPrefix(code: seq<Instr>, more: seq<Instr>)
    requires code <= more
    ensures Refined(code, more, {})
  {
    forall p | 0 <= p < |code| ensures Replaces(code[p], more[p], p, {}) {
    }
  }

  lemma DischargeRun(fs: FS, r: FS, n: nat, e: Exp, reg: nat, c: Comparison, pc: nat, via: bool, m: Regs)
    requires Shape(fs, r.(freereg := n), e) && Entry(Body(r, e), pc, via)
    ensures Ended(Body(r, e), From(Body(r, e), c, pc, via, m))
    ensures Right0(r, e, From(Body(r, e), c, pc, via, m)) ==>
              Loaded(r, e, Discharge2Reg(r, e, reg), reg, From(Body(r, e), c, pc, via, m), From(Discharge2Reg(r, e, reg).code, c, pc, via, m))
  {
    hide Refined, Confined, Open;
    match e.kind {
      case KLit(Bool(b), _) => EmitLoads(r, n, e, LoadBool(reg, b, false), reg, c, pc, via, m);
      case KLit(v, _) => EmitLoads(r, n, e, LoadK(reg, v), reg, c, pc, via, m);
      case KReloc(_) => RelocLoads(r, e, reg, c, pc, via, m);
      case KReg(q) =>
        if q != reg {
          EmitLoads(r, n, e, Move(reg, q), reg, c, pc, via, m);
        } else {
          FromEnds(r.code, c, pc, via, m);
        }
      case KJmp(_) => FromEnds(r.code, c, pc, via, m);
    }
  }

  // ---------------------------------------------------------------- conditions

  /** What a conditional jump does to a run that has come here with value `w`. */
  ghost predicate Branched(r: FS, e: Exp, g: FS, cond: bool, n: nat, o: Out, o': Out)
  {
    o.Out? && o'.Out? && g.code != [] && Same(o'.regs, o.regs, n) &&
    if AtHere(r.code, r.jpc, |Body(r, e)|, o) then
      var w := KindVal(r, e.kind, o.regs);
      if Truthy(w) == cond then o'.pc == |g.code| - 1 && o'.via && CarriedAt(g.code, o') == (if e.kind.KReloc? then None else Some(w))
      else o'.pc == |g.code| && !o'.via
    else o' == o
  }

  lemma NotBranches(fs: FS, r: FS, e: Exp, cond: bool, c: Comparison, pc: nat, via: bool, m: Regs)
    requires Shape(fs, r, e) && e.kind.KReloc? && Entry(Body(r, e), pc, via)
    ensures var o, g := From(Body(r, e), c, pc, via, m), JumpOnCond(r, e, cond);
            Ended(Body(r, e), o) && Branched(r, e, g, cond, fs.freereg, o, From(g.code, c, pc, via, m))
  {
    var p := e.kind.pc;
    var body := r.(code := r.code[..p]);
    var test := Test(r.code[p].b, !cond);
    var g := CondJump(body, test);
    TestRun(body, test, c, pc, via, m);
    assert g.code[|g.code| - 2] == test;
    hide CondJump, Refined, Confined, Open;
  }

  lemma SetBranches(fs: FS, r: FS, e: Exp, cond: bool, c: Comparison, pc: nat, via: bool, m: Regs)
    requires Ready(fs) && Shape(fs, r, e) && !e.kind.KReloc? && !e.kind.KJmp? && Entry(Body(r, e), pc, via)
    ensures var o, g := From(Body(r, e), c, pc, via, m), JumpOnCond(r, e, cond);
            Ended(Body(r, e), o) && (Right0(r, e, o) ==> Branched(r, e, g, cond, fs.freereg, o, From(g.code, c, pc, via, m)))
  {
    var (h, q) := InAnyReg(r, e);
    var h1 := FreeExp(h, Exp(KReg(q), [], []));
    InAnyRegShape(fs, r, e);
    var o := From(Body(r, e), c, pc, via, m);
    InAnyRegRun(fs, r, e, c, pc, via, m);
    hide *;
    JumpOnCondIs(r, e, cond);
    BranchOn(fs, r, e, h, h1, q, cond, c, pc, via, m);
  }

  lemma InAnyRegRun(fs: FS, r: FS, e: Exp, c: Comparison, pc: nat, via: bool, m: Regs)
    requires Ready(fs) && Shape(fs, r, e) && !e.kind.KReloc? && !e.kind.KJmp? && Entry(Body(r, e), pc, via)
    ensures var (h, q) := InAnyReg(r, e);
            && Ended(Body(r, e), From(Body(r, e), c, pc, via, m)) && Body(r, e) == r.code && |h.code| >= |r.code| && q == (if e.kind.KReg? then e.kind.r else fs.freereg)
            && Entry(h.code, pc, via) && (forall j :: j in h.jpc ==> j in r.jpc)
            && (Right0(r, e, From(r.code, c, pc, via, m)) ==> Loaded(r, e, h, q, From(r.code, c, pc, via, m), From(h.code, c, pc, via, m)))
  {
    var (h, q) := InAnyReg(r, e);
    match e.kind {
      case KReg(_) => FromEnds(r.code, c, pc, via, m);
      case _ =>
        DischargeRun(fs, Reserve(r), r.freereg, e, r.freereg, c, pc, via, m);
        LoadedReserve(r, e, h, q, From(r.code, c, pc, via, m), From(h.code, c, pc, via, m));
        GrownEntry(r, e, h, pc, via);
    }
  }

  lemma LoadedReserve(r: FS, e: Exp, h: FS, q: nat, o: Out, o': Out)
    ensures Loaded(Reserve(r), e, h, q, o, o') == Loaded(r, e, h, q, o, o')
    ensures Right0(Reserve(r), e, o) == Right0(r, e, o)
  {
  }

  lemma GrownEntry(r: FS, e: Exp, h: FS, pc: nat, via: bool)
    requires e.kind.KLit? && (h == Discharge2Reg(Reserve(r), e, r.freereg)) && Open(r.code, r.jpc) && Entry(r.code, pc, via)
    ensures |h.code| == |r.code| + 1 && Entry(h.code, pc, via)
  {
    PatchRefines(r.code, r.jpc, |r.code|, None, |r.code|);
    var patched := Patch(r.code, r.jpc, |r.code|, None, |r.code|);
    if via {
      assert Replaces(r.code[pc], patched[pc], pc, Elems(r.jpc)) && Replaces(r.code[pc - 1], patched[pc - 1], pc - 1, Elems(r.jpc));
    }
  }

  lemma BranchOn(fs: FS, r: FS, e: Exp, h: FS, h1: FS, q: nat, cond: bool, c: Comparison, pc: nat, via: bool, m: Regs)
    requires Grows(fs, h) && RegOk(fs, q) && h1 == h.(freereg := h1.freereg) && Body(r, e) == r.code && !e.kind.KJmp? && !e.kind.KReloc? && |h.code| >= |r.code|
    requires Entry(h.code, pc, via) && Ended(r.code, From(r.code, c, pc, via, m))
    requires (e.kind == KReg(q) || q == fs.freereg) && forall j :: j in h.jpc ==> j in r.jpc
    requires Right0(r, e, From(r.code, c, pc, via, m)) ==> Loaded(r, e, h, q, From(r.code, c, pc, via, m), From(h.code, c, pc, via, m))
    ensures var o, g := From(r.code, c, pc, via, m), CondJump(h1, TestSet(None, q, cond));
            Right0(r, e, o) ==> Branched(r, e, g, cond, fs.freereg, o, From(g.code, c, pc, via, m))
  {
    var test := TestSet(None, q, cond);
    var g := CondJump(h1, test);
    TestRun(h1, test, c, pc, via, m);
    assert g.code[|g.code| - 2] == test && |g.code| == |h.code| + 2;
    assert TestsSet(g.code, |g.code| - 1);
    hide CondJump, Refined, Confined, Open;
  }

  /** The tests in front of the jumps of `s` are as they were. */
  predicate TestsKept(code: seq<Instr>, more: seq<Instr>, s: seq<nat>)
  {
    forall j :: j in s ==>
      Tests(more, j) == Tests(code, j) && TestsSet(more, j) == TestsSet(code, j) && (TestsSet(code, j) ==> more[j - 1] == code[j - 1])
  }

  lemma KeptRefined(fs: FS, r: FS, more: seq<Instr>, s: seq<nat>)
    requires ListOk(fs, r, s) && Refined(r.code, more, Elems(r.jpc))
    ensures TestsKept(r.code, more, s)
  {
    forall j | j in s ensures Tests(more, j) == Tests(r.code, j) && TestsSet(more, j) == TestsSet(r.code, j) && (TestsSet(r.code, j) ==> more[j - 1] == r.code[j - 1]) {
      assert OpenJump(r.code, j);
      TestsStay(r.code, more, Elems(r.jpc), j);
    }
  }

  lemma JumpOnCondKeeps(fs: FS, r: FS, e: Exp, cond: bool)
    requires Ready(fs) && Shape(fs, r, e) && !e.kind.KJmp?
    ensures var g := JumpOnCond(r, e, cond); TestsKept(r.code, g.code, e.t) && TestsKept(r.code, g.code, e.f)
  {
    var g := JumpOnCond(r, e, cond);
    if e.kind.KReloc? {
      var p := e.kind.pc;
      var body := r.(code := r.code[..p]);
      assert g.code == body.code + [Test(r.code[p].b, !cond), Jmp(None)] by { assert Patch(body.code, [], p, None, p) == body.code; }
      forall j | j in e.t || j in e.f ensures Tests(g.code, j) == Tests(r.code, j) && TestsSet(g.code, j) == TestsSet(r.code, j) && (TestsSet(r.code, j) ==> g.code[j - 1] == r.code[j - 1]) {
        assert OpenJump(r.code, j);
        hide JumpOnCond;
      }
    } else {
      InAnyRegShape(fs, r, e);
      var (h, q) := InAnyReg(r, e);
      InAnyRegRefines(fs, r, e);
      CondJumpGrows(fs, FreeExp(h, Exp(KReg(q), [], [])), TestSet(None, q, cond));
      JumpOnCondIs(r, e, cond);
      hide JumpOnCond, InAnyReg, CondJump, Confined;
      RefinedThrough(r.code, h.code, g.code, Elems(r.jpc), Elems(h.jpc));
      KeptRefined(fs, r, g.code, e.t);
      KeptRefined(fs, r, g.code, e.f);
    }
  }

  lemma InAnyRegRefines(fs: FS, r: FS, e: Exp)
    requires Ready(fs) && Shape(fs, r, e) && !e.kind.KReloc? && !e.kind.KJmp?
    ensures var (h, _) := InAnyReg(r, e);
            Refined(r.code, h.code, Elems(r.jpc)) && (forall j :: j in h.jpc ==> j in r.jpc) && Confined(r.code)
  {
    match e.kind {
      case KReg(_) => SelfRefined(r);
      case KLit(Bool(b), _) => EmitGrows(fs, Reserve(r), LoadBool(r.freereg, b, false));
      case KLit(v, _) => EmitGrows(fs, Reserve(r), LoadK(r.freereg, v));
      case _ =>
    }
  }

  lemma SelfRefined(r: FS)
    requires Open(r.code, r.jpc)
    ensures Refined(r.code, r.code, Elems(r.jpc))
  {
    forall p | 0 <= p < |r.code| ensures Replaces(r.code[p], r.code[p], p, Elems(r.jpc)) {
      if p + 1 in r.jpc {
        assert OpenJump(r.code, p + 1);
      }
      if p in r.jpc {
        assert OpenJump(r.code, p);
      }
    }
  }

  /** The value needs a test: of the literals, only one that is no boolean and does not let the run go on. */
  predicate Tested(e: Exp, cond: bool)
  {
    e.kind.KLit? ==> Truthy(e.kind.v) == cond && !Bare(e.kind.v, !cond)
  }

  /** From a branch to a condition: `here` is where the run goes on, `leave` the list it leaves by. */
  lemma CondRight(fs: FS, r: FS, e: Exp, g: FS, cond: bool, x: Exit, o: Out, o': Out)
    requires Shape(fs, r, e) && !e.kind.KJmp? && Jumped(fs, e, g) && Ended(Body(r, e), o) && Tested(e, cond)
    requires Right(r, e, x, o) && Branched(r, e, g, cond, fs.freereg, o, o')
    requires TestsKept(r.code, g.code, e.t) && TestsKept(r.code, g.code, e.f) && Tests(g.code, |g.code| - 1)
    ensures !cond ==> GoRight(g.(jpc := g.jpc + e.t), e.f + [|g.code| - 1 as nat], Go(KindSort(e.kind), x, true), o')
    ensures cond ==> GoRight(g.(jpc := g.jpc + e.f), e.t + [|g.code| - 1 as nat], Go(KindSort(e.kind), x, false), o')
  {
    hide Refined, Confined, Open, Grows, Shape;
    if AtHere(r.code, r.jpc, |Body(r, e)|, o) {
      assert |g.code| - 1 !in e.t && |g.code| - 1 !in e.f;
    } else {
      ListsShort(fs, e, g);
    }
  }

  lemma ListsShort(fs: FS, e: Exp, g: FS)
    requires Jumped(fs, e, g)
    ensures forall j :: j in e.t || j in e.f ==> j < |g.code|
  {
    forall j | j in e.t || j in e.f ensures j < |g.code| {
      assert OpenJump(g.code, j);
    }
  }

  /** Where compiling starts: behind the code there is, or at a jump pending to there. */
  predicate StartAt(fs: FS, pc: nat, via: bool)
  {
    (pc == |fs.code| && !via) || (pc in fs.jpc && via == Tests(fs.code, pc))
  }

  lemma StartEntry(fs: FS, more: seq<Instr>, pc: nat, via: bool)
    requires Open(fs.code, fs.jpc) && Refined(fs.code, more, Elems(fs.jpc)) && StartAt(fs, pc, via)
    ensures Entry(more, pc, via)
  {
    if via {
      assert OpenJump(fs.code, pc);
      assert Replaces(fs.code[pc], more[pc], pc, Elems(fs.jpc)) && Replaces(fs.code[pc - 1], more[pc - 1], pc - 1, Elems(fs.jpc));
    }
  }

  lemma StartBody(fs: FS, r: FS, e: Exp, pc: nat, via: bool)
    requires Ready(fs) && Shape(fs, r, e) && StartAt(fs, pc, via)
    ensures Entry(Body(r, e), pc, via) && (e.kind.KJmp? ==> Entry(r.code[..e.kind.pc - 1], pc, via))
  {
    var body := Body(r, e);
    RefinedBehind(fs.code, r.code, body, Elems(fs.jpc));
    StartEntry(fs, body, pc, via);
    if e.kind.KJmp? {
      var front := r.code[..e.kind.pc - 1];
      RefinedBehind(fs.code, r.code, front, Elems(fs.jpc));
      StartEntry(fs, front, pc, via);
    }
  }

  /** The unconditional jump of a literal. */
  lemma JumpToRight(fs: FS, r: FS, e: Exp, here: seq<nat>, leave: seq<nat>, truth: bool, x: Exit, c: Comparison, pc: nat, via: bool, m: Regs)
    requires Ready(fs) && Shape(fs, r, e) && e.kind.KLit? && Entry(r.code, pc, via) && Bare(e.kind.v, truth)
    requires if truth then here == e.t && leave == e.f else here == e.f && leave == e.t
    requires Right(r, e, x, From(r.code, c, pc, via, m))
    ensures var g, o := JumpTo(r), From(r.code, c, pc, via, m);
            var o' := From(g.code, c, pc, via, m);
            o.Out? && GoRight(g.(jpc := g.jpc + here), leave + JumpList(r), Go(KindSort(e.kind), x, truth), o') && o'.Out? && o'.regs == o.regs
  {
    hide *;
    var o := From(r.code, c, pc, via, m);
    JumpToRun(fs, r, e, c, pc, via, m);
    RightPlace(fs, r, e, x, o);
    OneMoreJump(r, o.pc);
    JumpToLeaves(r, e, here, leave, truth, x, o);
  }

  lemma JumpToRun(fs: FS, r: FS, e: Exp, c: Comparison, pc: nat, via: bool, m: Regs)
    requires Shape(fs, r, e) && Entry(r.code, pc, via)
    ensures From(JumpTo(r).code, c, pc, via, m) == From(r.code, c, pc, via, m)
    ensures Ended(r.code, From(r.code, c, pc, via, m)) && !Tests(r.code, |r.code|)
  {
    var g := JumpTo(r);
    RefinedPrefix(r.code, g.code);
    ComposeFrom(r.code, g.code, {}, c, pc, via, m);
    LastNoTest(r.code);
    hide Refined, Confined, Open, Grows;
  }

  lemma RightPlace(fs: FS, r: FS, e: Exp, x: Exit, o: Out)
    requires Shape(fs, r, e) && e.kind.KLit? && Right(r, e, x, o)
    ensures o.Out? && o.pc <= |r.code| && Body(r, e) == r.code
    ensures o.pc in r.jpc ==> o.pc !in e.t && o.pc !in e.f && o.pc < |r.code|
    ensures o.pc in e.t || o.pc in e.f ==> o.pc < |r.code|
    ensures Apart(e.t, e.f)
  {
    if o.pc in r.jpc || o.pc in e.t || o.pc in e.f {
      assert OpenJump(r.code, o.pc);
    }
    hide Grows;
  }

  /** Leaving by the new jump, or by one that was pending, with what that carries. */
  lemma JumpToLeaves(r: FS, e: Exp, here: seq<nat>, leave: seq<nat>, truth: bool, x: Exit, o: Out)
    requires Right(r, e, x, o) && e.kind.KLit? && Bare(e.kind.v, truth) && !Tests(r.code, |r.code|)
    requires if truth then here == e.t && leave == e.f else here == e.f && leave == e.t
    requires o.pc <= |r.code| && Body(r, e) == r.code && Apart(e.t, e.f)
    requires o.pc in r.jpc ==> o.pc !in e.t && o.pc !in e.f && o.pc < |r.code|
    requires o.pc in e.t || o.pc in e.f ==> o.pc < |r.code|
    requires var more := JumpTo(r).code;
             Tests(more, o.pc) == Tests(r.code, o.pc) && TestsSet(more, o.pc) == TestsSet(r.code, o.pc) && (o.pc >= 1 ==> more[o.pc - 1] == r.code[o.pc - 1])
    ensures var g := JumpTo(r); GoRight(g.(jpc := g.jpc + here), leave + JumpList(r), Go(KindSort(e.kind), x, truth), o)
  {
    hide Tests, TestsSet, Body;
    if o.pc == |r.code| {
      NoSet(r.code, o.pc);
    }
  }

  lemma NoSet(code: seq<Instr>, j: nat)
    requires !Tests(code, j)
    ensures !TestsSet(code, j)
  {
  }

  lemma OneMoreJump(r: FS, j: nat)
    requires j <= |r.code|
    ensures var more := JumpTo(r).code;
            Tests(more, j) == Tests(r.code, j) && TestsSet(more, j) == TestsSet(r.code, j) && (j >= 1 ==> more[j - 1] == r.code[j - 1])
  {
  }

  /** Inverting a comparison's jump exchanges jumping and going on. */
  lemma InvertRun(r: FS, k: nat, c: Comparison, pc: nat, via: bool, m: Regs)
    requires 1 <= k == |r.code| - 1 && r.code[k] == Jmp(None) && r.code[k - 1].Cmp? && Confined(r.code[..k - 1]) && Entry(r.code[..k - 1], pc, via)
    ensures var o, o' := From(r.code, c, pc, via, m), From(InvertJump(r.code, k), c, pc, via, m);
            o.Out? && o' == if o.pc == k then Out(k + 1, o.regs, false) else if o.pc == k + 1 then Out(k, o.regs, true) else o
    ensures var o := From(r.code, c, pc, via, m); o.pc >= k ==> o.via == (o.pc == k)
  {
    var front, inv := r.code[..k - 1], InvertJump(r.code, k);
    RefinedPrefix(front, r.code);
    assert inv[..k - 1] == front;
    RefinedPrefix(front, inv);
    ComposeFrom(front, r.code, {}, c, pc, via, m);
    ComposeFrom(front, inv, {}, c, pc, via, m);
    var o0 := From(front, c, pc, via, m);
    if o0.pc == k - 1 {
      RunTest(r.code, c, k - 1, o0.regs);
      RunTest(inv, c, k - 1, o0.regs);
    }
    hide Confined, Refined;
  }

  lemma JmpLists(fs: FS, r: FS, e: Exp)
    requires Ready(fs) && Shape(fs, r, e) && e.kind.KJmp?
    ensures var k, inv := e.kind.pc, InvertJump(r.code, e.kind.pc);
            && |inv| == |r.code| == k + 1 && r.jpc == [] && Tests(r.code, k) && !TestsSet(r.code, k) && Tests(inv, k) && !TestsSet(inv, k)
            && TestsKept(r.code, inv, e.t) && TestsKept(r.code, inv, e.f)
            && (forall j :: j in e.t || j in e.f ==> j < k)
  {
    var k, inv := e.kind.pc, InvertJump(r.code, e.kind.pc);
    forall j | j in e.t || j in e.f ensures j < k && j != k && Tests(inv, j) == Tests(r.code, j) && TestsSet(inv, j) == TestsSet(r.code, j) && (TestsSet(r.code, j) ==> inv[j - 1] == r.code[j - 1]) {
      assert OpenJump(r.code, j);
    }
    hide Refined, Confined, Open;
  }

  lemma JmpTrue(fs: FS, r: FS, e: Exp, x: Exit, c: Comparison, pc: nat, via: bool, m: Regs)
    requires Ready(fs) && Shape(fs, r, e) && e.kind.KJmp? && StartAt(fs, pc, via) && Right(r, e, x, From(r.code, c, pc, via, m))
    ensures var h, o := r.(code := InvertJump(r.code, e.kind.pc)), From(r.code, c, pc, via, m);
            var o' := From(h.code, c, pc, via, m);
            o.Out? && GoRight(h.(jpc := h.jpc + e.t), e.f + [e.kind.pc], Go(SJmp, x, true), o') && o'.Out? && o'.regs == o.regs
  {
    StartBody(fs, r, e, pc, via);
    JmpLists(fs, r, e);
    assert Confined(r.code[..e.kind.pc - 1]);
    hide Confined, Refined, Open, Grows;
    InvertRun(r, e.kind.pc, c, pc, via, m);
    hide InvertJump;
  }

  lemma JmpFalse(fs: FS, r: FS, e: Exp, x: Exit, c: Comparison, pc: nat, via: bool, m: Regs)
    requires Ready(fs) && Shape(fs, r, e) && e.kind.KJmp? && StartAt(fs, pc, via) && Right(r, e, x, From(r.code, c, pc, via, m))
    ensures var o := From(r.code, c, pc, via, m);
            o.Out? && GoRight(r.(jpc := r.jpc + e.f), e.t + [e.kind.pc], Go(SJmp, x, false), o)
  {
    StartBody(fs, r, e, pc, via);
    JmpLists(fs, r, e);
    assert Confined(r.code[..e.kind.pc - 1]);
    hide Confined, Refined, Open, Grows;
    InvertRun(r, e.kind.pc, c, pc, via, m);
    hide InvertJump;
  }

  lemma LitOn(r: FS, e: Exp, here: seq<nat>, leave: seq<nat>, truth: bool, x: Exit, o: Out)
    requires e.kind.KLit? && Right(r, e, x, o) && Truthy(e.kind.v) == truth
    requires if truth then here == e.t && leave == e.f else here == e.f && leave == e.t
    ensures GoRight(r.(jpc := r.jpc + here), leave + [], Go(KindSort(e.kind), x, truth), o)
  {
    assert leave + [] == leave;
  }

  lemma LitTrue(fs: FS, r: FS, e: Exp, x: Exit, c: Comparison, pc: nat, via: bool, m: Regs)
    requires Ready(fs) && Shape(fs, r, e) && e.kind.KLit? && (Bare(e.kind.v, true) || Truthy(e.kind.v) == true) && StartAt(fs, pc, via) && Right(r, e, x, From(Body(r, e), c, pc, via, m))
    ensures var (g, s) := GoIfTrue(r, e); var o, o' := From(Body(r, e), c, pc, via, m), From(g.code, c, pc, via, m);
            o.Out? && o'.Out? && GoRight(g, s, Go(KindSort(e.kind), x, true), o') && Same(o'.regs, o.regs, fs.freereg)
  {
    StartBody(fs, r, e, pc, via);
    assert Body(r, e) == r.code;
    if Truthy(e.kind.v) == true {
      LitOn(r, e, e.t, e.f, true, x, From(r.code, c, pc, via, m));
    } else {
      JumpToRight(fs, r, e, e.t, e.f, true, x, c, pc, via, m);
    }
    hide Shape, Ready, Right, GoRight, Body;
  }

  lemma ElseTrue(fs: FS, r: FS, e: Exp, x: Exit, c: Comparison, pc: nat, via: bool, m: Regs)
    requires Ready(fs) && Shape(fs, r, e) && !e.kind.KJmp? && Tested(e, false) && StartAt(fs, pc, via) && Right(r, e, x, From(Body(r, e), c, pc, via, m))
    ensures var (g, s) := GoIfTrue(r, e); var o, o' := From(Body(r, e), c, pc, via, m), From(g.code, c, pc, via, m);
            o.Out? && o'.Out? && GoRight(g, s, Go(KindSort(e.kind), x, true), o') && Same(o'.regs, o.regs, fs.freereg)
  {
    BranchRight(fs, r, e, false, x, c, pc, via, m);
    hide Shape, Ready, Right, GoRight, JumpOnCond, Body;
  }

  /** After `GoIfTrue` the run goes on here exactly when the operand was true. */
  lemma GoIfTrueRight(fs: FS, r: FS, e: Exp, x: Exit, c: Comparison, pc: nat, via: bool, m: Regs)
    requires Ready(fs) && Shape(fs, r, e) && StartAt(fs, pc, via) && Right(r, e, x, From(Body(r, e), c, pc, via, m))
    ensures var (g, s) := GoIfTrue(r, e); var o, o' := From(Body(r, e), c, pc, via, m), From(g.code, c, pc, via, m);
            o.Out? && o'.Out? && GoRight(g, s, Go(KindSort(e.kind), x, true), o') && Same(o'.regs, o.regs, fs.freereg)
  {
    if e.kind.KJmp? {
      JmpTrue(fs, r, e, x, c, pc, via, m);
      hide Shape, Ready, Right, GoRight;
    } else if Tested(e, false) {
      ElseTrue(fs, r, e, x, c, pc, via, m);
      hide *;
    } else {
      LitTrue(fs, r, e, x, c, pc, via, m);
      hide *;
    }
  }

  lemma LitFalse(fs: FS, r: FS, e: Exp, x: Exit, c: Comparison, pc: nat, via: bool, m: Regs)
    requires Ready(fs) && Shape(fs, r, e) && e.kind.KLit? && (Bare(e.kind.v, false) || Truthy(e.kind.v) == false) && StartAt(fs, pc, via) && Right(r, e, x, From(Body(r, e), c, pc, via, m))
    ensures var (g, s) := GoIfFalse(r, e); var o, o' := From(Body(r, e), c, pc, via, m), From(g.code, c, pc, via, m);
            o.Out? && o'.Out? && GoRight(g, s, Go(KindSort(e.kind), x, false), o') && Same(o'.regs, o.regs, fs.freereg)
  {
    StartBody(fs, r, e, pc, via);
    assert Body(r, e) == r.code;
    if Truthy(e.kind.v) == false {
      LitOn(r, e, e.f, e.t, false, x, From(r.code, c, pc, via, m));
    } else {
      JumpToRight(fs, r, e, e.f, e.t, false, x, c, pc, via, m);
    }
    hide Shape, Ready, Right, GoRight, Body;
  }

  lemma ElseFalse(fs: FS, r: FS, e: Exp, x: Exit, c: Comparison, pc: nat, via: bool, m: Regs)
    requires Ready(fs) && Shape(fs, r, e) && !e.kind.KJmp? && Tested(e, true) && StartAt(fs, pc, via) && Right(r, e, x, From(Body(r, e), c, pc, via, m))
    ensures var (g, s) := GoIfFalse(r, e); var o, o' := From(Body(r, e), c, pc, via, m), From(g.code, c, pc, via, m);
            o.Out? && o'.Out? && GoRight(g, s, Go(KindSort(e.kind), x, false), o') && Same(o'.regs, o.regs, fs.freereg)
  {
    BranchRight(fs, r, e, true, x, c, pc, via, m);
    hide Shape, Ready, Right, GoRight, JumpOnCond, Body;
  }

  /** After `GoIfFalse` the run goes on here exactly when the operand was false. */
  lemma GoIfFalseRight(fs: FS, r: FS, e: Exp, x: Exit, c: Comparison, pc: nat, via: bool, m: Regs)
    requires Ready(fs) && Shape(fs, r, e) && StartAt(fs, pc, via) && Right(r, e, x, From(Body(r, e), c, pc, via, m))
    ensures var (g, s) := GoIfFalse(r, e); var o, o' := From(Body(r, e), c, pc, via, m), From(g.code, c, pc, via, m);
            o.Out? && o'.Out? && GoRight(g, s, Go(KindSort(e.kind), x, false), o') && Same(o'.regs, o.regs, fs.freereg)
  {
    if e.kind.KJmp? {
      JmpFalse(fs, r, e, x, c, pc, via, m);
      hide Shape, Ready, Right, GoRight;
    } else if Tested(e, true) {
      ElseFalse(fs, r, e, x, c, pc, via, m);
      hide *;
    } else {
      LitFalse(fs, r, e, x, c, pc, via, m);
      hide *;
    }
  }

  lemma BranchRight(fs: FS, r: FS, e: Exp, cond: bool, x: Exit, c: Comparison, pc: nat, via: bool, m: Regs)
    requires Ready(fs) && Shape(fs, r, e) && !e.kind.KJmp? && Tested(e, cond) && StartAt(fs, pc, via) && Right(r, e, x, From(Body(r, e), c, pc, via, m))
    ensures var g := JumpOnCond(r, e, cond); var o, o' := From(Body(r, e), c, pc, via, m), From(g.code, c, pc, via, m);
            && g.code != [] && o.Out? && o'.Out? && Same(o'.regs, o.regs, fs.freereg)
            && (!cond ==> GoRight(g.(jpc := g.jpc + e.t), e.f + [|g.code| - 1 as nat], Go(KindSort(e.kind), x, true), o'))
            && (cond ==> GoRight(g.(jpc := g.jpc + e.f), e.t + [|g.code| - 1 as nat], Go(KindSort(e.kind), x, false), o'))
  {
    StartBody(fs, r, e, pc, via);
    JumpOnCondShape(fs, r, e, cond);
    JumpOnCondKeeps(fs, r, e, cond);
    JumpOnCondTests(fs, r, e, cond);
    var g := JumpOnCond(r, e, cond);
    var o, o' := From(Body(r, e), c, pc, via, m), From(g.code, c, pc, via, m);
    if e.kind.KReloc? {
      NotBranches(fs, r, e, cond, c, pc, via, m);
    } else {
      SetBranches(fs, r, e, cond, c, pc, via, m);
      RightElsewhere(fs, r, e, x, o);
    }
    hide *;
    BranchedSame(r, e, g, cond, fs.freereg, o, o');
    CondRight(fs, r, e, g, cond, x, o, o');
  }

  lemma BranchedSame(r: FS, e: Exp, g: FS, cond: bool, n: nat, o: Out, o': Out)
    requires Branched(r, e, g, cond, n, o, o')
    ensures o.Out? && o'.Out? && Same(o'.regs, o.regs, n) && g.code != []
  {
  }

  lemma RightElsewhere(fs: FS, r: FS, e: Exp, x: Exit, o: Out)
    requires Shape(fs, r, e) && Right(r, e, x, o)
    ensures Right0(r, e, o)
  {
    if !AtHere(r.code, r.jpc, |Body(r, e)|, o) && (o.pc in e.t || o.pc in e.f) {
      assert OpenJump(r.code, o.pc);
    }
    hide Refined, Confined, Grows;
  }

  lemma JumpOnCondTests(fs: FS, r: FS, e: Exp, cond: bool)
    requires Ready(fs) && Shape(fs, r, e) && !e.kind.KJmp?
    ensures var g := JumpOnCond(r, e, cond); |g.code| >= 2 && Tests(g.code, |g.code| - 1)
  {
    hide Shape, Ready, InAnyReg;
  }
}
