/**
 Whole assignments: what the code for an expression puts where its value is wanted,
 for which expressions that is the value, and for which it is not.
 */
module LuaAssign {
  import opened Options
  import opened LuaVm
  import opened LuaCode
  import opened LuaLists
  import opened LuaShape
  import opened LuaExits
  import opened LuaSound
  import opened LuaValues
  import opened LuaCorrect

  /** The code once the next instruction's place is known. */
  function Closed(h: FS): seq<Instr>
  {
    Patch(h.code, h.jpc, |h.code|, None, |h.code|)
  }

  /** A function with n locals; nothing compiled yet. */
  function Empty(n: nat): FS
  {
    FS([], [], n, n)
  }

  /** `local r = x`: the value goes into the next free register. */
  function Declare(x: Expr, n: nat): seq<Instr>
  {
    var (r, e) := Compile(Empty(n), x);
    Closed(Exp2NextReg(r, e))
  }

  /** `r = x` for a local r. */
  function Assign(x: Expr, n: nat, r: nat): seq<Instr>
  {
    var (g, e) := Compile(Empty(n), x);
    Closed(Exp2Reg(FreeExp(g, e), e, r))
  }

  /** The code runs to its end, with `v` in register `r` and all other locals unchanged. */
  ghost predicate Yields(code: seq<Instr>, c: Comparison, m: Regs, r: nat, v: Val, n: nat)
  {
    var o := Run(code, c, 0, m);
    && o.Out? && o.pc == |code| && !o.via && Get(o.regs, r) == v
    && forall q :: 0 <= q < n && q != r ==> Get(o.regs, q) == Get(m, q)
  }

  lemma EmptyReady(n: nat)
    ensures Ready(Empty(n)) && StartAt(Empty(n), 0, false)
  {
  }

  /** Pending jumps closed, the run ends behind the code. */
  lemma ClosedYields(h: FS, c: Comparison, m: Regs, r: nat, v: Val, n: nat, m1: Regs)
    requires Open(h.code, h.jpc) && Confined(h.code)
    requires IsIn(h.code, h.jpc, r, v, From(h.code, c, 0, false, m), m1) && Same(m1, m, n)
    ensures Yields(Closed(h), c, m, r, v, n)
  {
    PatchRun(h, c, 0, false, m);
    hide Confined, Open, Patch;
  }

  lemma GrowsOpen(fs: FS, h: FS)
    requires Grows(fs, h)
    ensures Open(h.code, h.jpc) && Confined(h.code)
  {
  }

  lemma ComputesIs(fs: FS, r: FS, e: Exp, x: Exit, c: Comparison, pc: nat, via: bool, m: Regs)
    requires Computes(fs, r, e, x, c, pc, via, m)
    ensures var o := From(Body(r, e), c, pc, via, m); o.Out? && Right(r, e, x, o) && Same(o.regs, m, fs.freereg)
  {
  }

  /** Every expression, compiled into a new local, yields its outcome. */
  lemma DeclareYields(x: Expr, n: nat, c: Comparison, m: Regs)
    requires Ok(x, n)
    ensures Yields(Declare(x, n), c, m, n, Outcome(x, c, m), n)
  {
    hide *;
    var fs := Empty(n);
    EmptyIs(n);
    EmptyReady(n);
    DeclareIs(x, n);
    CompileShape(fs, x);
    CompileRight(fs, x, c, 0, false, m);
    var (r, e) := Compile(fs, x);
    var out := Leave(x, None, c, m);
    StartsPlain(n, m);
    OutcomeIs(x, c, m);
    ComputesIs(fs, r, e, out, c, 0, false, m);
    NextRegShape(fs, r, e);
    NextRegRight(fs, r, e, out, c, 0, false, m);
    var h := Exp2NextReg(r, e);
    GrowsOpen(fs, h);
    ClosedYields(h, c, m, n, out.val, n, From(Body(r, e), c, 0, false, m).regs);
  }

  lemma StartsPlain(n: nat, m: Regs)
    ensures StartCarried(Empty(n), 0, false, m) == None
  {
  }

  lemma OutcomeIs(x: Expr, c: Comparison, m: Regs)
    ensures Outcome(x, c, m) == Leave(x, None, c, m).val
  {
  }

  lemma EmptyIs(n: nat)
    ensures Empty(n).freereg == n == Empty(n).nactvar
  {
  }

  lemma DeclareIs(x: Expr, n: nat)
    ensures var (r, e) := Compile(Empty(n), x); Declare(x, n) == Closed(Exp2NextReg(r, e))
  {
    hide Compile, Exp2NextReg, Closed;
  }

  /** Every expression, assigned to a local, yields the outcome it had before the assignment. */
  lemma AssignYields(x: Expr, n: nat, k: nat, c: Comparison, m: Regs)
    requires Ok(x, n)
    ensures Yields(Assign(x, n, k), c, m, k, Outcome(x, c, m), n)
  {
    hide *;
    var fs := Empty(n);
    EmptyIs(n);
    EmptyReady(n);
    CompileShape(fs, x);
    CompileRight(fs, x, c, 0, false, m);
    var (r, e) := Compile(fs, x);
    var out := Leave(x, None, c, m);
    StartsPlain(n, m);
    OutcomeIs(x, c, m);
    ComputesIs(fs, r, e, out, c, 0, false, m);
    var r1 := FreeExp(r, e);
    AssignIs(x, n, k);
    var o := From(Body(r, e), c, 0, false, m);
    BodyFree(r1, r.freereg, e, out, o);
    FreeOnly(r, e);
    Exp2RegRight(fs, r1, r.freereg, e, k, out, c, 0, false, m);
    Exp2RegShape(fs, r1, r.freereg, e, k);
    var h := Exp2Reg(r1, e, k);
    GrowsOpen(fs, h);
    ClosedYields(h, c, m, k, out.val, n, o.regs);
  }

  lemma AssignIs(x: Expr, n: nat, k: nat)
    ensures var (r, e) := Compile(Empty(n), x); Assign(x, n, k) == Closed(Exp2Reg(FreeExp(r, e), e, k))
  {
    hide Compile, Exp2Reg, Closed, FreeExp;
  }

  lemma FreeOnly(r: FS, e: Exp)
    ensures FreeExp(r, e).(freereg := r.freereg) == r
  {
  }

  // ---------------------------------------------------------------- when that is the value

  lemma YieldsOne(code: seq<Instr>, c: Comparison, m: Regs, r: nat, v: Val, w: Val, n: nat)
    requires Yields(code, c, m, r, v, n) && Yields(code, c, m, r, w, n)
    ensures v == w
  {
  }

  /** The code is right for these registers and this comparison exactly when the outcome is the value. */
  lemma RightIs(x: Expr, n: nat, k: nat, c: Comparison, m: Regs)
    requires Ok(x, n)
    ensures Yields(Declare(x, n), c, m, n, Eval(x, c, m), n) <==> Outcome(x, c, m) == Eval(x, c, m)
    ensures Yields(Assign(x, n, k), c, m, k, Eval(x, c, m), n) <==> Outcome(x, c, m) == Eval(x, c, m)
  {
    DeclareYields(x, n, c, m);
    AssignYields(x, n, k, c, m);
    hide *;
    if Yields(Declare(x, n), c, m, n, Eval(x, c, m), n) {
      YieldsOne(Declare(x, n), c, m, n, Outcome(x, c, m), Eval(x, c, m), n);
    }
    if Yields(Assign(x, n, k), c, m, k, Eval(x, c, m), n) {
      YieldsOne(Assign(x, n, k), c, m, k, Outcome(x, c, m), Eval(x, c, m), n);
    }
  }

  /** A harmless expression has its value, in a new local and assigned to one. */
  lemma CompiledRight(x: Expr, n: nat, k: nat, c: Comparison, m: Regs)
    requires Ok(x, n) && Harmless(x)
    ensures Yields(Declare(x, n), c, m, n, Eval(x, c, m), n) && Yields(Assign(x, n, k), c, m, k, Eval(x, c, m), n)
  {
    hide *;
    RightIs(x, n, k, c, m);
    HarmlessRight(x, c, m);
  }

  /** Without `false` before `and` and `true` before `or`, every expression has its value. */
  lemma CarefulRight(x: Expr, n: nat, k: nat, c: Comparison, m: Regs)
    requires Ok(x, n) && Careful(x)
    ensures Yields(Declare(x, n), c, m, n, Eval(x, c, m), n) && Yields(Assign(x, n, k), c, m, k, Eval(x, c, m), n)
  {
    CarefulHarmless(x, false);
    assert Harmless(x);
    hide *;
    CompiledRight(x, n, k, c, m);
  }

  /** Run by run, for tame expressions: the code is right unless a bare literal decides and takes along a jump with another value. */
  lemma CompiledRightWhen(x: Expr, n: nat, c: Comparison, m: Regs)
    requires Ok(x, n) && Tame(x, false)
    ensures var e := Leave(x, None, c, m);
            Yields(Declare(x, n), c, m, n, Eval(x, c, m), n) <==> e.clean || e.carried == Some(Bool(e.truth))
  {
    hide *;
    RightIs(x, n, 0, c, m);
    WrongExactly(x, c, m);
  }

  /** An expression that reads no local twice is compiled right, for all registers and comparisons, exactly when it is harmless. */
  lemma CompiledRightExactly(x: Expr, n: nat)
    requires Ok(x, n) && ReadOnce(x)
    ensures (forall c: Comparison, m: Regs :: Yields(Declare(x, n), c, m, n, Eval(x, c, m), n)) <==> Harmless(x)
  {
    hide *;
    HarmlessExactly(x);
    forall c: Comparison, m: Regs
      ensures Yields(Declare(x, n), c, m, n, Eval(x, c, m), n) <==> Outcome(x, c, m) == Eval(x, c, m)
    {
      RightIs(x, n, 0, c, m);
    }
  }

  /** An expression without comparisons is compiled right for all registers exactly when no value is lost for any choice of which locals are true. */
  lemma CompiledRightThroughout(x: Expr, n: nat)
    requires Ok(x, n) && NoComparison(x)
    ensures (forall c: Comparison, m: Regs :: Yields(Declare(x, n), c, m, n, Eval(x, c, m), n)) <==> CleanThroughout(x)
  {
    hide *;
    CleanExactly(x);
    forall c: Comparison, m: Regs
      ensures Yields(Declare(x, n), c, m, n, Eval(x, c, m), n) <==> Outcome(x, c, m) == Eval(x, c, m)
    {
      RightIs(x, n, 0, c, m);
    }
  }

  /** `a and b or false and c` yields nil where its value is false, and negated is right. */
  lemma NilIsYielded(c: Comparison)
    ensures Ok(NIL_FOR_FALSE, 3) && Eval(NIL_FOR_FALSE, c, map[]) == Bool(false)
    ensures Yields(Declare(NIL_FOR_FALSE, 3), c, map[], 3, Nil, 3)
    ensures forall m: Regs :: Yields(Declare(Neg(NIL_FOR_FALSE), 3), c, m, 3, Eval(Neg(NIL_FOR_FALSE), c, m), 3)
  {
    assert Ok(NIL_FOR_FALSE, 3) && Ok(Neg(NIL_FOR_FALSE), 3);
    hide *;
    NilForFalse(c);
    DeclareYields(NIL_FOR_FALSE, 3, c, map[]);
    forall m: Regs ensures Yields(Declare(Neg(NIL_FOR_FALSE), 3), c, m, 3, Eval(Neg(NIL_FOR_FALSE), c, m), 3) {
      CompiledRight(Neg(NIL_FOR_FALSE), 3, 0, c, m);
    }
  }

  /** `not p and (p or q) and false and c` is compiled right although one of its ways is not clean: p is read twice. */
  lemma DeadPathRight(c: Comparison, m: Regs)
    ensures !Harmless(DEAD_PATH) && Ok(DEAD_PATH, 3) && Yields(Declare(DEAD_PATH, 3), c, m, 3, Eval(DEAD_PATH, c, m), 3)
  {
    assert Ok(DEAD_PATH, 3);
    hide *;
    DeadPath(c, m);
    RightIs(DEAD_PATH, 3, 0, c, m);
  }

  // ---------------------------------------------------------------- single operators, by their code and by what it does

  /** The code of `local r = x and y` and of `local r = x or y` for locals 0 and 1. */
  lemma AndOrCode(and: bool)
    ensures Declare(if and then And(Local(0), Local(1)) else Or(Local(0), Local(1)), 2) == [TestSet(Some(2), 0, !and), Jmp(Some(3)), Move(2, 1)]
  {
    AndOrCompiled(and);
    AndOrStored(and);
    PatchNone([TestSet(Some(2), 0, !and), Jmp(Some(3)), Move(2, 1)], 3, None, 3);
    hide Compile, Exp2NextReg, Patch;
  }

  lemma AndOrCompiled(and: bool)
    ensures Compile(Empty(2), if and then And(Local(0), Local(1)) else Or(Local(0), Local(1))) ==
              (FS([TestSet(None, 0, !and), Jmp(None)], [], 2, 2), if and then Exp(KReg(1), [], [1]) else Exp(KReg(1), [1], []))
  {
    var test := TestSet(None, 0, !and);
    CondPlain(Empty(2), test);
    hide CondJump;
    var fs := FS([test, Jmp(None)], [], 2, 2);
    var e := Exp(KReg(0), [], []);
    assert JumpOnCond(Empty(2), e, !and) == fs;
    var none: seq<nat> := [];
    assert none + [1] == [1] && none + none == none;
    assert and ==> GoIfTrue(Empty(2), e) == (fs, [1]);
    assert !and ==> GoIfFalse(Empty(2), e) == (fs, [1]);
    hide GoIfTrue, GoIfFalse;
  }

  lemma AndOrStored(and: bool)
    ensures Exp2NextReg(FS([TestSet(None, 0, !and), Jmp(None)], [], 2, 2), if and then Exp(KReg(1), [], [1]) else Exp(KReg(1), [1], [])) ==
              FS([TestSet(Some(2), 0, !and), Jmp(Some(3)), Move(2, 1)], [], 3, 2)
  {
    var code := [TestSet(None, 0, !and), Jmp(None), Move(2, 1)];
    EmitPlain(FS([TestSet(None, 0, !and), Jmp(None)], [], 3, 2), Move(2, 1));
    assert [TestSet(None, 0, !and), Jmp(None)] + [Move(2, 1)] == code;
    assert TestsSet(code, 1) && !NeedValue(code, [1]) && !NeedValue(code, []);
    var done := [TestSet(Some(2), 0, !and), Jmp(Some(3)), Move(2, 1)];
    assert Patch(code, [1], 3, Some(2), 3) == done;
    PatchNone(code, 3, Some(2), 3);
    PatchNone(done, 3, Some(2), 3);
    hide Emit, Patch, NeedValue;
  }

  lemma PatchNone(code: seq<Instr>, vtarget: nat, reg: Option<nat>, dtarget: nat)
    ensures Patch(code, [], vtarget, reg, dtarget) == code
  {
  }

  /** Nothing is pending: the instruction is added. */
  lemma EmitPlain(fs: FS, i: Instr)
    requires fs.jpc == []
    ensures Emit(fs, i) == fs.(code := fs.code + [i])
  {
    PatchNone(fs.code, |fs.code|, None, |fs.code|);
    hide Patch;
  }

  lemma CondPlain(fs: FS, test: Instr)
    requires fs.jpc == []
    ensures CondJump(fs, test) == fs.(code := fs.code + [test, Jmp(None)])
  {
    EmitPlain(fs, test);
    hide Emit;
  }

  /** The code of a comparison of locals 0 and 1. */
  lemma ComparisonCode(op: RelOp)
    ensures Declare(Rel(op, Local(0), Local(1)), 2) ==
              [match op
               case Eq => Cmp(EQ, true, Reg(0), Reg(1))
               case Ne => Cmp(EQ, false, Reg(0), Reg(1))
               case Lt => Cmp(LT, true, Reg(0), Reg(1))
               case Le => Cmp(LE, true, Reg(0), Reg(1))
               case Gt => Cmp(LT, true, Reg(1), Reg(0))
               case Ge => Cmp(LE, true, Reg(1), Reg(0)),
               Jmp(Some(3)), LoadBool(2, false, true), LoadBool(2, true, false)]
  {
    var i := CompInstr(op, Reg(0), Reg(1));
    ComparisonCompiled(op);
    ComparisonStored(i);
    PatchNone([i, Jmp(Some(3)), LoadBool(2, false, true), LoadBool(2, true, false)], 4, None, 4);
    hide Compile, Exp2NextReg, Patch;
  }

  lemma ComparisonCompiled(op: RelOp)
    ensures Compile(Empty(2), Rel(op, Local(0), Local(1))) == (FS([CompInstr(op, Reg(0), Reg(1)), Jmp(None)], [], 2, 2), Exp(KJmp(1), [], []))
  {
    var i := CompInstr(op, Reg(0), Reg(1));
    CondPlain(Empty(2), i);
    assert Empty(2).code + [i, Jmp(None)] == [i, Jmp(None)];
    hide CondJump, CompInstr;
    assert Exp2RK(Empty(2), Exp(KReg(0), [], [])) == (Empty(2), Exp(KReg(0), [], []), Reg(0));
    assert Exp2RK(Empty(2), Exp(KReg(1), [], [])) == (Empty(2), Exp(KReg(1), [], []), Reg(1));
    hide Exp2RK;
  }

  lemma ComparisonStored(i: Instr)
    requires i.Cmp?
    ensures Exp2NextReg(FS([i, Jmp(None)], [], 2, 2), Exp(KJmp(1), [], [])) ==
              FS([i, Jmp(Some(3)), LoadBool(2, false, true), LoadBool(2, true, false)], [], 3, 2)
  {
    var g := FS([i, Jmp(None)], [], 3, 2);
    assert !TestsSet(g.code, 1) && 1 in [1];
    assert NeedValue(g.code, [1]);
    var both := [i, Jmp(None), LoadBool(2, false, true), LoadBool(2, true, false)];
    EmitPlain(g, LoadBool(2, false, true));
    EmitPlain(g.(code := g.code + [LoadBool(2, false, true)]), LoadBool(2, true, false));
    assert g.code + [LoadBool(2, false, true)] + [LoadBool(2, true, false)] == both;
    assert Patch(both, [1], 4, Some(2), 3) == [i, Jmp(Some(3)), LoadBool(2, false, true), LoadBool(2, true, false)];
    PatchNone(both, 4, Some(2), 2);
    hide Emit, Patch, NeedValue, TestsSet;
  }

  /** Each operator applied to locals: nil and false are false, everything else is true. */
  lemma LogicYields(n: nat, a: nat, b: nat, c: Comparison, m: Regs)
    requires a < n && b < n
    ensures Yields(Declare(And(Local(a), Local(b)), n), c, m, n, if Get(m, a) == Nil || Get(m, a) == Bool(false) then Get(m, a) else Get(m, b), n)
    ensures Yields(Declare(Or(Local(a), Local(b)), n), c, m, n, if Get(m, a) == Nil || Get(m, a) == Bool(false) then Get(m, b) else Get(m, a), n)
    ensures Yields(Declare(Neg(Local(a)), n), c, m, n, Bool(Get(m, a) == Nil || Get(m, a) == Bool(false)), n)
  {
    CarefulYields(And(Local(a), Local(b)), n, c, m);
    CarefulYields(Or(Local(a), Local(b)), n, c, m);
    CarefulYields(Neg(Local(a)), n, c, m);
    hide Yields, Declare;
  }

  /** A literal, and a comparison of a local with one. */
  lemma LiteralYields(v: Val, fits: bool, n: nat, a: nat, c: Comparison, m: Regs)
    requires a < n
    ensures Yields(Declare(Lit(v, fits), n), c, m, n, v, n)
    ensures Yields(Declare(Rel(Eq, Local(a), Lit(v, fits)), n), c, m, n, Bool(c(EQ, Get(m, a), v)), n)
    ensures Yields(Declare(Rel(Lt, Local(a), Lit(v, fits)), n), c, m, n, Bool(c(LT, Get(m, a), v)), n)
    ensures Yields(Declare(Rel(Gt, Local(a), Lit(v, fits)), n), c, m, n, Bool(c(LT, v, Get(m, a))), n)
  {
    CarefulYields(Lit(v, fits), n, c, m);
    CarefulYields(Rel(Eq, Local(a), Lit(v, fits)), n, c, m);
    CarefulYields(Rel(Lt, Local(a), Lit(v, fits)), n, c, m);
    CarefulYields(Rel(Gt, Local(a), Lit(v, fits)), n, c, m);
    hide Yields, Declare;
  }

  /** Comparisons of locals; > and >= exchange their operands. */
  lemma ComparisonYields(op: RelOp, n: nat, a: nat, b: nat, c: Comparison, m: Regs)
    requires a < n && b < n
    ensures var x, y := Get(m, a), Get(m, b);
            var v := match op case Eq => c(EQ, x, y) case Ne => !c(EQ, x, y) case Lt => c(LT, x, y) case Le => c(LE, x, y) case Gt => c(LT, y, x) case Ge => c(LE, y, x);
            Yields(Declare(Rel(op, Local(a), Local(b)), n), c, m, n, Bool(v), n)
  {
    CarefulYields(Rel(op, Local(a), Local(b)), n, c, m);
    hide Yields, Declare;
  }

  lemma CarefulYields(x: Expr, n: nat, c: Comparison, m: Regs)
    requires Ok(x, n) && Careful(x)
    ensures Yields(Declare(x, n), c, m, n, Eval(x, c, m), n)
  {
    hide *;
    CarefulRight(x, n, 0, c, m);
  }
}
