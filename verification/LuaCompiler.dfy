/**
 The generator at work: from an expression to code in memory whose run gives the
 expression's value.
 */
module LuaCompiler {
  import opened Options
  import opened LuaVm
  import opened LuaCode
  import opened LuaLists
  import opened LuaShape
  import opened LuaExits
  import opened LuaCorrect
  import opened LuaAssign
  import opened LuaJumps
  import opened LuaGenerator

  /** The code in memory, run as it stands, puts the outcome of `x` into register `k` and keeps all other locals. */
  ghost predicate Does(raw: seq<Raw>, x: Expr, k: nat, n: nat)
  {
    exists code :: Views(raw, code) && forall c: Comparison, m: Regs :: Yields(code, c, m, k, Outcome(x, c, m), n)
  }

  /** The same for the value of `x`. */
  ghost predicate Evaluates(raw: seq<Raw>, x: Expr, k: nat, n: nat)
  {
    exists code :: Views(raw, code) && forall c: Comparison, m: Regs :: Yields(code, c, m, k, Eval(x, c, m), n)
  }

  /** `local r = x` in a function with n locals. */
  method DeclareLocal(x: Expr, n: nat) returns (f: FuncState)
    requires Ok(x, n)
    ensures fresh(f) && f.jpc == NO_JUMP && Views(f.code, Declare(x, n))
    ensures Does(f.code, x, n, n) && (Harmless(x) ==> Evaluates(f.code, x, n, n))
  {
    hide *;
    f := new FuncState(n);
    ghost var fs := Empty(n);
    StartsEmpty(f, n);
    EmptyReady(n);
    EmptyIs(n);
    var e := f.Subexpr(x, fs);
    CompileShape(fs, x);
    ghost var (g, xe) := Compile(fs, x);
    var r := f.Exp2NextReg(e, fs, g, xe, []);
    NextRegShape(fs, g, xe);
    ghost var h := LuaCode.Exp2NextReg(g, xe);
    GrowsOpen(fs, h);
    f.DischargeJpc(h);
    DeclareIs(x, n);
    ClosedIs(f, h);
    forall c: Comparison, m: Regs
      ensures Yields(Declare(x, n), c, m, n, Outcome(x, c, m), n) && (Harmless(x) ==> Yields(Declare(x, n), c, m, n, Eval(x, c, m), n))
    {
      DeclareYields(x, n, c, m);
      if Harmless(x) {
        CompiledRight(x, n, 0, c, m);
      }
    }
    DoesIs(f.code, Declare(x, n), x, n, n);
  }

  /** `r = x` for a local. */
  method AssignLocal(x: Expr, n: nat, k: nat) returns (f: FuncState)
    requires Ok(x, n)
    ensures fresh(f) && f.jpc == NO_JUMP && Views(f.code, Assign(x, n, k))
    ensures Does(f.code, x, k, n) && (Harmless(x) ==> Evaluates(f.code, x, k, n))
  {
    hide *;
    f := new FuncState(n);
    ghost var fs := Empty(n);
    StartsEmpty(f, n);
    EmptyReady(n);
    EmptyIs(n);
    var e := f.Subexpr(x, fs);
    CompileShape(fs, x);
    ghost var (g, xe) := Compile(fs, x);
    f.FreeKind(e.kind, g);
    ghost var g1 := FreeExp(g, xe);
    FreeSame(g, xe);
    DescribedKind(f.code, e, xe);
    FreeOnly(g, xe);
    var r := f.Exp2Reg(e, k, fs, g1, g.freereg, xe, []);
    Exp2RegShape(fs, g1, g.freereg, xe, k);
    ghost var h := LuaCode.Exp2Reg(g1, xe, k);
    GrowsOpen(fs, h);
    f.DischargeJpc(h);
    AssignIs(x, n, k);
    ClosedIs(f, h);
    forall c: Comparison, m: Regs
      ensures Yields(Assign(x, n, k), c, m, k, Outcome(x, c, m), n) && (Harmless(x) ==> Yields(Assign(x, n, k), c, m, k, Eval(x, c, m), n))
    {
      AssignYields(x, n, k, c, m);
      if Harmless(x) {
        CompiledRight(x, n, k, c, m);
      }
    }
    DoesIs(f.code, Assign(x, n, k), x, k, n);
  }

  lemma StartsEmpty(f: FuncState, n: nat)
    requires f.Is(FS([], [], n, n))
    ensures f.Is(Empty(n)) && f.code == []
  {
  }

  lemma DescribedKind(raw: seq<Raw>, e: ExpDesc, x: Exp)
    requires Describes(raw, e, x)
    ensures e.kind == x.kind
  {
  }

  lemma ClosedIs(f: FuncState, h: FS)
    requires f.Is(h.(code := Patch(h.code, h.jpc, |h.code|, None, |h.code|), jpc := []))
    ensures Views(f.code, Closed(h)) && f.jpc == NO_JUMP
  {
    hide Views, Patch;
  }

  lemma DoesIs(raw: seq<Raw>, code: seq<Instr>, x: Expr, k: nat, n: nat)
    requires Views(raw, code) && forall c: Comparison, m: Regs :: Yields(code, c, m, k, Outcome(x, c, m), n)
    ensures Does(raw, x, k, n)
    ensures (forall c: Comparison, m: Regs :: Yields(code, c, m, k, Eval(x, c, m), n)) ==> Evaluates(raw, x, k, n)
  {
    hide Views, Yields;
  }

  /** `and` and `or` of two locals in memory. */
  lemma AndOrInMemory(raw: seq<Raw>, and: bool)
    requires Views(raw, Declare(if and then And(Local(0), Local(1)) else Or(Local(0), Local(1)), 2))
    ensures raw == [RI(TestSet(Some(2), 0, !and)), RJmp(1), RI(Move(2, 1))]
  {
    AndOrCode(and);
    InMemory(raw, [TestSet(Some(2), 0, !and), Jmp(Some(3)), Move(2, 1)]);
    hide Views, Declare;
  }

  lemma InMemory(raw: seq<Raw>, code: seq<Instr>)
    requires Views(raw, code) && |code| == 3 && code[0].TestSet? && code[1] == Jmp(Some(3)) && code[2].Move?
    ensures raw == [RI(code[0]), RJmp(1), RI(code[2])]
  {
    OffsetsMean(raw, code, 0);
    OffsetsMean(raw, code, 1);
    OffsetsMean(raw, code, 2);
  }
}
