/**
 The instructions the code generator emits for boolean expressions, and what the
 virtual machine does with them.  Code under construction has jumps without a
 target yet; running it can end at such a jump.
 */
module LuaVm {
  import opened Options

  datatype Val = Nil | Bool(b: bool) | Other(id: int)

  predicate Truthy(v: Val)
  {
    v != Nil && v != Bool(false)
  }

  datatype CmpOp = EQ | LT | LE

  /** Operand of a comparison: a register or a constant. */
  datatype RK = Reg(r: nat) | K(v: Val)

  datatype Instr =
    | Move(a: nat, b: nat)
    | LoadK(a: nat, v: Val)
    | LoadBool(a: nat, val: bool, skip: bool)
    | Not(a: nat, b: nat)
    | Jmp(target: Option<nat>)
    // tests: the next instruction is a jump, taken when the test says so, skipped otherwise
    | Cmp(op: CmpOp, cond: bool, x: RK, y: RK)
    | Test(a: nat, cond: bool)
    | TestSet(to: Option<nat>, b: nat, cond: bool)

  predicate IsTest(i: Instr)
  {
    i.Cmp? || i.Test? || i.TestSet?
  }

  type Regs = map<nat, Val>

  function Get(m: Regs, r: nat): Val
  {
    if r in m then m[r] else Nil
  }

  function Operand(m: Regs, o: RK): Val
  {
    match o case Reg(r) => Get(m, r) case K(v) => v
  }

  /** Comparisons are whatever the engine makes of them. */
  type Comparison = (CmpOp, Val, Val) -> bool

  /** Is the jump behind the test taken? */
  predicate Takes(i: Instr, c: Comparison, m: Regs)
    requires IsTest(i)
  {
    match i
    case Cmp(op, cond, x, y) => c(op, Operand(m, x), Operand(m, y)) == cond
    case Test(a, cond) => !Truthy(Get(m, a)) != cond
    case TestSet(_, b, cond) => !Truthy(Get(m, b)) != cond
  }

  /** What a taken test does to the registers. */
  function Sets(i: Instr, m: Regs): Regs
  {
    if i.TestSet? && i.to.Some? then m[i.to.value := Get(m, i.b)] else m
  }

  /** Where running ends: behind the code, or at a jump without a target, reached through its test or not. */
  datatype Out = Out(pc: nat, regs: Regs, via: bool) | Stuck

  function Run(code: seq<Instr>, c: Comparison, pc: nat, m: Regs): Out
    decreases |code| - pc
  {
    if pc >= |code| then Out(pc, m, false)
    else match code[pc]
      case Move(a, b) => Run(code, c, pc + 1, m[a := Get(m, b)])
      case LoadK(a, v) => Run(code, c, pc + 1, m[a := v])
      case LoadBool(a, b, skip) => Run(code, c, if skip then pc + 2 else pc + 1, m[a := Bool(b)])
      case Not(a, b) => Run(code, c, pc + 1, m[a := Bool(!Truthy(Get(m, b)))])
      case Jmp(None) => Out(pc, m, false)
      case Jmp(Some(t)) => if t > pc then Run(code, c, t, m) else Stuck
      case _ =>
        if !Takes(code[pc], c, m) then Run(code, c, pc + 2, m)
        else if pc + 1 < |code| && code[pc + 1].Jmp? then Leap(code, c, pc + 1, Sets(code[pc], m))
        else Stuck
  }

  /** The jump of a taken test. */
  function Leap(code: seq<Instr>, c: Comparison, j: nat, m: Regs): Out
    requires j < |code| && code[j].Jmp?
    decreases |code| - j, 0
  {
    match code[j].target
    case None => Out(j, m, true)
    case Some(t) => if t > j then Run(code, c, t, m) else Stuck
  }

  /** Going on from where a run ended. */
  function From(code: seq<Instr>, c: Comparison, pc: nat, via: bool, m: Regs): Out
  {
    if via then
      if 1 <= pc < |code| && code[pc].Jmp? then Leap(code, c, pc, Sets(code[pc - 1], m)) else Stuck
    else Run(code, c, pc, m)
  }

  /** `a` and `b` agree on the registers below `n`. */
  predicate Same(a: Regs, b: Regs, n: nat)
  {
    forall r :: 0 <= r < n ==> Get(a, r) == Get(b, r)
  }

  // ---------------------------------------------------------------- changing code that is still open

  /** `now` replaces `was` at position p: equal, or a jump in `h` gets a target, and its test a register or none. */
  predicate Replaces(was: Instr, now: Instr, p: nat, h: set<nat>)
  {
    if p in h then was == Jmp(None) && now.Jmp?
    else if was.TestSet? && p + 1 in h then
      was.to.None? && (now == Test(was.b, was.cond) || (now.TestSet? && now.b == was.b && now.cond == was.cond))
    else now == was
  }

  /** The same code, but for the open jumps in `h` and their tests; perhaps longer. */
  predicate Refined(code: seq<Instr>, more: seq<Instr>, h: set<nat>)
  {
    |code| <= |more| && forall p :: 0 <= p < |code| ==> Replaces(code[p], more[p], p, h)
  }

  /** Running the changed code is running the old code and going on from where that ended. */
  lemma {:induction false} Compose(code: seq<Instr>, more: seq<Instr>, h: set<nat>, c: Comparison, pc: nat, m: Regs)
    requires Refined(code, more, h) && pc <= |code|
    ensures var o := Run(code, c, pc, m);
            o.Out? && o.pc <= |code| ==>
              Run(more, c, pc, m) == if o.pc == |code| || o.pc in h then From(more, c, o.pc, o.via, o.regs) else o
    decreases |code| - pc
  {
    if pc < |code| {
      assert Replaces(code[pc], more[pc], pc, h);
      match code[pc]
      case Move(a, b) => Compose(code, more, h, c, pc + 1, m[a := Get(m, b)]);
      case LoadK(a, v) => Compose(code, more, h, c, pc + 1, m[a := v]);
      case LoadBool(a, b, skip) =>
        if !skip || pc + 1 < |code| {
          Compose(code, more, h, c, if skip then pc + 2 else pc + 1, m[a := Bool(b)]);
        }
      case Not(a, b) => Compose(code, more, h, c, pc + 1, m[a := Bool(!Truthy(Get(m, b)))]);
      case Jmp(None) =>
      case Jmp(Some(t)) =>
        if pc < t <= |code| {
          Compose(code, more, h, c, t, m);
        }
      case _ => ComposeTest(code, more, h, c, pc, m);
    }
  }

  lemma RunTest(code: seq<Instr>, c: Comparison, pc: nat, m: Regs)
    requires pc < |code| && IsTest(code[pc])
    ensures Run(code, c, pc, m) ==
      if !Takes(code[pc], c, m) then Run(code, c, pc + 2, m)
      else if pc + 1 < |code| && code[pc + 1].Jmp? then Leap(code, c, pc + 1, Sets(code[pc], m))
      else Stuck
  {
  }

  lemma {:induction false} ComposeTest(code: seq<Instr>, more: seq<Instr>, h: set<nat>, c: Comparison, pc: nat, m: Regs)
    requires Refined(code, more, h) && pc < |code| && IsTest(code[pc])
    ensures var o := Run(code, c, pc, m);
            o.Out? && o.pc <= |code| ==>
              Run(more, c, pc, m) == if o.pc == |code| || o.pc in h then From(more, c, o.pc, o.via, o.regs) else o
    decreases |code| - pc, 0
  {
    assert Replaces(code[pc], more[pc], pc, h);
    RunTest(code, c, pc, m);
    RunTest(more, c, pc, m);
    if !Takes(code[pc], c, m) {
      if pc + 1 < |code| {
        Compose(code, more, h, c, pc + 2, m);
      }
    } else if pc + 1 < |code| && code[pc + 1].Jmp? {
      assert Replaces(code[pc + 1], more[pc + 1], pc + 1, h);
      LeapRefined(code, more, h, c, pc + 1, m);
    }
  }

  /** The same for the jump of a taken test. */
  lemma {:induction false} LeapRefined(code: seq<Instr>, more: seq<Instr>, h: set<nat>, c: Comparison, j: nat, m: Regs)
    requires Refined(code, more, h) && 1 <= j < |code| && code[j].Jmp? && more[j].Jmp? && IsTest(code[j - 1])
    requires Replaces(code[j - 1], more[j - 1], j - 1, h) && Replaces(code[j], more[j], j, h)
    ensures var o := Leap(code, c, j, Sets(code[j - 1], m));
            o.Out? && o.pc <= |code| ==>
              Leap(more, c, j, Sets(more[j - 1], m)) == if o.pc == |code| || o.pc in h then From(more, c, o.pc, o.via, o.regs) else o
    decreases |code| - j, 1
  {
    if code[j].target.Some? && j < code[j].target.value <= |code| {
      Compose(code, more, h, c, code[j].target.value, Sets(code[j - 1], m));
    }
  }
}
