/**
 The code generator for expressions built from locals, literals, comparisons, not,
 and, or.  A comparison is a jump; and/or leave lists of jumps to be given a target
 once it is known where the value of the whole expression is wanted.
 */
module LuaCode {
  import opened Options
  import opened LuaVm

  datatype RelOp = Eq | Ne | Lt | Le | Gt | Ge

  /** `fits`: the constant's index can be an operand of an instruction. */
  datatype Expr =
    | Local(r: nat)
    | Lit(v: Val, fits: bool)
    | Rel(op: RelOp, x: Expr, y: Expr)
    | Neg(x: Expr)
    | And(x: Expr, y: Expr)
    | Or(x: Expr, y: Expr)

  predicate Compares(op: RelOp, a: Val, b: Val, c: Comparison)
  {
    match op
    case Eq => c(EQ, a, b)
    case Ne => !c(EQ, a, b)
    case Lt => c(LT, a, b)
    case Le => c(LE, a, b)
    case Gt => c(LT, b, a)
    case Ge => c(LE, b, a)
  }

  /** The value of an expression. */
  function Eval(x: Expr, c: Comparison, m: Regs): Val
  {
    match x
    case Local(r) => Get(m, r)
    case Lit(v, _) => v
    case Rel(op, a, b) => Bool(Compares(op, Eval(a, c, m), Eval(b, c, m), c))
    case Neg(a) => Bool(!Truthy(Eval(a, c, m)))
    case And(a, b) => if Truthy(Eval(a, c, m)) then Eval(b, c, m) else Eval(a, c, m)
    case Or(a, b) => if Truthy(Eval(a, c, m)) then Eval(a, c, m) else Eval(b, c, m)
  }

  // ---------------------------------------------------------------- generator state

  /** Where a value is: a literal, an instruction whose target register is open, a register, or a comparison's jump. */
  datatype Kind = KLit(v: Val, fits: bool) | KReloc(pc: nat) | KReg(r: nat) | KJmp(pc: nat)

  /** `t`, `f`: jumps out of the expression, taken when it is true, when it is false. */
  datatype Exp = Exp(kind: Kind, t: seq<nat>, f: seq<nat>)

  /** `jpc`: jumps to the next instruction. */
  datatype FS = FS(code: seq<Instr>, jpc: seq<nat>, freereg: nat, nactvar: nat)

  /** Is the jump at p controlled by a test? */
  predicate Tests(code: seq<Instr>, p: nat)
  {
    1 <= p <= |code| && IsTest(code[p - 1])
  }

  predicate TestsSet(code: seq<Instr>, p: nat)
  {
    1 <= p <= |code| && code[p - 1].TestSet?
  }

  /** A test that no longer keeps its value, or keeps it in `reg`. */
  function Settled(i: Instr, reg: Option<nat>): Instr
    requires i.TestSet?
  {
    if reg.Some? && reg.value != i.b then TestSet(reg, i.b, i.cond) else Test(i.b, i.cond)
  }

  function PatchedInstr(code: seq<Instr>, s: seq<nat>, vtarget: nat, reg: Option<nat>, dtarget: nat, p: nat): Instr
    requires p < |code|
  {
    if p in s then Jmp(Some(if TestsSet(code, p) then vtarget else dtarget))
    else if code[p].TestSet? && p + 1 in s then Settled(code[p], reg)
    else code[p]
  }

  /** Jumps that carry a value go to `vtarget`, their tests putting it into `reg`; all others go to `dtarget`. */
  function Patch(code: seq<Instr>, s: seq<nat>, vtarget: nat, reg: Option<nat>, dtarget: nat): (r: seq<Instr>)
    ensures |r| == |code|
    ensures forall p :: 0 <= p < |code| ==> r[p] == PatchedInstr(code, s, vtarget, reg, dtarget, p)
  {
    seq(|code|, p requires 0 <= p < |code| => PatchedInstr(code, s, vtarget, reg, dtarget, p))
  }

  /** Tests whose values are not wanted any more. */
  function RemoveValues(code: seq<Instr>, s: seq<nat>): (r: seq<Instr>)
    ensures |r| == |code|
    ensures forall p :: 0 <= p < |code| ==> r[p] == if code[p].TestSet? && p + 1 in s then Settled(code[p], None) else code[p]
  {
    seq(|code|, p requires 0 <= p < |code| => if code[p].TestSet? && p + 1 in s then Settled(code[p], None) else code[p])
  }

  // ---------------------------------------------------------------- emitting

  /** Emits an instruction; pending jumps to here get their target. */
  function Emit(fs: FS, i: Instr): FS
  {
    fs.(code := Patch(fs.code, fs.jpc, |fs.code|, None, |fs.code|) + [i], jpc := [])
  }

  /** Emits a jump; it takes the pending jumps along. */
  function JumpTo(fs: FS): FS
  {
    fs.(code := fs.code + [Jmp(None)], jpc := [])
  }

  function JumpList(fs: FS): seq<nat>
  {
    [|fs.code|] + fs.jpc
  }

  /** Emits a test and its jump, which is the last instruction then. */
  function CondJump(fs: FS, test: Instr): (r: FS)
    ensures r.code != [] && |r.code| == |fs.code| + 2
  {
    var h := Emit(fs, test);
    h.(code := h.code + [Jmp(None)])
  }

  function WithA(i: Instr, reg: nat): Instr
  {
    if i.Not? then Instr.Not(reg, i.b) else i
  }

  function Discharge2Reg(fs: FS, e: Exp, reg: nat): FS
  {
    match e.kind
    case KLit(Bool(b), _) => Emit(fs, LoadBool(reg, b, false))
    case KLit(v, _) => Emit(fs, LoadK(reg, v))
    case KReloc(pc) => if pc < |fs.code| then fs.(code := fs.code[pc := WithA(fs.code[pc], reg)]) else fs
    case KReg(r) => if r != reg then Emit(fs, Move(reg, r)) else fs
    case KJmp(_) => fs
  }

  function Reserve(fs: FS): FS
  {
    fs.(freereg := fs.freereg + 1)
  }

  /** Frees the register of a temporary. */
  function FreeExp(fs: FS, e: Exp): FS
  {
    if e.kind.KReg? && e.kind.r >= fs.nactvar && fs.freereg > 0 then fs.(freereg := fs.freereg - 1) else fs
  }

  predicate HasJumps(e: Exp)
  {
    e.t != [] || e.f != []
  }

  /** Some jump on the list does not carry a value. */
  predicate NeedValue(code: seq<Instr>, s: seq<nat>)
  {
    exists j :: j in s && !TestsSet(code, j)
  }

  /** The jumps taken when the expression is true: a comparison's jump is one. */
  function TrueJumps(e: Exp): seq<nat>
  {
    if e.kind.KJmp? then e.t + [e.kind.pc] else e.t
  }

  /** Puts the value of an expression into a register, wherever its jumps leave. */
  function Exp2Reg(fs: FS, e: Exp, reg: nat): FS
  {
    var h := Discharge2Reg(fs, e, reg);
    var t := TrueJumps(e);
    if t == [] && e.f == [] then h
    else if NeedValue(h.code, t) || NeedValue(h.code, e.f) then
      var g := if e.kind.KJmp? then h else JumpTo(h);
      var fj := if e.kind.KJmp? then [] else JumpList(h);
      var k := LoadBoth(g, reg);
      k.(code := PatchBoth(k.code, e.f, t, reg, |g.code|, |g.code| + 1), jpc := fj)
    else h.(code := PatchBoth(h.code, e.f, t, reg, |h.code|, |h.code|))
  }

  /** Loads false and skips, or loads true. */
  function LoadBoth(g: FS, reg: nat): FS
  {
    Emit(Emit(g, LoadBool(reg, false, true)), LoadBool(reg, true, false))
  }

  /** Both lists end behind the code, with the value in `reg`; jumps without a value go where it is loaded. */
  function PatchBoth(code: seq<Instr>, f: seq<nat>, t: seq<nat>, reg: nat, loadFalse: nat, loadTrue: nat): seq<Instr>
  {
    Patch(Patch(code, f, |code|, Some(reg), loadFalse), t, |code|, Some(reg), loadTrue)
  }

  function Exp2NextReg(fs: FS, e: Exp): FS
  {
    var h := Reserve(FreeExp(fs, e));
    Exp2Reg(h, e, h.freereg - 1)
  }

  /** The register the value is in afterwards. */
  function Exp2AnyReg(fs: FS, e: Exp): (FS, nat)
  {
    if e.kind.KReg? && !HasJumps(e) then (fs, e.kind.r)
    else if e.kind.KReg? && e.kind.r >= fs.nactvar then (Exp2Reg(fs, e, e.kind.r), e.kind.r)
    else
      var h := Exp2NextReg(fs, e);
      (h, h.freereg - 1 as nat)
  }

  /** An operand: a literal whose index fits, or a register. */
  function Exp2RK(fs: FS, e: Exp): (FS, Exp, RK)
  {
    if e.kind.KLit? && e.kind.fits && !HasJumps(e) then (fs, e, K(e.kind.v))
    else
      var (h, r) := Exp2AnyReg(fs, e);
      (h, Exp(KReg(r), [], []), Reg(r))
  }

  /** The value, but for its jumps, in some register. */
  function InAnyReg(fs: FS, e: Exp): (FS, nat)
  {
    match e.kind
    case KReg(r) => (fs, r)
    case _ => (Discharge2Reg(Reserve(fs), e, fs.freereg), fs.freereg)
  }

  /** Jumps when the value is false (`cond` false) or true; the jump carries the value unless it comes from `not`. */
  function JumpOnCond(fs: FS, e: Exp, cond: bool): FS
  {
    if e.kind.KReloc? && fs.code != [] && fs.code[|fs.code| - 1].Not? then
      CondJump(fs.(code := fs.code[..|fs.code| - 1]), Test(fs.code[|fs.code| - 1].b, !cond))
    else
      var (h, r) := InAnyReg(fs, e);
      CondJump(FreeExp(h, Exp(KReg(r), [], [])), TestSet(None, r, cond))
  }

  function Inverted(i: Instr): Instr
  {
    match i case Cmp(op, cond, x, y) => Cmp(op, !cond, x, y) case _ => i
  }

  function InvertJump(code: seq<Instr>, j: nat): seq<Instr>
  {
    if 1 <= j <= |code| then code[j - 1 := Inverted(code[j - 1])] else code
  }

  /** Goes on here when the value is true; returns the list of the jumps taken when it is false. */
  function GoIfTrue(fs: FS, e: Exp): (FS, seq<nat>)
  {
    var (h, j) :=
      match e.kind
      case KLit(Bool(b), _) => if b then (fs, []) else (JumpTo(fs), JumpList(fs))
      case KLit(Other(_), _) => (fs, [])
      case KJmp(pc) => (fs.(code := InvertJump(fs.code, pc)), [pc])
      case _ => var g := JumpOnCond(fs, e, false); (g, [|g.code| - 1 as nat]);
    (h.(jpc := h.jpc + e.t), e.f + j)
  }

  /** Goes on here when the value is false; returns the list of the jumps taken when it is true. */
  function GoIfFalse(fs: FS, e: Exp): (FS, seq<nat>)
  {
    var (h, j) :=
      match e.kind
      case KLit(Bool(b), _) => if b then (JumpTo(fs), JumpList(fs)) else (fs, [])
      case KLit(Nil, _) => (fs, [])
      case KJmp(pc) => (fs, [pc])
      case _ => var g := JumpOnCond(fs, e, true); (g, [|g.code| - 1 as nat]);
    (h.(jpc := h.jpc + e.f), e.t + j)
  }

  /** The negated value; its jumps still lead where they did. */
  function NotValue(fs: FS, e: Exp): (FS, Kind)
  {
    match e.kind
    case KLit(v, fits) => (fs, KLit(Bool(!Truthy(v)), fits))
    case KJmp(pc) => (fs.(code := InvertJump(fs.code, pc)), e.kind)
    case _ =>
      var (g, r) := InAnyReg(fs, e);
      var h := Emit(FreeExp(g, Exp(KReg(r), [], [])), Instr.Not(0, r));
      (h, KReloc(|h.code| - 1))
  }

  /** Negation: the lists change roles, and no jump carries a value any more. */
  function CodeNot(fs: FS, e: Exp): (FS, Exp)
  {
    var (h, k) := NotValue(fs, e);
    (h.(code := RemoveValues(RemoveValues(h.code, e.t), e.f)), Exp(k, e.f, e.t))
  }

  /** The comparison instruction; `>` and `>=` exchange their operands. */
  function CompInstr(op: RelOp, x: RK, y: RK): Instr
  {
    match op
    case Eq => Cmp(EQ, true, x, y)
    case Ne => Cmp(EQ, false, x, y)
    case Lt => Cmp(LT, true, x, y)
    case Le => Cmp(LE, true, x, y)
    case Gt => Cmp(LT, true, y, x)
    case Ge => Cmp(LE, true, y, x)
  }

  /** The code of an expression, in the order in which the parser calls the generator. */
  function Compile(fs: FS, x: Expr): (FS, Exp)
    decreases x
  {
    match x
    case Local(r) => (fs, Exp(KReg(r), [], []))
    case Lit(v, fits) => (fs, Exp(KLit(v, fits), [], []))
    case Neg(a) => var (h, e) := Compile(fs, a); CodeNot(h, e)
    case And(a, b) =>
      var (h, ea) := Compile(fs, a);
      var (g, f) := GoIfTrue(h, ea);
      var (k, eb) := Compile(g, b);
      (k, eb.(f := eb.f + f))
    case Or(a, b) =>
      var (h, ea) := Compile(fs, a);
      var (g, t) := GoIfFalse(h, ea);
      var (k, eb) := Compile(g, b);
      (k, eb.(t := eb.t + t))
    case Rel(op, a, b) =>
      var (h, ea) := Compile(fs, a);
      var (h1, ea1, oa) := Exp2RK(h, ea);
      var (h2, eb) := Compile(h1, b);
      var (h3, eb1, ob) := Exp2RK(h2, eb);
      var g := CondJump(FreeExp(FreeExp(h3, eb1), ea1), CompInstr(op, oa, ob));
      (g, Exp(KJmp(|g.code| - 1), [], []))
  }
}
