/**
 What holds of the code under construction and of the jump lists into it, whatever
 the code computes: lists hold open jumps, apart from each other, and every other
 jump stays within the code.
 */
module LuaLists {
  import opened Options
  import opened LuaVm
  import opened LuaCode

  function Elems(s: seq<nat>): (h: set<nat>)
    ensures forall j :: j in h <==> j in s
  {
    set j | j in s
  }

  /** An open jump; the test before it, if it keeps a value, does not know where yet. */
  predicate OpenJump(code: seq<Instr>, j: nat)
  {
    j < |code| && code[j] == Jmp(None) && (TestsSet(code, j) ==> code[j - 1].to.None?)
  }

  predicate Open(code: seq<Instr>, s: seq<nat>)
  {
    forall j :: j in s ==> OpenJump(code, j)
  }

  predicate Apart(s: seq<nat>, t: seq<nat>)
  {
    forall j :: j in s ==> j !in t
  }

  /** An instruction that stays within code of length n, and forward. */
  predicate Within(i: Instr, p: nat, n: nat)
  {
    match i
    case Jmp(Some(t)) => p < t <= n
    case LoadBool(_, _, skip) => skip ==> p + 2 <= n
    case Cmp(_, _, _, _) => p + 2 <= n
    case Test(_, _) => p + 2 <= n
    case TestSet(_, _, _) => p + 2 <= n
    case _ => true
  }

  /** No jump leaves the code, and every test has its jump. */
  predicate Confined(code: seq<Instr>)
  {
    forall p :: 0 <= p < |code| ==> InstrOk(code, p)
  }

  predicate InstrOk(code: seq<Instr>, p: nat)
    requires p < |code|
  {
    Within(code[p], p, |code|) && (IsTest(code[p]) ==> p + 1 < |code| && code[p + 1].Jmp?)
  }

  /** A run that has come to the end, or to an open jump. */
  predicate Ended(code: seq<Instr>, o: Out)
  {
    && o.Out? && o.pc <= |code|
    && (o.pc < |code| ==> code[o.pc] == Jmp(None))
    && (o.via ==> 1 <= o.pc < |code| && IsTest(code[o.pc - 1]))
  }

  /** Confined code runs to its end or to an open jump. */
  lemma {:induction false} RunEnds(code: seq<Instr>, c: Comparison, pc: nat, m: Regs)
    requires Confined(code) && pc <= |code|
    ensures Ended(code, Run(code, c, pc, m))
    decreases |code| - pc
  {
    if pc < |code| {
      assert InstrOk(code, pc);
      match code[pc]
      case Move(a, b) => RunEnds(code, c, pc + 1, m[a := Get(m, b)]);
      case LoadK(a, v) => RunEnds(code, c, pc + 1, m[a := v]);
      case LoadBool(a, b, skip) => RunEnds(code, c, if skip then pc + 2 else pc + 1, m[a := Bool(b)]);
      case Not(a, b) => RunEnds(code, c, pc + 1, m[a := Bool(!Truthy(Get(m, b)))]);
      case Jmp(None) =>
      case Jmp(Some(t)) => RunEnds(code, c, t, m);
      case _ =>
        RunTest(code, c, pc, m);
        if !Takes(code[pc], c, m) {
          RunEnds(code, c, pc + 2, m);
        } else {
          LeapEnds(code, c, pc + 1, Sets(code[pc], m));
        }
    }
  }

  lemma {:induction false} LeapEnds(code: seq<Instr>, c: Comparison, j: nat, m: Regs)
    requires Confined(code) && j < |code| && code[j].Jmp?
    requires 1 <= j && IsTest(code[j - 1])
    ensures Ended(code, Leap(code, c, j, m))
    decreases |code| - j, 0
  {
    assert InstrOk(code, j);
    if code[j].target.Some? {
      RunEnds(code, c, code[j].target.value, m);
    }
  }

  /** A place where running may go on: any, or a jump with its test. */
  predicate Entry(code: seq<Instr>, pc: nat, via: bool)
  {
    pc <= |code| && (via ==> 1 <= pc < |code| && code[pc].Jmp? && IsTest(code[pc - 1]))
  }

  lemma FromEnds(code: seq<Instr>, c: Comparison, pc: nat, via: bool, m: Regs)
    requires Confined(code) && Entry(code, pc, via)
    ensures Ended(code, From(code, c, pc, via, m))
  {
    if via {
      LeapEnds(code, c, pc, Sets(code[pc - 1], m));
    } else {
      RunEnds(code, c, pc, m);
    }
  }

  /** `Compose` for any entry. */
  lemma ComposeFrom(code: seq<Instr>, more: seq<Instr>, h: set<nat>, c: Comparison, pc: nat, via: bool, m: Regs)
    requires Refined(code, more, h) && Entry(code, pc, via) && Confined(code)
    ensures var o := From(code, c, pc, via, m);
            && Ended(code, o)
            && From(more, c, pc, via, m) == if o.pc == |code| || o.pc in h then From(more, c, o.pc, o.via, o.regs) else o
  {
    FromEnds(code, c, pc, via, m);
    if via {
      assert Replaces(code[pc - 1], more[pc - 1], pc - 1, h) && Replaces(code[pc], more[pc], pc, h);
      LeapRefined(code, more, h, c, pc, m);
    } else {
      Compose(code, more, h, c, pc, m);
    }
  }

  // ---------------------------------------------------------------- patching and emitting

  lemma PatchRefines(code: seq<Instr>, s: seq<nat>, vtarget: nat, reg: Option<nat>, dtarget: nat)
    requires Open(code, s)
    ensures Refined(code, Patch(code, s, vtarget, reg, dtarget), Elems(s))
  {
    var r := Patch(code, s, vtarget, reg, dtarget);
    forall p | 0 <= p < |code| ensures Replaces(code[p], r[p], p, Elems(s)) {
      if p + 1 in s {
        assert OpenJump(code, p + 1);
      }
      if p in s {
        assert OpenJump(code, p);
      }
    }
  }

  lemma RefinedMore(code: seq<Instr>, more: seq<Instr>, h: set<nat>, tail: seq<Instr>)
    requires Refined(code, more, h)
    ensures Refined(code, more + tail, h)
  {
  }

  /** A run that has come to where the next instruction will be. */
  predicate Here(fs: FS, o: Out)
  {
    o.Out? && (o.pc == |fs.code| || o.pc in fs.jpc)
  }

  /** Runs that have come here go on with the emitted instruction; others are not affected. */
  lemma EmitRun(fs: FS, i: Instr, tail: seq<Instr>, c: Comparison, pc: nat, via: bool, m: Regs)
    requires Open(fs.code, fs.jpc) && Confined(fs.code) && Entry(fs.code, pc, via)
    ensures var o, more := From(fs.code, c, pc, via, m), Emit(fs, i).code + tail;
            && Ended(fs.code, o)
            && From(more, c, pc, via, m) == if Here(fs, o) then Run(more, c, |fs.code|, o.regs) else o
  {
    var n := |fs.code|;
    var patched := Patch(fs.code, fs.jpc, n, None, n);
    var more := Emit(fs, i).code + tail;
    PatchRefines(fs.code, fs.jpc, n, None, n);
    RefinedMore(fs.code, patched, Elems(fs.jpc), [i] + tail);
    assert more == patched + ([i] + tail);
    hide Refined, Elems;
    ComposeFrom(fs.code, more, Elems(fs.jpc), c, pc, via, m);
    var o := From(fs.code, c, pc, via, m);
    if o.pc in fs.jpc {
      assert OpenJump(fs.code, o.pc);
      assert more[o.pc] == Jmp(Some(n));
      if o.via {
        assert more[o.pc - 1] == patched[o.pc - 1];
        assert Sets(more[o.pc - 1], o.regs) == o.regs;
      }
    }
  }

  lemma EmitConfined(fs: FS, i: Instr)
    requires Open(fs.code, fs.jpc) && Confined(fs.code) && Within(i, |fs.code|, |fs.code| + 1) && !IsTest(i)
    ensures Confined(Emit(fs, i).code)
  {
    var n := |fs.code|;
    var r := Emit(fs, i).code;
    forall p | 0 <= p < |r| ensures InstrOk(r, p) {
      if p < n {
        PatchedWithin(fs.code, fs.jpc, n, None, n, n, p);
      }
    }
  }

  /** Patching within the code keeps it confined. */
  lemma PatchedWithin(code: seq<Instr>, s: seq<nat>, v: nat, reg: Option<nat>, d: nat, n: nat, p: nat)
    requires Open(code, s) && Confined(code) && p < |code| <= v <= n && (d == v || (forall j :: j in s ==> j < d <= n))
    ensures var r := Patch(code, s, v, reg, d);
            Within(r[p], p, n) && (IsTest(r[p]) ==> p + 1 < |code| && r[p + 1].Jmp?)
  {
    assert InstrOk(code, p);
    if p in s {
      assert OpenJump(code, p);
    }
    if p + 1 < |code| && p + 1 in s {
      assert OpenJump(code, p + 1);
    }
  }

  lemma CondJumpConfined(fs: FS, test: Instr)
    requires Open(fs.code, fs.jpc) && Confined(fs.code) && IsTest(test)
    ensures Confined(CondJump(fs, test).code)
  {
    var n := |fs.code|;
    var r := CondJump(fs, test).code;
    forall p | 0 <= p < |r| ensures InstrOk(r, p) {
      if p < n {
        PatchedWithin(fs.code, fs.jpc, n, None, n, n, p);
      }
    }
  }
}
