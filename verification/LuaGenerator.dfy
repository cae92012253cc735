/**
 The code generator's state as it is in memory, with operations that append to and
 patch the code; each does to the code and the lists it stands for what the
 functions on these say.
 */
module LuaGenerator {
  import opened Options
  import opened LuaVm
  import opened LuaCode
  import opened LuaLists
  import opened LuaShape
  import opened LuaJumps

  /** An expression's descriptor: its lists are their first jumps. */
  datatype ExpDesc = ExpDesc(kind: Kind, t: int, f: int)

  predicate Describes(raw: seq<Raw>, e: ExpDesc, x: Exp)
  {
    && e.kind == x.kind && Chain(raw, e.t, x.t) && Chain(raw, e.f, x.f)
    && (x.kind.KJmp? ==> Chain(raw, x.kind.pc, [x.kind.pc]))
  }

  /** Since the base of an expression, only jumps pending there have changed. */
  ghost predicate Since(raw0: seq<Raw>, raw: seq<Raw>, fs: FS)
  {
    |raw0| == |fs.code| && Kept(raw0, raw, fs.jpc)
  }

  /** The state behind the jump over the loads, and the list of that jump. */
  function Skipped(h: FS, x: Exp): FS
  {
    if x.kind.KJmp? then h else JumpTo(h)
  }

  function SkipList(h: FS, x: Exp): seq<nat>
  {
    if x.kind.KJmp? then [] else JumpList(h)
  }

  /** A list gets one more jump, or several, and another list becomes pending. */
  ghost predicate GoFits(fs: FS, h: FS, s: seq<nat>, list: seq<nat>, wait: seq<nat>)
  {
    && Open(h.code, h.jpc) && Untargeted(h.code, s) && Apart(s, list) && Apart(h.jpc, s) && Apart(wait, s)
    && Apart(h.jpc, wait) && Apart(s + list, h.jpc) && NewOr(fs, s) && NewOr(fs, h.jpc)
  }

  class FuncState {
    var code: seq<Raw>
    var jpc: int
    var freereg: nat
    var nactvar: nat

    constructor (n: nat)
      ensures Is(FS([], [], n, n))
    {
      code, jpc, freereg, nactvar := [], NO_JUMP, n, n;
    }

    ghost predicate Is(g: FS)
      reads this
    {
      Views(code, g.code) && Chain(code, jpc, g.jpc) && freereg == g.freereg && nactvar == g.nactvar
    }

    // -------------------------------------------------------------- lists

    /** Appends the second list to the first. */
    method Concat(l1: int, l2: int, ghost s1: seq<nat>, ghost s2: seq<nat>, ghost c: seq<Instr>) returns (l: int)
      requires Chain(code, l1, s1) && Chain(code, l2, s2) && Apart(s1, s2) && Views(code, c) && Untargeted(c, s1)
      modifies this`code
      ensures Chain(code, l, s1 + s2) && Views(code, c) && Kept(old(code), code, s1)
    {
      ChainEmpty(code, l1, s1);
      ChainEmpty(code, l2, s2);
      assert s1 == [] ==> s1 + s2 == s2;
      assert s2 == [] ==> s1 + s2 == s1;
      if l2 == NO_JUMP {
        return l1;
      }
      if l1 == NO_JUMP {
        return l2;
      }
      var list: nat := l1;
      ghost var i := 0;
      assert Link(code, s1, 0);
      while GetJump(code, list) != NO_JUMP
        invariant 0 <= i < |s1| && list == s1[i] && list < |code| && code[list].RJmp?
        invariant GetJump(code, list) == if i + 1 < |s1| then s1[i + 1] else NO_JUMP
        decreases |s1| - i
      {
        list := GetJump(code, list);
        i := i + 1;
        assert Link(code, s1, i);
      }
      assert list == s1[|s1| - 1];
      ChainJoin(code, l1, s1, l2, s2);
      JoinKeeps(code, c, s1, list, l2);
      code := code[list := RJmp(Offset(list, l2))];
      l := l1;
    }

    /** Gives all jumps of a list their targets. */
    method PatchListAux(list: int, vtarget: nat, reg: Option<nat>, dtarget: nat, ghost s: seq<nat>, ghost c: seq<Instr>)
      requires Chain(code, list, s) && Views(code, c) && Open(c, s)
      modifies this`code
      ensures Views(code, Patch(c, s, vtarget, reg, dtarget)) && Kept(old(code), code, s)
    {
      var l := list;
      ghost var i := 0;
      assert Patch(c, s[..0], vtarget, reg, dtarget) == c;
      assert s[0..] == s;
      ChainEmpty(code, l, s);
      while l != NO_JUMP
        invariant 0 <= i <= |s| && Chain(code, l, s[i..]) && (l == NO_JUMP <==> i == |s|)
        invariant Views(code, Patch(c, s[..i], vtarget, reg, dtarget)) && Kept(old(code), code, s)
        decreases |s| - i
      {
        hide Chain, Kept, Views, Patch, Stands;
        ChainTail(code, l, s[i..]);
        assert s[i..][1..] == s[i + 1..] && s[..i + 1] == s[..i] + [s[i]];
        OneFits(s, i, c);
        PatchOne(code, c, s[..i], l, vtarget, reg, dtarget);
        var next := GetJump(code, l);
        var dest := if RawSets(code, l) then vtarget else dtarget;
        OneKeeps(code, l, reg, RJmp(Offset(l, dest)), [l]);
        OneKeeps(code, l, reg, RJmp(Offset(l, dest)), s);
        ghost var was := code;
        code := RawSettled(code, l, reg)[l := RJmp(Offset(l, dest))];
        ChainKept(was, code, [l], next, s[i + 1..]);
        KeptTrans(old(code), was, code, s, s);
        l := next;
        i := i + 1;
        ChainEmpty(code, l, s[i..]);
      }
      assert s[..i] == s;
    }

    /** Some jump of the list does not carry a value. */
    method NeedsValue(list: int, ghost s: seq<nat>, ghost c: seq<Instr>) returns (b: bool)
      requires Chain(code, list, s) && Views(code, c)
      ensures b == NeedValue(c, s)
    {
      var l := list;
      ghost var i := 0;
      while l != NO_JUMP
        invariant 0 <= i <= |s| && l == (if i < |s| then s[i] else NO_JUMP)
        invariant forall k :: 0 <= k < i ==> TestsSet(c, s[k])
        decreases |s| - i
      {
        assert Link(code, s, i);
        SetsView(code, c, l);
        if !RawSets(code, l) {
          assert s[i] in s;
          return true;
        }
        l := GetJump(code, l);
        i := i + 1;
      }
      b := false;
    }

    /** The tests of the list give up their values. */
    method DropValues(list: int, ghost s: seq<nat>, ghost c: seq<Instr>)
      requires Chain(code, list, s) && Views(code, c) && Open(c, s)
      modifies this`code
      ensures Views(code, RemoveValues(c, s)) && Kept(old(code), code, [])
    {
      var l := list;
      ghost var i := 0;
      assert RemoveValues(c, s[..0]) == c;
      assert s[0..] == s;
      ChainEmpty(code, l, s);
      while l != NO_JUMP
        invariant 0 <= i <= |s| && Chain(code, l, s[i..]) && (l == NO_JUMP <==> i == |s|)
        invariant Views(code, RemoveValues(c, s[..i])) && Kept(old(code), code, [])
        decreases |s| - i
      {
        hide Chain, Kept, Views, RemoveValues, Stands, RawSettled;
        ChainTail(code, l, s[i..]);
        assert s[i..][1..] == s[i + 1..] && s[..i + 1] == s[..i] + [s[i]];
        OneFits(s, i, c);
        RemoveOneValue(code, c, s[..i], l);
        ghost var was := code;
        code := RawSettled(code, l, None);
        ChainKept(was, code, [], s[i], s[i..]);
        ChainTail(code, l, s[i..]);
        KeptTrans(old(code), was, code, [], []);
        l := GetJump(code, l);
        i := i + 1;
        ChainEmpty(code, l, s[i..]);
      }
      assert s[..i] == s;
    }

    // -------------------------------------------------------------- instructions

    method DischargeJpc(ghost g: FS)
      requires Is(g) && Open(g.code, g.jpc)
      modifies this`code, this`jpc
      ensures Is(g.(code := Patch(g.code, g.jpc, |g.code|, None, |g.code|), jpc := [])) && Kept(old(code), code, g.jpc)
    {
      PatchListAux(jpc, |code|, None, |code|, g.jpc, g.code);
      jpc := NO_JUMP;
    }

    method Code(i: Instr, ghost g: FS)
      requires Is(g) && Open(g.code, g.jpc) && !i.Jmp?
      modifies this`code, this`jpc
      ensures Is(Emit(g, i)) && Kept(old(code), code, g.jpc)
    {
      DischargeJpc(g);
      AddView(code, Patch(g.code, g.jpc, |g.code|, None, |g.code|), i);
      code := code + [RI(i)];
    }

    method Jump(ghost g: FS) returns (j: int)
      requires Is(g) && Open(g.code, g.jpc)
      modifies this`code, this`jpc
      ensures Is(JumpTo(g)) && Chain(code, j, JumpList(g)) && Kept(old(code), code, [])
    {
      var list := jpc;
      var n: nat := |code|;
      jpc := NO_JUMP;
      AddJump(code, g.code);
      ghost var was := code;
      code := code + [RJmp(NO_JUMP)];
      ChainKept(was, code, [], list, g.jpc);
      NewOpen(g);
      j := Concat(n, list, [n], g.jpc, JumpTo(g).code);
      KeptMore(old(code), code, [n], []) by { KeptTrans(old(code), was + [RJmp(NO_JUMP)], code, [n], [n]); }
    }

    method CondJump(test: Instr, ghost g: FS) returns (j: nat)
      requires Is(g) && Open(g.code, g.jpc) && IsTest(test)
      modifies this`code, this`jpc
      ensures Is(LuaCode.CondJump(g, test)) && Chain(code, j, [j]) && Kept(old(code), code, g.jpc) && j + 1 == |code|
    {
      Code(test, g);
      ghost var was := code;
      AddJump(code, Emit(g, test).code);
      j := |code|;
      code := code + [RJmp(NO_JUMP)];
      KeptTrans(old(code), was, code, g.jpc, []);
    }

    /** The jumps of the list are pending to the next instruction. */
    method PatchToHere(list: int, ghost g: FS, ghost s: seq<nat>)
      requires Is(g) && Open(g.code, g.jpc) && Chain(code, list, s) && Apart(g.jpc, s)
      modifies this`code, this`jpc
      ensures Is(g.(jpc := g.jpc + s)) && Kept(old(code), code, g.jpc)
    {
      OpenUntargeted(g.code, g.jpc);
      jpc := Concat(jpc, list, g.jpc, s, g.code);
    }

    // -------------------------------------------------------------- into a register

    method Discharge2Reg(e: ExpDesc, reg: nat, ghost fs: FS, ghost g: FS, ghost n: nat, ghost x: Exp, ghost raw0: seq<Raw>)
      requires Ready(fs) && Shape(fs, g.(freereg := n), x) && Is(g) && Describes(code, e, x) && Since(raw0, code, fs)
      modifies this`code, this`jpc
      ensures Is(LuaCode.Discharge2Reg(g, x, reg)) && Describes(code, e, x) && Since(raw0, code, fs)
    {
      hide Views, Chain, Kept, Stands, Shape, Ready, Patch;
      ShapeFacts(fs, g, n, x);
      ghost var was := code;
      match e.kind {
        case KLit(v, _) =>
          Code(if v.Bool? then LoadBool(reg, v.b, false) else LoadK(reg, v), g);
          ListsKept(was, code, g.jpc, e, x);
          SinceKept(raw0, was, code, fs, g.jpc);
        case KReloc(pc) =>
          RelocFacts(fs, g, n, x);
          ViewAt(code, g.code, pc);
          ChangeView(code, g.code, pc, WithA(g.code[pc], reg));
          ViewSize(code, g.code);
          code := code[pc := RI(WithA(code[pc].i, reg))];
          ListsKept(was, code, [], e, x);
          ChainKept(was, code, [], jpc, g.jpc);
          SinceKept(raw0, was, code, fs, []);
        case KReg(r) =>
          if r != reg {
            Code(Move(reg, r), g);
            ListsKept(was, code, g.jpc, e, x);
            SinceKept(raw0, was, code, fs, g.jpc);
          }
        case KJmp(_) =>
      }
    }

    /** Loads false and skips, or loads true. */
    method CodeLabels(reg: nat, ghost g: FS)
      requires Is(g) && g.jpc == []
      modifies this`code, this`jpc
      ensures Is(LoadBoth(g, reg)) && Kept(old(code), code, [])
    {
      hide Views, Chain, Kept, Stands, Patch;
      Code(LoadBool(reg, false, true), g);
      ghost var was := code;
      Code(LoadBool(reg, true, false), Emit(g, LoadBool(reg, false, true)));
      KeptTrans(old(code), was, code, [], []);
    }

    method Exp2Reg(e: ExpDesc, reg: nat, ghost fs: FS, ghost g: FS, ghost n: nat, ghost x: Exp, ghost raw0: seq<Raw>) returns (r: ExpDesc)
      requires Ready(fs) && Shape(fs, g.(freereg := n), x) && Is(g) && Describes(code, e, x) && Since(raw0, code, fs)
      modifies this`code, this`jpc
      ensures Is(LuaCode.Exp2Reg(g, x, reg)) && Describes(code, r, Exp(KReg(reg), [], [])) && Since(raw0, code, fs)
    {
      hide Views, Chain, Kept, Stands, Shape, Ready, Patch, Since, LuaCode.Discharge2Reg, LoadBoth, PatchBoth, HasLists, LuaCode.Exp2Reg, NeedValue, TrueJumps;
      Discharge2Reg(e, reg, fs, g, n, x, raw0);
      ghost var h := LuaCode.Discharge2Reg(g, x, reg);
      DischargeShape(fs, g, n, x, reg);
      JpcApart(fs, h, x);
      Exp2RegIs(g, x, reg);
      TrueJumpsFacts(fs, g, n, x, h);
      ghost var was := code;
      ghost var t := TrueJumps(x);
      var l := e.t;
      if e.kind.KJmp? {
        l := Concat(e.t, e.kind.pc, x.t, [x.kind.pc], h.code);
        ChainKept(was, code, x.t, jpc, h.jpc);
        ChainKept(was, code, x.t, e.f, x.f);
        SinceKept(raw0, was, code, fs, x.t);
      }
      ChainEmpty(code, l, t);
      ChainEmpty(code, e.f, x.f);
      if l != NO_JUMP || e.f != NO_JUMP {
        var needT := NeedsValue(l, t, h.code);
        var needF := NeedsValue(e.f, x.f, h.code);
        if needT || needF {
          LandAndClose(e, l, reg, fs, h, x, raw0);
        } else {
          ViewSize(code, h.code);
          CloseLists(e.f, l, reg, |code|, |code|, fs, h, x, h.jpc, raw0);
        }
      }
      r := ExpDesc(KReg(reg), NO_JUMP, NO_JUMP);
      NoLists(code, r, reg);
    }

    /** The jump over the loads, unless the expression falls into them. */
    method SkipLoads(e: ExpDesc, ghost h: FS, ghost x: Exp) returns (fj: int)
      requires e.kind == x.kind && Is(h) && Open(h.code, h.jpc) && (x.kind.KJmp? ==> h.jpc == [])
      modifies this`code, this`jpc
      ensures Is(Skipped(h, x)) && Chain(code, fj, SkipList(h, x)) && Kept(old(code), code, [])
    {
      hide Views, Chain, Kept, Stands;
      ChainNone(code);
      KeptSelf(code);
      fj := NO_JUMP;
      if !e.kind.KJmp? {
        fj := Jump(h);
      }
    }

    /** The two loads, and what runs into them from elsewhere jumps over them. */
    method LandAndClose(e: ExpDesc, l: int, reg: nat, ghost fs: FS, ghost h: FS, ghost x: Exp, ghost raw0: seq<Raw>)
      requires Ready(fs) && HasLists(fs, h, x) && (x.kind.KJmp? ==> h.jpc == []) && e.kind == x.kind && Is(h)
      requires Chain(code, l, TrueJumps(x)) && Chain(code, e.f, x.f) && Since(raw0, code, fs)
      modifies this`code, this`jpc
      ensures var k, g1 := Landed(h, x, reg), Skipped(h, x);
              Is(k.(code := PatchBoth(k.code, x.f, TrueJumps(x), reg, |g1.code|, |g1.code| + 1), jpc := SkipList(h, x)))
      ensures Since(raw0, code, fs)
    {
      hide Views, Chain, Kept, Stands, Ready, Patch, Since, LoadBoth, PatchBoth, HasLists, TrueJumps, Landed, Skipped, SkipList, Open, Apart, NewOr, Untargeted;
      ghost var k, g1 := Landed(h, x, reg), Skipped(h, x);
      ghost var fl := SkipList(h, x);
      LandedFacts(fs, h, x, reg);
      ghost var was := code;
      var fj := SkipLoads(e, h, x);
      ghost var mid := code;
      ViewSize(code, g1.code);
      var pf := |code|;
      CodeLabels(reg, g1);
      KeptTrans(was, mid, code, [], []);
      ChainKept(was, code, [], l, TrueJumps(x));
      ChainKept(was, code, [], e.f, x.f);
      ChainKept(mid, code, [], fj, fl);
      SinceKept(raw0, was, code, fs, []);
      ghost var before := code;
      PatchToHere(fj, k, fl);
      ChainKept(before, code, [], l, TrueJumps(x));
      ChainKept(before, code, [], e.f, x.f);
      SinceKept(raw0, before, code, fs, []);
      CloseLists(e.f, l, reg, pf, pf + 1, fs, k.(jpc := fl), x, fl, raw0);
    }

    /** Both lists get their targets. */
    method CloseLists(f: int, t: int, reg: nat, pf: nat, pt: nat, ghost fs: FS, ghost k: FS, ghost x: Exp, ghost fl: seq<nat>, ghost raw0: seq<Raw>)
      requires Open(k.code, x.f) && Open(k.code, TrueJumps(x)) && NewOr(fs, x.f) && NewOr(fs, TrueJumps(x)) && Apart(TrueJumps(x), x.f)
      requires k.jpc == fl && Apart(fl, x.f) && Apart(fl, TrueJumps(x)) && Is(k)
      requires Chain(code, f, x.f) && Chain(code, t, TrueJumps(x)) && Since(raw0, code, fs)
      modifies this`code
      ensures Is(k.(code := PatchBoth(k.code, x.f, TrueJumps(x), reg, pf, pt))) && Since(raw0, code, fs)
    {
      hide Views, Chain, Kept, Stands, Patch, Since, TrueJumps;
      ghost var was := code;
      ViewSize(code, k.code);
      var final := |code|;
      PatchListAux(f, final, Some(reg), pf, x.f, k.code);
      ChainKept(was, code, x.f, t, TrueJumps(x));
      ChainKept(was, code, x.f, jpc, k.jpc);
      SinceKept(raw0, was, code, fs, x.f);
      ghost var mid := code;
      ghost var c1 := Patch(k.code, x.f, |k.code|, Some(reg), pf);
      PatchRefines(k.code, x.f, |k.code|, Some(reg), pf);
      StayOpen(k.code, c1, Elems(x.f), TrueJumps(x));
      PatchListAux(t, final, Some(reg), pt, TrueJumps(x), c1);
      ChainKept(mid, code, TrueJumps(x), jpc, k.jpc);
      SinceKept(raw0, mid, code, fs, TrueJumps(x));
    }

    // -------------------------------------------------------------- registers

    method ReserveReg(ghost g: FS)
      requires Is(g)
      modifies this`freereg
      ensures Is(Reserve(g))
    {
      freereg := freereg + 1;
    }

    /** Frees the register of a temporary. */
    method FreeKind(k: Kind, ghost g: FS)
      requires Is(g)
      modifies this`freereg
      ensures Is(FreeExp(g, Exp(k, [], [])))
    {
      hide Views, Chain;
      if k.KReg? && k.r >= nactvar && freereg > 0 {
        freereg := freereg - 1;
      }
    }

    method Discharge2AnyReg(e: ExpDesc, ghost fs: FS, ghost g: FS, ghost x: Exp, ghost raw0: seq<Raw>) returns (q: nat)
      requires Ready(fs) && Shape(fs, g, x) && Is(g) && Describes(code, e, x) && Since(raw0, code, fs)
      modifies this
      ensures Is(InAnyReg(g, x).0) && q == InAnyReg(g, x).1 && Describes(code, e, x) && Since(raw0, code, fs)
    {
      hide Views, Chain, Kept, Shape, Ready, Since, LuaCode.Discharge2Reg;
      match e.kind {
        case KReg(r) => q := r;
        case _ =>
          q := freereg;
          ReserveReg(g);
          ReservedShape(fs, g, x);
          Discharge2Reg(e, q, fs, Reserve(g), g.freereg, x, raw0);
      }
    }

    method Exp2NextReg(e: ExpDesc, ghost fs: FS, ghost g: FS, ghost x: Exp, ghost raw0: seq<Raw>) returns (r: ExpDesc)
      requires Ready(fs) && Shape(fs, g, x) && Is(g) && Describes(code, e, x) && Since(raw0, code, fs)
      modifies this
      ensures Is(LuaCode.Exp2NextReg(g, x)) && Since(raw0, code, fs)
      ensures var h := LuaCode.Exp2NextReg(g, x); h.freereg >= 1 && Describes(code, r, Exp(KReg(h.freereg - 1), [], []))
    {
      hide Views, Chain, Kept, Shape, Ready, Since, LuaCode.Exp2Reg;
      FreeKind(e.kind, g);
      ghost var h := Reserve(FreeExp(g, x));
      ReserveReg(FreeExp(g, x));
      NextShape(fs, g, x);
      r := Exp2Reg(e, freereg - 1, fs, h, g.freereg, x, raw0);
    }

    // -------------------------------------------------------------- conditions

    /** The value is tested; the `not` before the test, if any, is taken back. */
    method JumpOnCond(e: ExpDesc, cond: bool, ghost fs: FS, ghost g: FS, ghost x: Exp, ghost raw0: seq<Raw>) returns (j: nat)
      requires Ready(fs) && Shape(fs, g, x) && !x.kind.KJmp? && Is(g) && Describes(code, e, x) && Since(raw0, code, fs)
      modifies this
      ensures var h := LuaCode.JumpOnCond(g, x, cond);
              && Is(h) && h.code != [] && j == |h.code| - 1 && Chain(code, j, [j]) && Describes(code, e, x) && Since(raw0, code, fs)
    {
      hide Views, Chain, Kept, Shape, Ready, Since, InAnyReg, LuaCode.CondJump, Open, Apart, NewOr, Stands;
      ShapeOf(fs, g, x);
      if e.kind.KReloc? {
        RelocFacts(fs, g, g.freereg, x);
        ShrinkFacts(code, e, fs, g, x, raw0);
        ViewSize(code, g.code);
        ChainEmpty(code, jpc, g.jpc);
        var b := code[|code| - 1].i.b;
        code := code[..|code| - 1];
        ChainNone(code);
        ghost var was := code;
        ghost var h := g.(code := g.code[..|g.code| - 1]);
        j := CondJump(Test(b, !cond), h);
        ListsKept(was, code, h.jpc, e, x);
        SinceKept(raw0, was, code, fs, h.jpc);
        ViewSize(code, LuaCode.CondJump(h, Test(b, !cond)).code);
      } else {
        var q := Discharge2AnyReg(e, fs, g, x, raw0);
        ghost var h := InAnyReg(g, x).0;
        FreeKind(KReg(q), h);
        ghost var h1 := FreeExp(h, Exp(KReg(q), [], []));
        ghost var was := code;
        InAnyFacts(fs, g, x);
        FreeKeeps(h, q);
        JumpOnCondIs(g, x, cond);
        j := CondJump(TestSet(None, q, cond), h1);
        ListsKept(was, code, h.jpc, e, x);
        SinceKept(raw0, was, code, fs, h.jpc);
        ViewSize(code, LuaCode.CondJump(h1, TestSet(None, q, cond)).code);
      }
    }

    /** Appends the last jump to one list; the other list becomes pending. */
    method JoinAndWait(l: int, j: int, here: int, ghost fs: FS, ghost h: FS, ghost s: seq<nat>, ghost list: seq<nat>, ghost wait: seq<nat>, ghost raw0: seq<Raw>)
      returns (r: int)
      requires GoFits(fs, h, s, list, wait) && Is(h) && Chain(code, l, s) && Chain(code, j, list) && Chain(code, here, wait) && Since(raw0, code, fs)
      modifies this`code, this`jpc
      ensures Is(h.(jpc := h.jpc + wait)) && Chain(code, r, s + list) && Since(raw0, code, fs)
    {
      hide Views, Chain, Kept, Since, Open, Apart, NewOr, Untargeted;
      ghost var was := code;
      r := Concat(l, j, s, list, h.code);
      ChainKept(was, code, s, jpc, h.jpc);
      ChainKept(was, code, s, here, wait);
      SinceKept(raw0, was, code, fs, s);
      ghost var mid := code;
      PatchToHere(here, h, wait);
      ChainKept(mid, code, h.jpc, r, s + list);
      SinceKept(raw0, mid, code, fs, h.jpc);
    }

    /** The comparison before the jump is turned round. */
    method InvertJumpAt(j: nat, e: ExpDesc, ghost fs: FS, ghost g: FS, ghost x: Exp, ghost raw0: seq<Raw>)
      requires Ready(fs) && Shape(fs, g, x) && x.kind == KJmp(j) && Is(g) && Describes(code, e, x) && Since(raw0, code, fs)
      modifies this`code
      ensures Is(g.(code := InvertJump(g.code, j))) && Describes(code, e, x) && Since(raw0, code, fs)
    {
      hide Views, Chain, Kept, Shape, Ready, Since, Stands;
      JmpFacts(fs, g, x);
      ghost var was := code;
      ViewAt(code, g.code, j - 1);
      ViewSize(code, g.code);
      ChangeView(code, g.code, j - 1, Inverted(g.code[j - 1]));
      code := code[j - 1 := RI(Inverted(code[j - 1].i))];
      NothingApart(x);
      ListsKept(was, code, [], e, x);
      ChainKept(was, code, [], jpc, g.jpc);
      SinceKept(raw0, was, code, fs, []);
    }

    method GoIfTrue(e: ExpDesc, ghost fs: FS, ghost g: FS, ghost x: Exp, ghost raw0: seq<Raw>) returns (f: int)
      requires Ready(fs) && Shape(fs, g, x) && Is(g) && Describes(code, e, x) && Since(raw0, code, fs)
      modifies this
      ensures var (h, s) := LuaCode.GoIfTrue(g, x); Is(h) && Chain(code, f, s) && Since(raw0, code, fs)
    {
      hide Views, Chain, Kept, Shape, Ready, Since, LuaCode.JumpOnCond, Open, Apart, NewOr, Untargeted, GoFits, InvertJump;
      ShapeOf(fs, g, x);
      ghost var was := code;
      match e.kind {
        case KLit(Other(_), _) =>
          ChainNone(code);
          StayFits(fs, g, x, x.f, x.t);
          f := JoinAndWait(e.f, NO_JUMP, e.t, fs, g, x.f, [], x.t, raw0);
        case KLit(Bool(b), _) =>
          if b {
            ChainNone(code);
            StayFits(fs, g, x, x.f, x.t);
            f := JoinAndWait(e.f, NO_JUMP, e.t, fs, g, x.f, [], x.t, raw0);
          } else {
            var j := Jump(g);
            NothingApart(x);
            ListsKept(was, code, [], e, x);
            SinceKept(raw0, was, code, fs, []);
            JumpFits(fs, g, x, x.f, x.t);
            f := JoinAndWait(e.f, j, e.t, fs, JumpTo(g), x.f, JumpList(g), x.t, raw0);
          }
        case KJmp(j) =>
          InvertJumpAt(j, e, fs, g, x, raw0);
          InvertGrows(fs, g, x);
          OwnFits(fs, g.(code := InvertJump(g.code, j)), x, x.f, x.t);
          f := JoinAndWait(e.f, j, e.t, fs, g.(code := InvertJump(g.code, j)), x.f, [j], x.t, raw0);
        case _ =>
          var j := JumpOnCond(e, false, fs, g, x, raw0);
          CondFits(fs, g, x, false, x.f, x.t);
          f := JoinAndWait(e.f, j, e.t, fs, LuaCode.JumpOnCond(g, x, false), x.f, [j], x.t, raw0);
      }
    }

    method GoIfFalse(e: ExpDesc, ghost fs: FS, ghost g: FS, ghost x: Exp, ghost raw0: seq<Raw>) returns (t: int)
      requires Ready(fs) && Shape(fs, g, x) && Is(g) && Describes(code, e, x) && Since(raw0, code, fs)
      modifies this
      ensures var (h, s) := LuaCode.GoIfFalse(g, x); Is(h) && Chain(code, t, s) && Since(raw0, code, fs)
    {
      hide Views, Chain, Kept, Shape, Ready, Since, LuaCode.JumpOnCond, Open, Apart, NewOr, Untargeted, GoFits;
      ShapeOf(fs, g, x);
      ghost var was := code;
      match e.kind {
        case KLit(Bool(b), _) =>
          if b {
            var j := Jump(g);
            NothingApart(x);
            ListsKept(was, code, [], e, x);
            SinceKept(raw0, was, code, fs, []);
            JumpFits(fs, g, x, x.t, x.f);
            t := JoinAndWait(e.t, j, e.f, fs, JumpTo(g), x.t, JumpList(g), x.f, raw0);
          } else {
            ChainNone(code);
            StayFits(fs, g, x, x.t, x.f);
            t := JoinAndWait(e.t, NO_JUMP, e.f, fs, g, x.t, [], x.f, raw0);
          }
        case KLit(Nil, _) =>
          ChainNone(code);
          StayFits(fs, g, x, x.t, x.f);
          t := JoinAndWait(e.t, NO_JUMP, e.f, fs, g, x.t, [], x.f, raw0);
        case KJmp(j) =>
          OwnFits(fs, g, x, x.t, x.f);
          t := JoinAndWait(e.t, j, e.f, fs, g, x.t, [j], x.f, raw0);
        case _ =>
          var j := JumpOnCond(e, true, fs, g, x, raw0);
          CondFits(fs, g, x, true, x.t, x.f);
          t := JoinAndWait(e.t, j, e.f, fs, LuaCode.JumpOnCond(g, x, true), x.t, [j], x.f, raw0);
      }
    }

    // -------------------------------------------------------------- negation

    /** The negated value; the lists have not changed roles yet. */
    method NotValue(e: ExpDesc, ghost fs: FS, ghost g: FS, ghost x: Exp, ghost raw0: seq<Raw>) returns (k: Kind)
      requires Ready(fs) && Shape(fs, g, x) && Is(g) && Describes(code, e, x) && Since(raw0, code, fs)
      modifies this
      ensures var (h, k') := LuaCode.NotValue(g, x);
              k == k' && Is(h) && Describes(code, ExpDesc(k, e.t, e.f), Exp(k, x.t, x.f)) && Since(raw0, code, fs)
    {
      hide Views, Chain, Kept, Shape, Ready, Since, InAnyReg, Open, Apart, NewOr, Emit, InvertJump;
      match e.kind {
        case KLit(v, fits) => k := KLit(Bool(!Truthy(v)), fits);
        case KJmp(j) =>
          InvertJumpAt(j, e, fs, g, x, raw0);
          k := e.kind;
        case _ =>
          var q := Discharge2AnyReg(e, fs, g, x, raw0);
          ghost var h := InAnyReg(g, x).0;
          FreeKind(KReg(q), h);
          ghost var h1 := FreeExp(h, Exp(KReg(q), [], []));
          ghost var was := code;
          InAnyFacts(fs, g, x);
          FreeKeeps(h, q);
          Code(Instr.Not(0, q), h1);
          ListsKept(was, code, h.jpc, e, x);
          SinceKept(raw0, was, code, fs, h.jpc);
          ViewSize(code, Emit(h1, Instr.Not(0, q)).code);
          EmitSize(h1, Instr.Not(0, q));
          k := KReloc(|code| - 1);
      }
    }

    method CodeNot(e: ExpDesc, ghost fs: FS, ghost g: FS, ghost x: Exp, ghost raw0: seq<Raw>) returns (r: ExpDesc)
      requires Ready(fs) && Shape(fs, g, x) && Is(g) && Describes(code, e, x) && Since(raw0, code, fs)
      modifies this
      ensures var (h, x') := LuaCode.CodeNot(g, x); Is(h) && Describes(code, r, x') && Since(raw0, code, fs)
    {
      hide Views, Chain, Kept, Shape, Ready, Since, LuaCode.NotValue, RemoveValues, Open, Apart, NewOr;
      var k := NotValue(e, fs, g, x, raw0);
      NotValueShape(fs, g, x);
      ghost var h := LuaCode.NotValue(g, x).0;
      ghost var x1 := Exp(k, x.t, x.f);
      ghost var was := code;
      ShapeOf(fs, h, x1);
      ShapeFacts(fs, h, h.freereg, x1);
      NothingApart(x1);
      DropValues(e.t, x.t, h.code);
      DroppedKeeps(was, code, ExpDesc(k, e.t, e.f), x1, jpc, h.jpc, raw0, fs);
      ghost var h1 := h.(code := RemoveValues(h.code, x.t));
      RemoveShape(fs, h, x1, x.t);
      ShapeOf(fs, h1, x1);
      ShapeFacts(fs, h1, h1.freereg, x1);
      ghost var mid := code;
      DropValues(e.f, x.f, h1.code);
      DroppedKeeps(mid, code, ExpDesc(k, e.t, e.f), x1, jpc, h.jpc, raw0, fs);
      r := ExpDesc(k, e.f, e.t);
    }

    // -------------------------------------------------------------- operands

    method Exp2AnyReg(e: ExpDesc, ghost fs: FS, ghost g: FS, ghost x: Exp, ghost raw0: seq<Raw>) returns (r: ExpDesc)
      requires Ready(fs) && Shape(fs, g, x) && Is(g) && Describes(code, e, x) && Since(raw0, code, fs)
      modifies this
      ensures var (h, q) := LuaCode.Exp2AnyReg(g, x); Is(h) && Describes(code, r, Exp(KReg(q), [], [])) && Since(raw0, code, fs)
    {
      hide Views, Chain, Kept, Shape, Ready, Since, LuaCode.Exp2Reg, LuaCode.Exp2NextReg;
      ChainEmpty(code, e.t, x.t);
      ChainEmpty(code, e.f, x.f);
      if e.kind.KReg? {
        if e.t == NO_JUMP && e.f == NO_JUMP {
          return e;
        }
        if e.kind.r >= nactvar {
          ShapeOf(fs, g, x);
          r := Exp2Reg(e, e.kind.r, fs, g, g.freereg, x, raw0);
          return;
        }
      }
      r := Exp2NextReg(e, fs, g, x, raw0);
    }

    method Exp2RK(e: ExpDesc, ghost fs: FS, ghost g: FS, ghost x: Exp, ghost raw0: seq<Raw>) returns (r: ExpDesc, o: RK)
      requires Ready(fs) && Shape(fs, g, x) && Is(g) && Describes(code, e, x) && Since(raw0, code, fs)
      modifies this
      ensures var (h, x', o') := LuaCode.Exp2RK(g, x); Is(h) && Describes(code, r, x') && o == o' && Since(raw0, code, fs)
    {
      hide Views, Chain, Kept, Shape, Ready, Since, LuaCode.Exp2AnyReg;
      ChainEmpty(code, e.t, x.t);
      ChainEmpty(code, e.f, x.f);
      if e.kind.KLit? && e.kind.fits && e.t == NO_JUMP && e.f == NO_JUMP {
        return e, K(e.kind.v);
      }
      r := Exp2AnyReg(e, fs, g, x, raw0);
      o := Reg(r.kind.r);
    }

    // -------------------------------------------------------------- expressions

    /** The list of the first operand is appended to that of the second. */
    method Append(l: int, f: int, ghost fs: FS, ghost h: FS, ghost k: FS, ghost xl: seq<nat>, ghost s: seq<nat>, ghost raw0: seq<Raw>) returns (r: int)
      requires Is(k) && Chain(code, l, xl) && Chain(code, f, s) && Apart(xl, s) && Open(k.code, xl) && Apart(k.jpc, xl) && NewOr(fs, xl)
      requires Since(raw0, code, fs)
      modifies this`code
      ensures Is(k) && Chain(code, r, xl + s) && Since(raw0, code, fs) && Kept(old(code), code, xl)
    {
      hide Views, Chain, Kept, Since, Open, Apart, NewOr;
      ghost var was := code;
      OpenUntargeted(k.code, xl);
      r := Concat(l, f, xl, s, k.code);
      ChainKept(was, code, xl, jpc, k.jpc);
      SinceKept(raw0, was, code, fs, xl);
    }

    /** The parser's walk over an expression, calling the generator. */
    method Subexpr(x: Expr, ghost fs: FS) returns (e: ExpDesc)
      requires Ready(fs) && Ok(x, fs.nactvar) && Is(fs)
      modifies this
      ensures var (r, x') := Compile(fs, x); Is(r) && Describes(code, e, x') && Since(old(code), code, fs)
      decreases x
    {
      hide Views, Chain, Kept, Shape, Ready, Since, LuaCode.CodeNot, LuaCode.GoIfTrue, LuaCode.GoIfFalse, LuaCode.Exp2RK, LuaCode.CondJump, Open, Apart, NewOr;
      ghost var raw0 := code;
      SinceSelf(code, fs, jpc);
      match x {
        case Local(r) =>
          ChainNone(code);
          e := ExpDesc(KReg(r), NO_JUMP, NO_JUMP);
        case Lit(v, fits) =>
          ChainNone(code);
          e := ExpDesc(KLit(v, fits), NO_JUMP, NO_JUMP);
        case Neg(a) =>
          var ea := Subexpr(a, fs);
          CompileShape(fs, a);
          e := CodeNot(ea, fs, Compile(fs, a).0, Compile(fs, a).1, raw0);
        case And(a, b) => e := AndExpr(a, b, fs);
        case Or(a, b) => e := OrExpr(a, b, fs);
        case Rel(op, a, b) => e := RelExpr(op, a, b, fs);
      }
    }

    method AndExpr(a: Expr, b: Expr, ghost fs: FS) returns (e: ExpDesc)
      requires Ready(fs) && Ok(And(a, b), fs.nactvar) && Is(fs)
      modifies this
      ensures var (r, x') := Compile(fs, And(a, b)); Is(r) && Describes(code, e, x') && Since(old(code), code, fs)
      decreases And(a, b), 0
    {
      hide Views, Chain, Kept, Shape, Ready, Since, LuaCode.GoIfTrue, Open, Apart, NewOr, GoShape, Grows, ListOk;
      ghost var raw0 := code;
      var ea := Subexpr(a, fs);
      CompileShape(fs, a);
      ghost var (h, xa) := Compile(fs, a);
      var f := GoIfTrue(ea, fs, h, xa, raw0);
      GoIfTrueShape(fs, h, xa);
      ghost var (g, s) := LuaCode.GoIfTrue(h, xa);
      GoReady(fs, g, s);
      ghost var raw1 := code;
      var eb := Subexpr(b, g);
      CompileShape(g, b);
      ghost var (k, xb) := Compile(g, b);
      AcrossFacts(fs, g, s, k, xb, raw0, raw1, code, f);
      ghost var raw2 := code;
      var r := Append(eb.f, f, fs, h, k, xb.f, s, raw0);
      ChainKept(raw2, code, xb.f, eb.t, xb.t);
      OwnKept(raw2, code, xb.f, xb);
      e := ExpDesc(eb.kind, eb.t, r);
    }

    method OrExpr(a: Expr, b: Expr, ghost fs: FS) returns (e: ExpDesc)
      requires Ready(fs) && Ok(Or(a, b), fs.nactvar) && Is(fs)
      modifies this
      ensures var (r, x') := Compile(fs, Or(a, b)); Is(r) && Describes(code, e, x') && Since(old(code), code, fs)
      decreases Or(a, b), 0
    {
      hide Views, Chain, Kept, Shape, Ready, Since, LuaCode.GoIfFalse, Open, Apart, NewOr, GoShape, Grows, ListOk;
      ghost var raw0 := code;
      var ea := Subexpr(a, fs);
      CompileShape(fs, a);
      ghost var (h, xa) := Compile(fs, a);
      var t := GoIfFalse(ea, fs, h, xa, raw0);
      GoIfFalseShape(fs, h, xa);
      ghost var (g, s) := LuaCode.GoIfFalse(h, xa);
      GoReady(fs, g, s);
      ghost var raw1 := code;
      var eb := Subexpr(b, g);
      CompileShape(g, b);
      ghost var (k, xb) := Compile(g, b);
      AcrossFacts(fs, g, s, k, xb, raw0, raw1, code, t);
      ghost var raw2 := code;
      var r := Append(eb.t, t, fs, h, k, xb.t, s, raw0);
      ChainKept(raw2, code, xb.t, eb.f, xb.f);
      OwnKept(raw2, code, xb.t, xb);
      e := ExpDesc(eb.kind, r, eb.f);
    }

    /** A comparison: the first operand is fetched before the second one is compiled. */
    method RelExpr(op: RelOp, a: Expr, b: Expr, ghost fs: FS) returns (e: ExpDesc)
      requires Ready(fs) && Ok(Rel(op, a, b), fs.nactvar) && Is(fs)
      modifies this
      ensures var (r, x') := Compile(fs, Rel(op, a, b)); Is(r) && Describes(code, e, x') && Since(old(code), code, fs)
      decreases Rel(op, a, b), 0
    {
      hide Views, Chain, Kept, Shape, Ready, Since, LuaCode.Exp2RK, LuaCode.CondJump, Open, Apart, NewOr, Grows, FreeExp, CompInstr;
      ghost var raw0 := code;
      var ea := Subexpr(a, fs);
      CompileShape(fs, a);
      ghost var (h, xa) := Compile(fs, a);
      var ea1, oa := Exp2RK(ea, fs, h, xa, raw0);
      Exp2RKShape(fs, h, xa);
      ghost var (h1, xa1, oa') := LuaCode.Exp2RK(h, xa);
      OperandReady(fs, h1, xa1, oa);
      ghost var raw1 := code;
      var eb := Subexpr(b, h1);
      CompileShape(h1, b);
      ghost var (h2, xb) := Compile(h1, b);
      var eb1, ob := Exp2RK(eb, h1, h2, xb, raw1);
      Exp2RKShape(h1, h2, xb);
      ghost var (h3, xb1, ob') := LuaCode.Exp2RK(h2, xb);
      OperandPlain(h, xa, h2, xb);
      ViewSize(raw1, h1.code);
      SinceTrans(raw0, raw1, code, fs, h1);
      FreeKind(eb1.kind, h3);
      ghost var h4 := FreeExp(h3, xb1);
      FreeSame(h3, xb1);
      FreeKind(ea1.kind, h4);
      ghost var h5 := FreeExp(h4, xa1);
      FreeSame(h4, xa1);
      RelOpen(fs, h1, h3);
      ghost var was := code;
      CompTest(op, oa, ob);
      var j := CondJump(CompInstr(op, oa, ob), h5);
      SinceKept(raw0, was, code, fs, h3.jpc);
      ViewSize(code, LuaCode.CondJump(h5, CompInstr(op, oa, ob)).code);
      ChainNone(code);
      e := ExpDesc(KJmp(j), NO_JUMP, NO_JUMP);
    }
  }

  lemma OneFits(s: seq<nat>, i: nat, c: seq<Instr>)
    requires i < |s| && Open(c, s) && Distinct(s)
    ensures OpenJump(c, s[i]) && s[i] !in s[..i] && Open(c, s[..i]) && s[i] in s && Apart(s[i + 1..], [s[i]])
  {
  }

  /** A new jump, apart from those pending. */
  lemma NewOpen(g: FS)
    requires Open(g.code, g.jpc)
    ensures var n: nat := |g.code|; Apart([n], g.jpc) && JumpTo(g).code == g.code + [Jmp(None)]
  {
    forall j | j in g.jpc ensures j < |g.code| {
      assert OpenJump(g.code, j);
    }
  }

  // ---------------------------------------------------------------- facts about lists in memory

  lemma ListsKept(raw: seq<Raw>, now: seq<Raw>, h: seq<nat>, e: ExpDesc, x: Exp)
    requires Describes(raw, e, x) && Kept(raw, now, h) && Apart(x.t, h) && Apart(x.f, h) && (x.kind.KJmp? ==> x.kind.pc !in h)
    ensures Describes(now, e, x)
  {
    ChainKept(raw, now, h, e.t, x.t);
    ChainKept(raw, now, h, e.f, x.f);
    if x.kind.KJmp? {
      ChainKept(raw, now, h, x.kind.pc, [x.kind.pc]);
    }
    hide Chain, Kept;
  }

  lemma SinceKept(raw0: seq<Raw>, raw: seq<Raw>, now: seq<Raw>, fs: FS, h: seq<nat>)
    requires Since(raw0, raw, fs) && Kept(raw, now, h) && NewOr(fs, h)
    ensures Since(raw0, now, fs)
  {
    KeptTrans(raw0, raw, now, fs.jpc, h);
    hide Kept;
  }

  lemma ShapeFacts(fs: FS, g: FS, n: nat, x: Exp)
    requires Shape(fs, g.(freereg := n), x)
    ensures Open(g.code, g.jpc) && NewOr(fs, g.jpc) && Confined(g.code)
    ensures Apart(x.t, g.jpc) && Apart(x.f, g.jpc) && NewOr(fs, x.t) && NewOr(fs, x.f) && Open(g.code, x.t) && Open(g.code, x.f)
    ensures Apart(x.t, x.f) && Apart(x.f, x.t) && Apart(g.jpc, x.t) && Apart(g.jpc, x.f)
  {
    hide Refined, Open, Confined, KindOk;
  }

  lemma RelocFacts(fs: FS, g: FS, n: nat, x: Exp)
    requires Shape(fs, g.(freereg := n), x) && x.kind.KReloc?
    ensures x.kind.pc == |g.code| - 1 && g.code[x.kind.pc].Not? && g.jpc == []
  {
  }

  lemma ViewSize(raw: seq<Raw>, c: seq<Instr>)
    requires Views(raw, c)
    ensures |raw| == |c|
  {
  }

  lemma TrueJumpsFacts(fs: FS, g: FS, n: nat, x: Exp, h: FS)
    requires Shape(fs, g.(freereg := n), x) && HasLists(fs, h, x) && (x.kind.KJmp? ==> h == g && g.jpc == [])
    ensures TrueJumps(x) == if x.kind.KJmp? then x.t + [x.kind.pc] else x.t
    ensures NewOr(fs, x.t) && Apart(h.jpc, x.t) && Apart(x.f, x.t) && Apart(x.t, x.f)
    ensures x.kind.KJmp? ==> Untargeted(h.code, x.t) && Apart(x.t, [x.kind.pc])
    ensures NewOr(fs, x.f) && NewOr(fs, TrueJumps(x)) && Apart(TrueJumps(x), x.f) && Open(h.code, x.f) && Open(h.code, TrueJumps(x))
  {
    if x.kind.KJmp? {
      OpenUntargeted(g.code, x.t);
    }
    hide Refined, Confined, OpenJump;
  }

  lemma NoLists(raw: seq<Raw>, e: ExpDesc, reg: nat)
    requires e == ExpDesc(KReg(reg), NO_JUMP, NO_JUMP)
    ensures Describes(raw, e, Exp(KReg(reg), [], []))
  {
  }

  lemma ChainNone(raw: seq<Raw>)
    ensures Chain(raw, NO_JUMP, [])
  {
  }

  lemma KeptSelf(raw: seq<Raw>)
    ensures Kept(raw, raw, [])
  {
  }

  /** All that closing the lists behind the loads needs. */
  lemma LandedFacts(fs: FS, h: FS, x: Exp, reg: nat)
    requires Ready(fs) && HasLists(fs, h, x) && (x.kind.KJmp? ==> h.jpc == [])
    ensures var k, fl := Landed(h, x, reg), SkipList(h, x);
            && k == LoadBoth(Skipped(h, x), reg) && Skipped(h, x).jpc == [] && k.jpc == [] && [] + fl == fl
            && Open(h.code, h.jpc) && Open(k.code, k.jpc) && NewOr(fs, []) && Apart(k.jpc, fl)
            && Apart(TrueJumps(x), []) && Apart(x.f, []) && Apart(fl, [])
            && Open(k.code, x.f) && Open(k.code, TrueJumps(x)) && NewOr(fs, x.f) && NewOr(fs, TrueJumps(x)) && Apart(TrueJumps(x), x.f)
            && Apart(fl, x.f) && Apart(fl, TrueJumps(x))
  {
    LandedShape(fs, h, x, reg);
    JpcApart(fs, h, x);
    assert [] + SkipList(h, x) == SkipList(h, x);
    hide Grows, OpenJump, TrueJumps, Ready;
  }

  lemma ReservedShape(fs: FS, g: FS, x: Exp)
    requires Shape(fs, g, x)
    ensures Reserve(g).(freereg := g.freereg) == g && Shape(fs, Reserve(g).(freereg := g.freereg), x)
  {
  }

  lemma NextShape(fs: FS, g: FS, x: Exp)
    requires Shape(fs, g, x)
    ensures var h := Reserve(FreeExp(g, x));
            h.(freereg := g.freereg) == g && Shape(fs, h.(freereg := g.freereg), x) && FreeExp(g, x) == FreeExp(g, Exp(x.kind, [], [])) && h.freereg >= 1
  {
    hide Shape;
  }

  lemma ShapeOf(fs: FS, g: FS, x: Exp)
    requires Shape(fs, g, x)
    ensures g.(freereg := g.freereg) == g && Shape(fs, g.(freereg := g.freereg), x)
    ensures Open(g.code, g.jpc) && NewOr(fs, g.jpc) && Confined(g.code) && NewOr(fs, [])
    ensures Apart(x.t, g.jpc) && Apart(x.f, g.jpc)
  {
    hide Refined, Confined, Open, KindOk;
  }

  lemma NothingApart(x: Exp)
    ensures Apart(x.t, []) && Apart(x.f, [])
  {
  }

  /** The last instruction taken back: all jumps are before it. */
  lemma ShrinkFacts(raw: seq<Raw>, e: ExpDesc, fs: FS, g: FS, x: Exp, raw0: seq<Raw>)
    requires Shape(fs, g, x) && x.kind.KReloc? && Views(raw, g.code) && Describes(raw, e, x) && Since(raw0, raw, fs)
    ensures raw != [] && |raw| == |g.code| && raw[|raw| - 1] == RI(g.code[|g.code| - 1]) && g.code[|g.code| - 1].Not? && g.jpc == []
    ensures var n := |raw| - 1;
            && Views(raw[..n], g.code[..n]) && Describes(raw[..n], e, x) && Since(raw0, raw[..n], fs) && Open(g.code[..n], [])
            && Apart(x.t, []) && Apart(x.f, []) && NewOr(fs, [])
  {
    var n: nat := |raw| - 1;
    assert Stands(raw, g.code, n);
    forall p | 0 <= p < n ensures Stands(raw[..n], g.code[..n], p) {
      assert Stands(raw, g.code, p);
    }
    OpenBefore(g.code, x.t, n);
    OpenBefore(g.code, x.f, n);
    hide Refined, Confined, Open, KindOk, ListOk;
    ChainPrefix(raw, e.t, x.t, n);
    ChainPrefix(raw, e.f, x.f, n);
    assert n >= |fs.code| by { RelocBehind(fs, g, x); }
  }

  lemma RelocBehind(fs: FS, g: FS, x: Exp)
    requires Shape(fs, g, x) && x.kind.KReloc?
    ensures |fs.code| <= |g.code| - 1 && g.jpc == [] && g.code[|g.code| - 1].Not?
  {
  }

  lemma OpenBefore(c: seq<Instr>, s: seq<nat>, n: nat)
    requires Open(c, s) && n + 1 == |c| && !c[n].Jmp?
    ensures forall j :: j in s ==> j < n
  {
    forall j | j in s ensures j < n {
      assert OpenJump(c, j);
    }
  }

  lemma ChainPrefix(raw: seq<Raw>, l: int, s: seq<nat>, n: nat)
    requires Chain(raw, l, s) && n <= |raw| && forall j :: j in s ==> j < n
    ensures Chain(raw[..n], l, s)
  {
    forall i | 0 <= i < |s| ensures Link(raw[..n], s, i) {
      assert Link(raw, s, i) && s[i] in s;
    }
  }

  lemma InAnyFacts(fs: FS, g: FS, x: Exp)
    requires Ready(fs) && Shape(fs, g, x) && !x.kind.KJmp?
    ensures var h := InAnyReg(g, x).0; Open(h.code, h.jpc) && Apart(x.t, h.jpc) && Apart(x.f, h.jpc) && NewOr(fs, h.jpc)
  {
    InAnyRegShape(fs, g, x);
    hide InAnyReg, Refined, Confined;
  }

  lemma FreeKeeps(h: FS, q: nat)
    ensures var h1 := FreeExp(h, Exp(KReg(q), [], [])); h1.code == h.code && h1.jpc == h.jpc
  {
  }

  lemma JmpFacts(fs: FS, g: FS, x: Exp)
    requires Shape(fs, g, x) && x.kind.KJmp?
    ensures 1 <= x.kind.pc < |g.code| && g.code[x.kind.pc - 1].Cmp? && g.code[x.kind.pc] == Jmp(None) && NewOr(fs, [])
  {
  }

  lemma StayFits(fs: FS, g: FS, x: Exp, s: seq<nat>, wait: seq<nat>)
    requires Shape(fs, g, x) && ((s == x.f && wait == x.t) || (s == x.t && wait == x.f))
    ensures GoFits(fs, g, s, [], wait)
  {
    assert s + [] == s;
    OpenUntargeted(g.code, s);
    hide Refined, Confined, OpenJump, KindOk;
  }

  lemma JumpFits(fs: FS, g: FS, x: Exp, s: seq<nat>, wait: seq<nat>)
    requires Shape(fs, g, x) && ((s == x.f && wait == x.t) || (s == x.t && wait == x.f))
    ensures GoFits(fs, JumpTo(g), s, JumpList(g), wait)
  {
    OpenUntargeted(g.code, s);
    hide Refined, Confined, OpenJump, KindOk;
  }

  lemma OwnFits(fs: FS, g: FS, x: Exp, s: seq<nat>, wait: seq<nat>)
    requires Shape(fs, g, x) && x.kind.KJmp? && ((s == x.f && wait == x.t) || (s == x.t && wait == x.f))
    ensures GoFits(fs, g, s, [x.kind.pc], wait)
  {
    assert g.jpc == [];
    OpenUntargeted(g.code, s);
    hide Refined, Confined, OpenJump, KindOk;
  }

  lemma CondFits(fs: FS, g: FS, x: Exp, cond: bool, s: seq<nat>, wait: seq<nat>)
    requires Ready(fs) && Shape(fs, g, x) && !x.kind.KJmp? && ((s == x.f && wait == x.t) || (s == x.t && wait == x.f))
    ensures var h := LuaCode.JumpOnCond(g, x, cond);
            h.code != [] && h.jpc == [] && GoFits(fs, h, s, [|h.code| - 1 as nat], wait) && h.jpc + wait == wait
  {
    JumpOnCondShape(fs, g, x, cond);
    var h := LuaCode.JumpOnCond(g, x, cond);
    OpenUntargeted(h.code, s);
    hide Refined, Confined, OpenJump, KindOk, LuaCode.JumpOnCond;
  }

  lemma DroppedKeeps(raw: seq<Raw>, now: seq<Raw>, e: ExpDesc, x: Exp, jpc: int, pending: seq<nat>, raw0: seq<Raw>, fs: FS)
    requires Describes(raw, e, x) && Kept(raw, now, []) && Chain(raw, jpc, pending) && Since(raw0, raw, fs)
    ensures Describes(now, e, x) && Chain(now, jpc, pending) && Since(raw0, now, fs)
  {
    ListsKept(raw, now, [], e, x);
    ChainKept(raw, now, [], jpc, pending);
    SinceKept(raw0, raw, now, fs, []);
  }

  lemma SinceSelf(raw: seq<Raw>, fs: FS, jpc: int)
    requires Views(raw, fs.code)
    ensures Since(raw, raw, fs)
  {
  }

  lemma SinceTrans(raw0: seq<Raw>, raw1: seq<Raw>, raw2: seq<Raw>, fs: FS, g: FS)
    requires Since(raw0, raw1, fs) && Since(raw1, raw2, g) && Grows(fs, g)
    ensures Since(raw0, raw2, fs)
  {
    KeptTrans(raw0, raw1, raw2, fs.jpc, g.jpc);
    hide Kept, Refined, Confined, Open;
  }

  lemma OperandPlain(h: FS, xa: Exp, h2: FS, xb: Exp)
    ensures LuaCode.Exp2RK(h, xa).1.t == [] && LuaCode.Exp2RK(h, xa).1.f == [] && LuaCode.Exp2RK(h2, xb).1.t == [] && LuaCode.Exp2RK(h2, xb).1.f == []
  {
    hide LuaCode.Exp2AnyReg;
  }

  lemma FreeSame(h: FS, x: Exp)
    ensures FreeExp(h, x) == FreeExp(h, Exp(x.kind, [], [])) && FreeExp(h, x).code == h.code && FreeExp(h, x).jpc == h.jpc
  {
  }

  lemma RelOpen(fs: FS, h1: FS, h3: FS)
    requires Ready(fs) && Grows(fs, h1) && Grows(h1, h3)
    ensures Open(h3.code, h3.jpc) && NewOr(fs, h3.jpc)
  {
    GrowsTrans(fs, h1, h3);
    hide Refined, Confined, Open;
  }

  lemma CompTest(op: RelOp, x: RK, y: RK)
    ensures IsTest(CompInstr(op, x, y))
  {
  }

  lemma OwnKept(raw: seq<Raw>, now: seq<Raw>, h: seq<nat>, x: Exp)
    requires Kept(raw, now, h) && (x.kind.KJmp? ==> Chain(raw, x.kind.pc, [x.kind.pc]) && x.kind.pc !in h)
    ensures x.kind.KJmp? ==> Chain(now, x.kind.pc, [x.kind.pc])
  {
    if x.kind.KJmp? {
      ChainKept(raw, now, h, x.kind.pc, [x.kind.pc]);
    }
  }

  /** The first operand's list while the second one is compiled, and the lists of that. */
  lemma AcrossFacts(fs: FS, g: FS, s: seq<nat>, k: FS, xb: Exp, raw0: seq<Raw>, raw1: seq<Raw>, raw2: seq<Raw>, l: int)
    requires Ready(fs) && GoShape(fs, g, s) && Shape(g, k, xb) && Since(raw0, raw1, fs) && Since(raw1, raw2, g) && Chain(raw1, l, s)
    ensures Chain(raw2, l, s) && Since(raw0, raw2, fs)
    ensures Apart(xb.f, s) && Apart(xb.t, s) && Open(k.code, xb.f) && Open(k.code, xb.t) && Apart(k.jpc, xb.f) && Apart(k.jpc, xb.t)
    ensures NewOr(fs, xb.f) && NewOr(fs, xb.t) && Apart(xb.t, xb.f) && Apart(xb.f, xb.t)
    ensures xb.kind.KJmp? ==> xb.kind.pc !in xb.t && xb.kind.pc !in xb.f
  {
    SinceTrans(raw0, raw1, raw2, fs, g);
    assert Apart(s, g.jpc) && Kept(raw1, raw2, g.jpc);
    hide Chain, Kept, Refined, Confined, OpenJump;
    ChainKept(raw1, raw2, g.jpc, l, s);
    ListBack(fs, g, k, xb.t, s);
    ListBack(fs, g, k, xb.f, s);
  }

  lemma EmitSize(h: FS, i: Instr)
    ensures |Emit(h, i).code| == |h.code| + 1
  {
  }
}
