/**
 Jump lists as the generator keeps them: each open jump holds the offset of the next
 one in its list, so that a list is one number.  Everything here is about the code
 as it is in memory and the code and lists it stands for.
 */
module LuaJumps {
  import opened Options
  import opened LuaVm
  import opened LuaCode
  import opened LuaLists

  /** An instruction in memory; a jump holds an offset from the next instruction. */
  datatype Raw = RJmp(sbx: int) | RI(i: Instr)

  /** The end of a list: a jump to itself. */
  const NO_JUMP := -1

  function Offset(p: nat, dest: int): int
  {
    dest - (p + 1)
  }

  /** The next jump in the list. */
  function GetJump(raw: seq<Raw>, p: nat): int
    requires p < |raw| && raw[p].RJmp?
  {
    if raw[p].sbx == NO_JUMP then NO_JUMP else p + 1 + raw[p].sbx
  }

  predicate Stands(raw: seq<Raw>, code: seq<Instr>, p: nat)
    requires p < |raw| && p < |code|
  {
    match code[p]
    case Jmp(Some(t)) => raw[p] == RJmp(Offset(p, t))
    case Jmp(None) => raw[p].RJmp?
    case i => raw[p] == RI(i)
  }

  /** The code that the code in memory stands for. */
  predicate Views(raw: seq<Raw>, code: seq<Instr>)
  {
    |raw| == |code| && forall p :: 0 <= p < |code| ==> Stands(raw, code, p)
  }

  predicate Link(raw: seq<Raw>, s: seq<nat>, i: nat)
    requires i < |s|
  {
    s[i] < |raw| && raw[s[i]].RJmp? && GetJump(raw, s[i]) == if i + 1 < |s| then s[i + 1] else NO_JUMP
  }

  /** A jump at p with offset d leads to p + 1 + d. */
  lemma OffsetsMean(raw: seq<Raw>, code: seq<Instr>, p: nat)
    requires Views(raw, code) && p < |code|
    ensures match code[p]
            case Jmp(Some(t)) => raw[p] == RJmp(t - p - 1)
            case Jmp(None) => raw[p].RJmp?
            case i => raw[p] == RI(i)
  {
    assert Stands(raw, code, p);
  }

  predicate Distinct(s: seq<nat>)
  {
    forall i, j :: 0 <= i < j < |s| ==> s[i] != s[j]
  }

  /** The list that starts at `l` holds the jumps `s`. */
  predicate Chain(raw: seq<Raw>, l: int, s: seq<nat>)
  {
    && l == (if s == [] then NO_JUMP else s[0]) && Distinct(s)
    && forall i :: 0 <= i < |s| ==> Link(raw, s, i)
  }

  /** A list is the number of its first jump, or -1; each jump holds the offset of the next one, the last one -1 or an offset that leads to -1. */
  lemma LinksMean(raw: seq<Raw>, l: int, s: seq<nat>, i: nat)
    requires Chain(raw, l, s)
    ensures l == if s == [] then -1 else s[0]
    ensures i < |s| ==> s[i] < |raw| && raw[s[i]].RJmp?
    ensures i + 1 < |s| ==> raw[s[i]].sbx == s[i + 1] as int - s[i] - 1
    ensures i + 1 == |s| ==> raw[s[i]].sbx == -1 || raw[s[i]].sbx == -1 - s[i] as int - 1
  {
    if i < |s| {
      assert Link(raw, s, i);
    }
  }

  /** Only jumps of `h` have changed; instructions may have been added. */
  predicate Kept(raw: seq<Raw>, now: seq<Raw>, h: seq<nat>)
  {
    |raw| <= |now| && forall p :: 0 <= p < |raw| && raw[p].RJmp? && p !in h ==> now[p] == raw[p]
  }

  lemma ChainKept(raw: seq<Raw>, now: seq<Raw>, h: seq<nat>, l: int, s: seq<nat>)
    requires Chain(raw, l, s) && Kept(raw, now, h) && Apart(s, h)
    ensures Chain(now, l, s)
  {
    forall i | 0 <= i < |s| ensures Link(now, s, i) {
      assert Link(raw, s, i) && s[i] in s;
    }
  }

  lemma KeptTrans(a: seq<Raw>, b: seq<Raw>, c: seq<Raw>, h: seq<nat>, h2: seq<nat>)
    requires Kept(a, b, h) && Kept(b, c, h2) && forall p :: p in h2 ==> p in h || p >= |a|
    ensures Kept(a, c, h)
  {
  }

  lemma KeptMore(a: seq<Raw>, b: seq<Raw>, h: seq<nat>, h2: seq<nat>)
    requires Kept(a, b, h) && forall p :: p in h ==> p in h2 || p >= |a|
    ensures Kept(a, b, h2)
  {
  }

  lemma ChainTail(raw: seq<Raw>, l: int, s: seq<nat>)
    requires Chain(raw, l, s) && s != []
    ensures 0 <= l < |raw| && raw[l].RJmp? && l == s[0] && Chain(raw, GetJump(raw, l), s[1..]) && s[0] !in s[1..]
  {
    assert Link(raw, s, 0);
    forall i | 0 <= i < |s[1..]| ensures Link(raw, s[1..], i) {
      assert Link(raw, s, i + 1);
    }
  }

  lemma ChainEmpty(raw: seq<Raw>, l: int, s: seq<nat>)
    requires Chain(raw, l, s)
    ensures l == NO_JUMP <==> s == []
  {
  }

  // ---------------------------------------------------------------- appending lists

  /** The last jump of the first list now leads to the second. */
  lemma ChainJoin(raw: seq<Raw>, l1: int, s1: seq<nat>, l2: int, s2: seq<nat>)
    requires Chain(raw, l1, s1) && Chain(raw, l2, s2) && Apart(s1, s2) && s1 != [] && s2 != []
    ensures var last := s1[|s1| - 1]; last < |raw| && Chain(raw[last := RJmp(Offset(last, l2))], l1, s1 + s2)
  {
    var last := s1[|s1| - 1];
    assert Link(raw, s1, |s1| - 1);
    var now, s := raw[last := RJmp(Offset(last, l2))], s1 + s2;
    assert last in s1 && s2[0] in s2 && last != s2[0];
    assert forall j :: 0 <= j < |s2| ==> s2[j] in s2;
    forall i | 0 <= i < |s| ensures Link(now, s, i) {
      if i < |s1| {
        assert Link(raw, s1, i);
      } else {
        assert Link(raw, s2, i - |s1|);
        assert s[i] == s2[i - |s1|] && s[i] in s2;
      }
    }
    assert forall i, j :: 0 <= i < |s1| && 0 <= j < |s2| ==> s1[i] in s1 && s1[i] != s2[j];
  }

  /** Jumps without a target. */
  predicate Untargeted(code: seq<Instr>, s: seq<nat>)
  {
    forall j :: j in s ==> j < |code| && code[j] == Jmp(None)
  }

  lemma OpenUntargeted(code: seq<Instr>, s: seq<nat>)
    requires Open(code, s)
    ensures Untargeted(code, s)
  {
    forall j | j in s ensures j < |code| && code[j] == Jmp(None) {
      assert OpenJump(code, j);
    }
  }

  lemma JoinKeeps(raw: seq<Raw>, code: seq<Instr>, s1: seq<nat>, last: nat, l2: int)
    requires Views(raw, code) && Untargeted(code, s1) && last in s1
    ensures last < |raw| && Views(raw[last := RJmp(Offset(last, l2))], code) && Kept(raw, raw[last := RJmp(Offset(last, l2))], s1)
  {
    var now := raw[last := RJmp(Offset(last, l2))];
    forall p | 0 <= p < |code| ensures Stands(now, code, p) {
      assert Stands(raw, code, p);
    }
  }

  // ---------------------------------------------------------------- patching one jump

  /** The test in front of a jump, settled if it keeps a value. */
  function RawSettled(raw: seq<Raw>, j: nat, reg: Option<nat>): (r: seq<Raw>)
    requires j < |raw|
    ensures |r| == |raw|
  {
    if RawSets(raw, j) then raw[j - 1 := RI(Settled(raw[j - 1].i, reg))] else raw
  }

  predicate RawSets(raw: seq<Raw>, j: nat)
    requires j < |raw|
  {
    j >= 1 && raw[j - 1].RI? && raw[j - 1].i.TestSet?
  }

  lemma SetsView(raw: seq<Raw>, code: seq<Instr>, j: nat)
    requires Views(raw, code) && j < |raw|
    ensures RawSets(raw, j) == TestsSet(code, j)
    ensures RawSets(raw, j) ==> raw[j - 1].i == code[j - 1]
  {
    if j >= 1 {
      assert Stands(raw, code, j - 1);
    }
  }

  /** One more jump of the list patched. */
  lemma PatchOne(raw: seq<Raw>, code: seq<Instr>, done: seq<nat>, j: nat, v: nat, reg: Option<nat>, d: nat)
    requires Views(raw, Patch(code, done, v, reg, d)) && Open(code, done) && OpenJump(code, j) && j !in done
    ensures j < |raw| && RawSets(raw, j) == TestsSet(code, j)
    ensures var dest := if TestsSet(code, j) then v else d;
            Views(RawSettled(raw, j, reg)[j := RJmp(Offset(j, dest))], Patch(code, done + [j], v, reg, d))
  {
    var c1, c2 := Patch(code, done, v, reg, d), Patch(code, done + [j], v, reg, d);
    SetsView(raw, c1, j);
    assert TestsSet(c1, j) == TestsSet(code, j) && (TestsSet(code, j) ==> c1[j - 1] == code[j - 1]) by {
      if j >= 1 {
        assert j - 1 in done ==> OpenJump(code, j - 1);
      }
    }
    var dest := if TestsSet(code, j) then v else d;
    var now := RawSettled(raw, j, reg)[j := RJmp(Offset(j, dest))];
    forall p | 0 <= p < |code| ensures Stands(now, c2, p) {
      assert Stands(raw, c1, p);
      assert p in done + [j] <==> p in done || p == j;
      assert p + 1 in done + [j] <==> p + 1 in done || p + 1 == j;
      assert p in done ==> OpenJump(code, p);
    }
  }

  lemma OneKeeps(raw: seq<Raw>, j: nat, reg: Option<nat>, r: Raw, s: seq<nat>)
    requires j < |raw| && j in s
    ensures Kept(raw, RawSettled(raw, j, reg)[j := r], s)
    ensures forall p :: 0 <= p < |raw| && raw[p].RJmp? && p != j ==> RawSettled(raw, j, reg)[j := r][p] == raw[p]
  {
  }

  /** A test in front of a jump gives up its value. */
  lemma RemoveOneValue(raw: seq<Raw>, code: seq<Instr>, done: seq<nat>, j: nat)
    requires Views(raw, RemoveValues(code, done)) && Open(code, done) && OpenJump(code, j) && j !in done
    ensures j < |raw| && Views(RawSettled(raw, j, None), RemoveValues(code, done + [j])) && Kept(raw, RawSettled(raw, j, None), [])
  {
    var c1, c2 := RemoveValues(code, done), RemoveValues(code, done + [j]);
    SetsView(raw, c1, j);
    assert TestsSet(c1, j) == TestsSet(code, j) && (TestsSet(code, j) ==> c1[j - 1] == code[j - 1]);
    var now := RawSettled(raw, j, None);
    forall p | 0 <= p < |code| ensures Stands(now, c2, p) {
      assert Stands(raw, c1, p);
      assert p + 1 in done + [j] <==> p + 1 in done || p + 1 == j;
    }
  }

  // ---------------------------------------------------------------- adding instructions

  lemma AddView(raw: seq<Raw>, code: seq<Instr>, i: Instr)
    requires Views(raw, code) && !i.Jmp?
    ensures Views(raw + [RI(i)], code + [i])
  {
    forall p | 0 <= p < |code| + 1 ensures Stands(raw + [RI(i)], code + [i], p) {
      if p < |code| {
        assert Stands(raw, code, p);
      }
    }
  }

  lemma AddJump(raw: seq<Raw>, code: seq<Instr>)
    requires Views(raw, code)
    ensures var now := raw + [RJmp(NO_JUMP)];
            Views(now, code + [Jmp(None)]) && Chain(now, |raw|, [|raw|]) && Kept(raw, now, [])
  {
    var now := raw + [RJmp(NO_JUMP)];
    forall p | 0 <= p < |now| ensures Stands(now, code + [Jmp(None)], p) {
      if p < |code| {
        assert Stands(raw, code, p);
      }
    }
    assert Link(now, [|raw|], 0);
  }

  /** A list of a single jump. */
  lemma ChainOne(raw: seq<Raw>, l: int, s: seq<nat>, j: nat)
    requires Chain(raw, l, s) && j in s
    ensures j < |raw| && raw[j].RJmp?
  {
    var i :| 0 <= i < |s| && s[i] == j;
    assert Link(raw, s, i);
  }

  lemma ViewAt(raw: seq<Raw>, code: seq<Instr>, p: nat)
    requires Views(raw, code) && p < |code| && !code[p].Jmp?
    ensures raw[p] == RI(code[p])
  {
    assert Stands(raw, code, p);
  }

  /** Changing an instruction that is no jump. */
  lemma ChangeView(raw: seq<Raw>, code: seq<Instr>, p: nat, i: Instr)
    requires Views(raw, code) && p < |code| && !code[p].Jmp? && !i.Jmp?
    ensures Views(raw[p := RI(i)], code[p := i]) && Kept(raw, raw[p := RI(i)], [])
  {
    var now, c2 := raw[p := RI(i)], code[p := i];
    forall q | 0 <= q < |code| ensures Stands(now, c2, q) {
      assert Stands(raw, code, q);
    }
    assert raw[p].RI? by { ViewAt(raw, code, p); }
  }
}
