/**
 Dumping through a writer that may refuse bytes, and loading from a stream that may
 hold anything.
 */
module LuaDump {
  import opened Options
  import opened Bytes
  import opened LuaChunk

  // ---------------------------------------------------------------- writing

  /**
   After a refusal nothing changes; otherwise all of `b` has been added, or the writer has refused part of
   it; and a writer that takes no more than `room` bytes refuses exactly what is too much.
   */
  ghost predicate Took(room: nat, out0: seq<byte>, status0: int, out: seq<byte>, status: int, b: seq<byte>)
  {
    && out0 <= out
    && (if status0 != 0 then out == out0 && status == status0
        else if status == 0 then out == out0 + b
        else out <= out0 + b)
    && (status0 == 0 && |out0| <= room ==> (status == 0 <==> |out0| + |b| <= room))
  }

  lemma TookBoth(room: nat, o0: seq<byte>, s0: int, o1: seq<byte>, s1: int, o2: seq<byte>, s2: int, a: seq<byte>, b: seq<byte>)
    requires Took(room, o0, s0, o1, s1, a) && Took(room, o1, s1, o2, s2, b)
    ensures Took(room, o0, s0, o2, s2, a + b)
  {
    assert o0 + (a + b) == o0 + a + b;
  }

  lemma TookNothing(room: nat, o: seq<byte>, s: int)
    ensures Took(room, o, s, o, s, [])
  {
    assert o + [] == o;
  }

  lemma PutAllNext<T>(put: T -> seq<byte>, xs: seq<T>, i: nat)
    requires i < |xs|
    ensures PutAll(put, xs[..i + 1]) == PutAll(put, xs[..i]) + put(xs[i])
  {
    assert xs[..i + 1] == xs[..i] + [xs[i]];
    PutAllConcat(put, xs[..i], [xs[i]]);
    assert PutAll(put, [xs[i]]) == put(xs[i]) + [] == put(xs[i]);
  }

  lemma {:induction false} PutAllConcat<T>(put: T -> seq<byte>, xs: seq<T>, ys: seq<T>)
    ensures PutAll(put, xs + ys) == PutAll(put, xs) + PutAll(put, ys)
  {
    if xs == [] {
      assert xs + ys == ys;
    } else {
      assert (xs + ys)[1..] == xs[1..] + ys;
      PutAllConcat(put, xs[1..], ys);
    }
  }

  /** Functions written so far, and the next one. */
  lemma {:induction false} PutFunctionsNext(fs: seq<Proto>, i: nat, parent: Option<Str>, strip: bool)
    requires i < |fs|
    ensures PutFunctions(fs[..i + 1], parent, strip) == PutFunctions(fs[..i], parent, strip) + PutFunction(fs[i], parent, strip)
    decreases i
  {
    hide PutFunction;
    if i == 0 {
      assert fs[..1] == [fs[0]] && fs[..0] == [];
      assert PutFunctions([fs[0]], parent, strip) == PutFunction(fs[0], parent, strip) + PutFunctions([], parent, strip);
    } else {
      PutFunctionsNext(fs[1..], i - 1, parent, strip);
      assert fs[..i + 1][1..] == fs[1..][..i] && fs[..i][1..] == fs[1..][..i - 1];
    }
  }

  /** Writes a chunk in order; once the writer has refused bytes, nothing more is written. */
  class DumpState {
    var out: seq<byte>
    var status: int
    const strip: bool
    const room: nat

    /** A writer that takes no more than `capacity` bytes. */
    constructor (stripDebug: bool, capacity: nat)
      ensures strip == stripDebug && room == capacity && out == [] && status == 0
    {
      strip, room, out, status := stripDebug, capacity, [], 0;
    }

    method DumpBlock(b: seq<byte>)
      modifies this
      ensures Took(room, old(out), old(status), out, status, b)
    {
      if status == 0 {
        if |out| + |b| <= room {
          out := out + b;
        } else {
          status := 1;
        }
      }
    }

    method DumpString(s: Option<Str>)
      modifies this
      ensures Took(room, old(out), old(status), out, status, PutString(s))
    {
      hide Took, PutSize;
      ghost var o0, s0 := out, status;
      match s {
        case None => DumpBlock(PutSize(0));
        case Some(t) =>
          DumpBlock(PutSize(|t| + 1));
          ghost var o1, s1 := out, status;
          DumpBlock(t + [0]);
          TookBoth(room, o0, s0, o1, s1, out, status, PutSize(|t| + 1), t + [0]);
          assert PutString(s) == PutSize(|t| + 1) + (t + [0]);
      }
    }

    /** A count, and the elements as one block. */
    method DumpInts(xs: seq<int>)
      modifies this
      ensures Took(room, old(out), old(status), out, status, PutVector(PutInt, xs))
    {
      hide Took, PutInt, PutAll;
      ghost var o0, s0 := out, status;
      DumpBlock(PutInt(|xs|));
      ghost var o1, s1 := out, status;
      DumpBlock(PutAll(PutInt, xs));
      TookBoth(room, o0, s0, o1, s1, out, status, PutInt(|xs|), PutAll(PutInt, xs));
    }

    method DumpConst(c: Const)
      modifies this
      ensures Took(room, old(out), old(status), out, status, PutConst(c))
    {
      hide Took, PutString;
      ghost var o0, s0 := out, status;
      match c {
        case Nil => DumpBlock([0]);
        case Boolean(b) =>
          DumpBlock([1]);
          ghost var o1, s1 := out, status;
          DumpBlock([if b then 1 else 0]);
          TookBoth(room, o0, s0, o1, s1, out, status, [1], [if b then 1 else 0]);
          assert PutConst(c) == [1] + [if b then 1 else 0];
        case Number(bits) =>
          DumpBlock([3]);
          ghost var o1, s1 := out, status;
          DumpBlock(bits);
          TookBoth(room, o0, s0, o1, s1, out, status, [3], bits);
        case String(s) =>
          DumpBlock([4]);
          ghost var o1, s1 := out, status;
          DumpString(s);
          TookBoth(room, o0, s0, o1, s1, out, status, [4], PutString(s));
      }
    }

    method DumpConsts(k: seq<Const>)
      modifies this
      ensures Took(room, old(out), old(status), out, status, PutVector(PutConst, k))
    {
      hide Took, PutInt, PutConst, PutAll;
      ghost var o0, s0 := out, status;
      DumpBlock(PutInt(|k|));
      ghost var o1, s1 := out, status;
      var i := 0;
      NothingYet(room, PutConst, k, o1, s1);
      while i < |k|
        invariant 0 <= i <= |k| && Took(room, o1, s1, out, status, PutAll(PutConst, k[..i]))
      {
        ghost var o2, s2 := out, status;
        DumpConst(k[i]);
        TookBoth(room, o1, s1, o2, s2, out, status, PutAll(PutConst, k[..i]), PutConst(k[i]));
        PutAllNext(PutConst, k, i);
        i := i + 1;
      }
      assert k[..i] == k;
      TookBoth(room, o0, s0, o1, s1, out, status, PutInt(|k|), PutAll(PutConst, k));
    }

    method DumpLocVar(v: LocVar)
      modifies this
      ensures Took(room, old(out), old(status), out, status, PutLocVar(v))
    {
      hide Took, PutString, PutInt;
      ghost var o0, s0 := out, status;
      DumpString(v.name);
      ghost var o1, s1 := out, status;
      DumpBlock(PutInt(v.startpc));
      TookBoth(room, o0, s0, o1, s1, out, status, PutString(v.name), PutInt(v.startpc));
      ghost var o2, s2 := out, status;
      DumpBlock(PutInt(v.endpc));
      TookBoth(room, o0, s0, o2, s2, out, status, PutString(v.name) + PutInt(v.startpc), PutInt(v.endpc));
    }

    method DumpLocVars(vs: seq<LocVar>)
      modifies this
      ensures Took(room, old(out), old(status), out, status, PutVector(PutLocVar, vs))
    {
      hide Took, PutInt, PutLocVar, PutAll;
      ghost var o0, s0 := out, status;
      DumpBlock(PutInt(|vs|));
      ghost var o1, s1 := out, status;
      var i := 0;
      NothingYet(room, PutLocVar, vs, o1, s1);
      while i < |vs|
        invariant 0 <= i <= |vs| && Took(room, o1, s1, out, status, PutAll(PutLocVar, vs[..i]))
      {
        ghost var o2, s2 := out, status;
        DumpLocVar(vs[i]);
        TookBoth(room, o1, s1, o2, s2, out, status, PutAll(PutLocVar, vs[..i]), PutLocVar(vs[i]));
        PutAllNext(PutLocVar, vs, i);
        i := i + 1;
      }
      assert vs[..i] == vs;
      TookBoth(room, o0, s0, o1, s1, out, status, PutInt(|vs|), PutAll(PutLocVar, vs));
    }

    method DumpUpvalues(us: seq<Option<Str>>)
      modifies this
      ensures Took(room, old(out), old(status), out, status, PutVector(PutString, us))
    {
      hide Took, PutInt, PutString, PutAll;
      ghost var o0, s0 := out, status;
      DumpBlock(PutInt(|us|));
      ghost var o1, s1 := out, status;
      var i := 0;
      NothingYet(room, PutString, us, o1, s1);
      while i < |us|
        invariant 0 <= i <= |us| && Took(room, o1, s1, out, status, PutAll(PutString, us[..i]))
      {
        ghost var o2, s2 := out, status;
        DumpString(us[i]);
        TookBoth(room, o1, s1, o2, s2, out, status, PutAll(PutString, us[..i]), PutString(us[i]));
        PutAllNext(PutString, us, i);
        i := i + 1;
      }
      assert us[..i] == us;
      TookBoth(room, o0, s0, o1, s1, out, status, PutInt(|us|), PutAll(PutString, us));
    }

    method DumpDebug(d: Debug)
      modifies this
      ensures Took(room, old(out), old(status), out, status, PutDebug(if strip then NO_DEBUG else d))
    {
      hide Took, PutVector;
      var shown := if strip then NO_DEBUG else d;
      ghost var o0, s0 := out, status;
      DumpInts(shown.lineinfo);
      ghost var o1, s1 := out, status;
      DumpLocVars(shown.locvars);
      TookBoth(room, o0, s0, o1, s1, out, status, PutVector(PutInt, shown.lineinfo), PutVector(PutLocVar, shown.locvars));
      ghost var o2, s2 := out, status;
      DumpUpvalues(shown.upvalues);
      TookBoth(room, o0, s0, o2, s2, out, status, PutVector(PutInt, shown.lineinfo) + PutVector(PutLocVar, shown.locvars), PutVector(PutString, shown.upvalues));
    }

    method DumpFront(f: Front, source: Option<Str>)
      modifies this
      ensures Took(room, old(out), old(status), out, status, PutFront(f, source))
    {
      hide Took, PutVector, PutString, PutInt;
      ghost var o0, s0 := out, status;
      DumpString(source);
      ghost var o1, s1 := out, status;
      DumpBlock(PutInt(f.linedefined));
      TookBoth(room, o0, s0, o1, s1, out, status, PutString(source), PutInt(f.linedefined));
      ghost var b1 := PutString(source) + PutInt(f.linedefined);
      ghost var o2, s2 := out, status;
      DumpBlock(PutInt(f.lastlinedefined));
      TookBoth(room, o0, s0, o2, s2, out, status, b1, PutInt(f.lastlinedefined));
      ghost var b2 := b1 + PutInt(f.lastlinedefined);
      ghost var o3, s3 := out, status;
      DumpFour(f.nups, f.numparams, f.isVararg, f.maxstacksize);
      TookBoth(room, o0, s0, o3, s3, out, status, b2, [f.nups, f.numparams, f.isVararg, f.maxstacksize]);
      ghost var b3 := b2 + [f.nups, f.numparams, f.isVararg, f.maxstacksize];
      ghost var o4, s4 := out, status;
      DumpInts(f.code);
      TookBoth(room, o0, s0, o4, s4, out, status, b3, PutVector(PutInt, f.code));
      ghost var b4 := b3 + PutVector(PutInt, f.code);
      ghost var o5, s5 := out, status;
      DumpConsts(f.k);
      TookBoth(room, o0, s0, o5, s5, out, status, b4, PutVector(PutConst, f.k));
    }

    method DumpFour(a: byte, b: byte, c: byte, d: byte)
      modifies this
      ensures Took(room, old(out), old(status), out, status, [a, b, c, d])
    {
      hide Took;
      ghost var o0, s0 := out, status;
      DumpBlock([a]);
      ghost var o1, s1 := out, status;
      DumpBlock([b]);
      TookBoth(room, o0, s0, o1, s1, out, status, [a], [b]);
      ghost var o2, s2 := out, status;
      DumpBlock([c]);
      TookBoth(room, o0, s0, o2, s2, out, status, [a] + [b], [c]);
      ghost var o3, s3 := out, status;
      DumpBlock([d]);
      TookBoth(room, o0, s0, o3, s3, out, status, [a] + [b] + [c], [d]);
      assert [a, b, c, d] == [a] + [b] + [c] + [d];
    }

    method DumpFunction(f: Proto, parent: Option<Str>)
      modifies this
      ensures Took(room, old(out), old(status), out, status, PutFunction(f, parent, strip))
      decreases f
    {
      hide Took, PutFront, PutInt, PutDebug, PutFunctions;
      ghost var o0, s0 := out, status;
      var shown := Shown(f, parent, strip);
      DumpFront(f.front, shown);
      ghost var o1, s1 := out, status;
      DumpBlock(PutInt(|f.p|));
      TookBoth(room, o0, s0, o1, s1, out, status, PutFront(f.front, shown), PutInt(|f.p|));
      ghost var b1 := PutFront(f.front, shown) + PutInt(|f.p|);
      ghost var o2, s2 := out, status;
      var i := 0;
      NoFunctionsYet(room, f.p, f.front.source, strip, o2, s2);
      while i < |f.p|
        invariant 0 <= i <= |f.p| && Took(room, o2, s2, out, status, PutFunctions(f.p[..i], f.front.source, strip))
      {
        hide PutFunction;
        ghost var o3, s3 := out, status;
        DumpFunction(f.p[i], f.front.source);
        TookBoth(room, o2, s2, o3, s3, out, status, PutFunctions(f.p[..i], f.front.source, strip), PutFunction(f.p[i], f.front.source, strip));
        PutFunctionsNext(f.p, i, f.front.source, strip);
        i := i + 1;
      }
      assert f.p[..i] == f.p;
      ghost var b2 := PutFunctions(f.p, f.front.source, strip);
      TookBoth(room, o0, s0, o2, s2, out, status, b1, b2);
      ghost var o4, s4 := out, status;
      DumpDebug(f.debug);
      TookBoth(room, o0, s0, o4, s4, out, status, b1 + b2, PutDebug(if strip then NO_DEBUG else f.debug));
    }

    /** The chunk, if the writer takes it all, as it does when there is room; otherwise the status says so. */
    method DumpChunk(f: Proto) returns (r: int)
      requires out == [] && status == 0
      modifies this
      ensures r == status && out <= Dump(f, strip) && (r == 0 ==> out == Dump(f, strip)) && (r == 0 <==> |Dump(f, strip)| <= room)
      ensures r == 0 ==> |out| >= 20 && out[..12] == [0x1B, 0x4C, 0x75, 0x61, 0x51, 0, 1, 4, 8, 4, 8, 0]
    {
      DumpBegins(f, strip);
      DumpBlock(HEADER);
      ghost var o1, s1 := out, status;
      DumpFunction(f, None);
      TookBoth(room, [], 0, o1, s1, out, status, HEADER, PutFunction(f, None, strip));
      hide PutFunction;
      assert [] + (HEADER + PutFunction(f, None, strip)) == HEADER + PutFunction(f, None, strip);
      r := status;
    }
  }

  lemma NothingYet<T>(room: nat, put: T -> seq<byte>, xs: seq<T>, o: seq<byte>, s: int)
    ensures Took(room, o, s, o, s, PutAll(put, xs[..0]))
  {
    TookNothing(room, o, s);
  }

  lemma NoFunctionsYet(room: nat, fs: seq<Proto>, parent: Option<Str>, strip: bool, o: seq<byte>, s: int)
    ensures Took(room, o, s, o, s, PutFunctions(fs[..0], parent, strip))
  {
    TookNothing(room, o, s);
  }
}
