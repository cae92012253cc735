/**
 Loading a chunk: the stream is consumed in order and may end or go wrong anywhere.
 */
module LuaLoad {
  import opened Options
  import opened Bytes
  import opened LuaChunk
  import LuaDump

  /** A value, or the error that loading is abandoned with. */
  datatype Outcome<+T> = Got(value: T) | Failed(e: Error)

  /** The stream and the outcome are what reading gives. */
  ghost predicate Gives<T>(res: Res<T>, r: Outcome<T>, z: seq<byte>)
  {
    match res case Ok(v, rest) => r == Got(v) && z == rest case Err(e) => r == Failed(e)
  }

  /** Some elements have been read, and the rest is still to come. */
  ghost predicate Pending<T>(get: seq<byte> -> Res<T>, n: nat, z0: seq<byte>, xs: seq<T>, left: nat, z: seq<byte>)
  {
    GetAll(get, n, z0) ==
      match GetAll(get, left, z) case Err(e) => Err(e) case Ok(ys, r) => Ok(xs + ys, r)
  }

  lemma PendingStart<T>(get: seq<byte> -> Res<T>, n: nat, z: seq<byte>)
    ensures Pending(get, n, z, [], n, z)
  {
    match GetAll(get, n, z) {
      case Err(_) =>
      case Ok(ys, r) => assert [] + ys == ys;
    }
  }

  lemma PendingNext<T>(get: seq<byte> -> Res<T>, n: nat, z0: seq<byte>, xs: seq<T>, left: nat, z: seq<byte>)
    requires Pending(get, n, z0, xs, left, z) && left > 0
    ensures match get(z)
            case Err(e) => GetAll(get, n, z0) == Err(e)
            case Ok(x, r) => Pending(get, n, z0, xs + [x], left - 1, r)
  {
    match get(z) {
      case Err(_) =>
      case Ok(x, r) =>
        match GetAll(get, left - 1, r) {
          case Err(_) =>
          case Ok(ys, r2) => assert xs + ([x] + ys) == xs + [x] + ys;
        }
    }
  }

  lemma PendingDone<T>(get: seq<byte> -> Res<T>, n: nat, z0: seq<byte>, xs: seq<T>, z: seq<byte>)
    requires Pending(get, n, z0, xs, 0, z)
    ensures GetAll(get, n, z0) == Ok(xs, z)
  {
    assert xs + [] == xs;
  }

  /** The same for functions. */
  ghost predicate PendingFunctions(n: nat, z0: seq<byte>, parent: Str, left: nat, check: Check, fs: seq<Proto>, k: nat, z: seq<byte>)
  {
    GetFunctions(n, z0, parent, left, check) ==
      match GetFunctions(k, z, parent, left, check) case Err(e) => Err(e) case Ok(gs, r) => Ok(fs + gs, r)
  }

  lemma FunctionsStart(n: nat, z: seq<byte>, parent: Str, left: nat, check: Check)
    ensures PendingFunctions(n, z, parent, left, check, [], n, z)
  {
    match GetFunctions(n, z, parent, left, check) {
      case Err(_) =>
      case Ok(gs, r) => assert [] + gs == gs;
    }
  }

  lemma FunctionsNext(n: nat, z0: seq<byte>, parent: Str, left: nat, check: Check, fs: seq<Proto>, k: nat, z: seq<byte>)
    requires PendingFunctions(n, z0, parent, left, check, fs, k, z) && k > 0
    ensures match GetFunction(z, parent, left, check)
            case Err(e) => GetFunctions(n, z0, parent, left, check) == Err(e)
            case Ok(f, r) => PendingFunctions(n, z0, parent, left, check, fs + [f], k - 1, r)
  {
    hide GetFunction;
    match GetFunction(z, parent, left, check) {
      case Err(_) =>
      case Ok(f, r) =>
        match GetFunctions(k - 1, r, parent, left, check) {
          case Err(_) =>
          case Ok(gs, r2) => assert fs + ([f] + gs) == fs + [f] + gs;
        }
    }
  }

  lemma FunctionsDone(n: nat, z0: seq<byte>, parent: Str, left: nat, check: Check, fs: seq<Proto>, z: seq<byte>)
    requires PendingFunctions(n, z0, parent, left, check, fs, 0, z)
    ensures GetFunctions(n, z0, parent, left, check) == Ok(fs, z)
  {
    assert fs + [] == fs;
  }

  /** Integers read one by one from a block are the integers read from the stream. */
  lemma {:induction false} IntsAreBlock(n: nat, z: seq<byte>)
    ensures 4 * n > |z| ==> GetAll(GetRawInt, n, z) == Err(UnexpectedEnd)
    ensures 4 * n <= |z| ==> GetAll(GetRawInt, n, z).Ok? && GetAll(GetRawInt, n, z).rest == z[4 * n..]
    ensures 4 * n <= |z| ==> |GetAll(GetRawInt, n, z).value| == n
    ensures 4 * n <= |z| ==> forall i :: 0 <= i < n ==> GetAll(GetRawInt, n, z).value[i] == Signed(Big(z[4 * i..4 * i + 4]))
    decreases n
  {
    hide Big, Signed;
    if n > 0 && |z| >= 4 {
      IntsAreBlock(n - 1, z[4..]);
      if 4 * n <= |z| {
        assert z[4..][4 * (n - 1)..] == z[4 * n..];
        forall i | 1 <= i < n ensures z[4..][4 * (i - 1)..4 * (i - 1) + 4] == z[4 * i..4 * i + 4] {
        }
        assert z[0..4] == z[..4];
      }
    }
  }

  class LoadState {
    var z: seq<byte>
    var nCcalls: nat
    const check: Check

    constructor (stream: seq<byte>, depth: nat, checker: Check)
      ensures z == stream && nCcalls == depth && check == checker
    {
      z, nCcalls, check := stream, depth, checker;
    }

    method LoadBlock(size: nat) returns (r: Outcome<seq<byte>>)
      modifies this`z
      ensures Gives(Block(size, old(z)), r, z)
    {
      if size > |z| {
        return Failed(UnexpectedEnd);
      }
      r := Got(z[..size]);
      z := z[size..];
    }

    method LoadByte() returns (r: Outcome<byte>)
      modifies this`z
      ensures Gives(GetByte(old(z)), r, z)
    {
      if z == [] {
        return Failed(UnexpectedEnd);
      }
      r := Got(z[0]);
      z := z[1..];
    }

    method LoadInt() returns (r: Outcome<int>)
      modifies this`z
      ensures Gives(GetInt(old(z)), r, z)
    {
      hide Big, Signed;
      var b := LoadBlock(4);
      if b.Failed? {
        return Failed(b.e);
      }
      var x := Signed(Big(b.value));
      if x < 0 {
        return Failed(BadInteger);
      }
      r := Got(x);
    }

    method LoadString() returns (r: Outcome<Option<Str>>)
      modifies this`z
      ensures Gives(GetString(old(z)), r, z)
    {
      hide Big;
      var b := LoadBlock(8);
      if b.Failed? {
        return Failed(b.e);
      }
      var size := Big(b.value);
      if size == 0 {
        return Got(None);
      }
      var t := LoadBlock(size);
      if t.Failed? {
        return Failed(t.e);
      }
      r := Got(Some(t.value[..size - 1]));
    }

    /** A count, and a block of integers. */
    method LoadInts() returns (r: Outcome<seq<int>>)
      modifies this`z
      ensures Gives(GetVector(GetRawInt, old(z)), r, z)
    {
      hide GetInt, GetAll, Big, Signed;
      var n := LoadInt();
      if n.Failed? {
        return Failed(n.e);
      }
      ghost var z1 := z;
      CountNatural(old(z));
      IntsAreBlock(n.value, z1);
      var b := LoadBlock(4 * n.value);
      if b.Failed? {
        return Failed(b.e);
      }
      var xs, i := [], 0;
      while i < n.value
        invariant 0 <= i <= n.value && |xs| == i && forall j :: 0 <= j < i ==> xs[j] == Signed(Big(z1[4 * j..4 * j + 4]))
      {
        assert b.value[4 * i..4 * i + 4] == z1[4 * i..4 * i + 4];
        xs := xs + [Signed(Big(b.value[4 * i..4 * i + 4]))];
        i := i + 1;
      }
      assert xs == GetAll(GetRawInt, n.value, z1).value;
      r := Got(xs);
    }

    method LoadConst() returns (r: Outcome<Const>)
      modifies this`z
      ensures Gives(GetConst(old(z)), r, z)
    {
      hide GetString;
      var t := LoadByte();
      if t.Failed? {
        return Failed(t.e);
      }
      if t.value == 0 {
        r := Got(Nil);
      } else if t.value == 1 {
        var b := LoadByte();
        r := if b.Failed? then Failed(b.e) else Got(Boolean(b.value != 0));
      } else if t.value == 3 {
        var b := LoadBlock(8);
        r := if b.Failed? then Failed(b.e) else Got(Number(b.value));
      } else if t.value == 4 {
        var s := LoadString();
        r := if s.Failed? then Failed(s.e) else Got(String(s.value));
      } else {
        r := Failed(BadConstant);
      }
    }

    method LoadConsts() returns (r: Outcome<seq<Const>>)
      modifies this`z
      ensures Gives(GetVector(GetConst, old(z)), r, z)
    {
      hide GetInt, GetAll, GetConst, Pending;
      var n := LoadInt();
      if n.Failed? {
        return Failed(n.e);
      }
      CountNatural(old(z));
      ghost var z1 := z;
      var xs, i := [], 0;
      PendingStart(GetConst, n.value, z1);
      while i < n.value
        invariant 0 <= i <= n.value && Pending(GetConst, n.value, z1, xs, n.value - i, z)
      {
        PendingNext(GetConst, n.value, z1, xs, n.value - i, z);
        var c := LoadConst();
        if c.Failed? {
          return Failed(c.e);
        }
        xs := xs + [c.value];
        i := i + 1;
      }
      PendingDone(GetConst, n.value, z1, xs, z);
      r := Got(xs);
    }

    method LoadLocVar() returns (r: Outcome<LocVar>)
      modifies this`z
      ensures Gives(GetLocVar(old(z)), r, z)
    {
      hide GetString, GetInt;
      var s := LoadString();
      if s.Failed? {
        return Failed(s.e);
      }
      var a := LoadInt();
      if a.Failed? {
        return Failed(a.e);
      }
      var b := LoadInt();
      r := if b.Failed? then Failed(b.e) else Got(LocVar(s.value, a.value, b.value));
    }

    method LoadLocVars() returns (r: Outcome<seq<LocVar>>)
      modifies this`z
      ensures Gives(GetVector(GetLocVar, old(z)), r, z)
    {
      hide GetInt, GetAll, GetLocVar, Pending;
      var n := LoadInt();
      if n.Failed? {
        return Failed(n.e);
      }
      CountNatural(old(z));
      ghost var z1 := z;
      var xs, i := [], 0;
      PendingStart(GetLocVar, n.value, z1);
      while i < n.value
        invariant 0 <= i <= n.value && Pending(GetLocVar, n.value, z1, xs, n.value - i, z)
      {
        PendingNext(GetLocVar, n.value, z1, xs, n.value - i, z);
        var v := LoadLocVar();
        if v.Failed? {
          return Failed(v.e);
        }
        xs := xs + [v.value];
        i := i + 1;
      }
      PendingDone(GetLocVar, n.value, z1, xs, z);
      r := Got(xs);
    }

    method LoadUpvalues() returns (r: Outcome<seq<Option<Str>>>)
      modifies this`z
      ensures Gives(GetVector(GetString, old(z)), r, z)
    {
      hide GetInt, GetAll, GetString, Pending;
      var n := LoadInt();
      if n.Failed? {
        return Failed(n.e);
      }
      CountNatural(old(z));
      ghost var z1 := z;
      var xs, i := [], 0;
      PendingStart(GetString, n.value, z1);
      while i < n.value
        invariant 0 <= i <= n.value && Pending(GetString, n.value, z1, xs, n.value - i, z)
      {
        PendingNext(GetString, n.value, z1, xs, n.value - i, z);
        var s := LoadString();
        if s.Failed? {
          return Failed(s.e);
        }
        xs := xs + [s.value];
        i := i + 1;
      }
      PendingDone(GetString, n.value, z1, xs, z);
      r := Got(xs);
    }

    method LoadDebug() returns (r: Outcome<Debug>)
      modifies this`z
      ensures Gives(GetDebug(old(z)), r, z)
    {
      hide GetVector;
      var l := LoadInts();
      if l.Failed? {
        return Failed(l.e);
      }
      var v := LoadLocVars();
      if v.Failed? {
        return Failed(v.e);
      }
      var u := LoadUpvalues();
      r := if u.Failed? then Failed(u.e) else Got(Debug(l.value, v.value, u.value));
    }

    method LoadFixed() returns (r: Outcome<Fixed>)
      modifies this`z
      ensures Gives(GetFixed(old(z)), r, z) && (r.Got? ==> |r.value.bytes| == 4)
    {
      hide GetString, GetInt;
      var s := LoadString();
      if s.Failed? {
        return Failed(s.e);
      }
      var a := LoadInt();
      if a.Failed? {
        return Failed(a.e);
      }
      var b := LoadInt();
      if b.Failed? {
        return Failed(b.e);
      }
      var t := LoadBlock(4);
      r := if t.Failed? then Failed(t.e) else Got(Fixed(s.value, a.value, b.value, t.value));
    }

    method LoadFront() returns (r: Outcome<Front>)
      modifies this`z
      ensures Gives(GetFront(old(z)), r, z)
    {
      hide GetFixed, GetVector;
      var x := LoadFixed();
      if x.Failed? {
        return Failed(x.e);
      }
      var code := LoadInts();
      if code.Failed? {
        return Failed(code.e);
      }
      var k := LoadConsts();
      if k.Failed? {
        return Failed(k.e);
      }
      var b := x.value.bytes;
      r := Got(Front(x.value.source, x.value.linedefined, x.value.lastlinedefined, b[0], b[1], b[2], b[3], code.value, k.value));
    }

    /** A function and all those inside it; calls may not be nested too deeply. */
    method LoadFunction(parent: Str) returns (r: Outcome<Proto>)
      requires nCcalls <= MAX_C_CALLS
      modifies this`z, this`nCcalls
      ensures Gives(GetFunction(old(z), parent, MAX_C_CALLS - old(nCcalls), check), r, z)
      ensures r.Got? ==> nCcalls == old(nCcalls)
      decreases MAX_C_CALLS - nCcalls
    {
      hide GetFront, GetInt, GetDebug, GetFunctions, PendingFunctions;
      if nCcalls == MAX_C_CALLS {
        return Failed(CodeTooDeep);
      }
      nCcalls := nCcalls + 1;
      var front := LoadFront();
      if front.Failed? {
        return Failed(front.e);
      }
      var source := if front.value.source.Some? then front.value.source.value else parent;
      ghost var z1 := z;
      var n := LoadInt();
      if n.Failed? {
        return Failed(n.e);
      }
      CountNatural(z1);
      var fs, i := [], 0;
      ghost var z2, left := z, MAX_C_CALLS - nCcalls;
      FunctionsStart(n.value, z2, source, left, check);
      while i < n.value
        invariant 0 <= i <= n.value && nCcalls == old(nCcalls) + 1 && PendingFunctions(n.value, z2, source, left, check, fs, n.value - i, z)
      {
        hide GetFunction;
        FunctionsNext(n.value, z2, source, left, check, fs, n.value - i, z);
        var f := LoadFunction(source);
        if f.Failed? {
          FailsWhole(old(z), parent, left + 1, check, front.value, z1, n.value, z2, f.e);
          return Failed(f.e);
        }
        fs := fs + [f.value];
        i := i + 1;
      }
      FunctionsDone(n.value, z2, source, left, check, fs, z);
      var debug := LoadDebug();
      if debug.Failed? {
        return Failed(debug.e);
      }
      var g := Proto(front.value.(source := Some(source)), fs, debug.value);
      if !check(g) {
        return Failed(BadCode);
      }
      nCcalls := nCcalls - 1;
      r := Got(g);
    }

    /** A whole chunk. */
    method LoadChunk() returns (r: Outcome<Proto>)
      requires nCcalls <= MAX_C_CALLS
      modifies this`z, this`nCcalls
      ensures Gives(Undump(old(z), old(nCcalls), check), r, z)
    {
      hide GetFunction;
      var h := LoadBlock(12);
      if h.Failed? {
        return Failed(h.e);
      }
      if h.value != HEADER {
        return Failed(BadHeader);
      }
      r := LoadFunction(NO_NAME);
    }
  }

  lemma CountNatural(z: seq<byte>)
    ensures GetInt(z).Ok? ==> GetInt(z).value >= 0
  {
  }

  /** An error in a function inside is an error of the whole. */
  lemma FailsWhole(z: seq<byte>, parent: Str, left: nat, check: Check, front: Front, z1: seq<byte>, n: nat, z2: seq<byte>, e: Error)
    requires left > 0 && GetFront(z) == Ok(front, z1) && GetInt(z1) == Ok(n, z2)
    requires GetFunctions(n, z2, if front.source.Some? then front.source.value else parent, left - 1, check) == Err(e)
    ensures GetFunction(z, parent, left, check) == Err(e)
  {
    hide GetFront, GetInt, GetFunctions;
  }

  /** Dumping and loading: what the loader makes of what the dumper wrote, with anything behind it, if the writer took it all. */
  method DumpThenLoad(f: Proto, capacity: nat, rest: seq<byte>, depth: nat, check: Check) returns (status: int, r: Outcome<Proto>, left: seq<byte>)
    requires Fits(f) && depth + Depth(f) <= MAX_C_CALLS && Accepted(Named(f, NO_NAME, false), check)
    ensures status == 0 <==> |Dump(f, false)| <= capacity
    ensures status == 0 ==> r == Got(Named(f, NO_NAME, false)) && left == rest
    ensures status == 0 ==> (r == Got(f) <==> HasNames(f))
  {
    hide *;
    var d := new LuaDump.DumpState(false, capacity);
    status := d.DumpChunk(f);
    if status != 0 {
      return status, Failed(UnexpectedEnd), [];
    }
    DumpUndone(f, false, depth, check, rest);
    NamedSame(f, NO_NAME);
    var s := new LoadState(d.out + rest, depth, check);
    r := s.LoadChunk();
    left := s.z;
    GivesIs(Undump(Dump(f, false) + rest, depth, check), r, left);
  }

  lemma GivesIs(res: Res<Proto>, r: Outcome<Proto>, z: seq<byte>)
    requires Gives(res, r, z)
    ensures res.Ok? ==> r == Got(res.value) && z == res.rest
  {
  }
}
