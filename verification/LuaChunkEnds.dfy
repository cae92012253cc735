/**
 Chunks that break off: what reading finds in bytes does not change when more follow, unless it
 ran out of them; so no proper prefix of a dump loads.
 */
module LuaChunkEnds {
  import opened Options
  import opened Bytes
  import opened LuaChunk

  /** What is found in the bytes is found in them with `y` behind, unless they end too early. */
  ghost predicate Stays<T(!new)>(a: Res<T>, b: Res<T>, y: seq<byte>)
  {
    match a
    case Ok(x, r) => b == Ok(x, r + y)
    case Err(e) => e == UnexpectedEnd || b == Err(e)
  }

  /** Reading does so whatever it reads. */
  ghost predicate Steady<T(!new)>(get: seq<byte> -> Res<T>)
  {
    forall z: seq<byte>, y: seq<byte> :: Stays(get(z), get(z + y), y)
  }

  lemma BlockStays(n: nat, z: seq<byte>, y: seq<byte>)
    ensures Stays(Block(n, z), Block(n, z + y), y)
  {
    if n <= |z| {
      assert (z + y)[..n] == z[..n] && (z + y)[n..] == z[n..] + y;
    }
  }

  lemma ByteStays(z: seq<byte>, y: seq<byte>)
    ensures Stays(GetByte(z), GetByte(z + y), y)
  {
    if z != [] {
      assert (z + y)[1..] == z[1..] + y;
    }
  }

  lemma RawIntSteady()
    ensures Steady(GetRawInt)
  {
    forall z: seq<byte>, y: seq<byte> ensures Stays(GetRawInt(z), GetRawInt(z + y), y) {
      BlockStays(4, z, y);
    }
    hide Block, Big;
  }

  lemma IntStays(z: seq<byte>, y: seq<byte>)
    ensures Stays(GetInt(z), GetInt(z + y), y)
  {
    RawIntSteady();
    assert Stays(GetRawInt(z), GetRawInt(z + y), y);
    hide GetRawInt;
  }

  lemma StringSteady()
    ensures Steady(GetString)
  {
    forall z: seq<byte>, y: seq<byte> ensures Stays(GetString(z), GetString(z + y), y) {
      BlockStays(8, z, y);
      if Block(8, z).Ok? {
        BlockStays(Big(Block(8, z).value), Block(8, z).rest, y);
      }
      hide Block, Big;
    }
  }

  lemma ConstStays(z: seq<byte>, y: seq<byte>)
    ensures Stays(GetConst(z), GetConst(z + y), y)
  {
    ByteStays(z, y);
    hide GetByte, Block, GetString;
    if GetByte(z).Ok? {
      var t, r := GetByte(z).value, GetByte(z).rest;
      if t == 1 {
        ByteStays(r, y);
      } else if t == 3 {
        BlockStays(8, r, y);
      } else if t == 4 {
        StringStays(r, y);
      }
    }
  }

  lemma StringStays(z: seq<byte>, y: seq<byte>)
    ensures Stays(GetString(z), GetString(z + y), y)
  {
    StringSteady();
    hide GetString, Stays;
  }

  lemma ConstSteady()
    ensures Steady(GetConst)
  {
    forall z: seq<byte>, y: seq<byte> ensures Stays(GetConst(z), GetConst(z + y), y) {
      ConstStays(z, y);
    }
    hide GetConst, Stays;
  }

  lemma LocVarSteady()
    ensures Steady(GetLocVar)
  {
    StringSteady();
    forall z: seq<byte>, y: seq<byte> ensures Stays(GetLocVar(z), GetLocVar(z + y), y) {
      hide GetString, GetInt;
      assert Stays(GetString(z), GetString(z + y), y);
      if GetString(z).Ok? {
        var r := GetString(z).rest;
        IntStays(r, y);
        if GetInt(r).Ok? {
          IntStays(GetInt(r).rest, y);
        }
      }
    }
  }

  lemma {:induction false} AllStays<T(!new)>(get: seq<byte> -> Res<T>, n: nat, z: seq<byte>, y: seq<byte>)
    requires Steady(get)
    ensures Stays(GetAll(get, n, z), GetAll(get, n, z + y), y)
  {
    if n > 0 {
      assert Stays(get(z), get(z + y), y);
      if get(z).Ok? {
        AllStays(get, n - 1, get(z).rest, y);
      }
    }
  }

  lemma VectorStays<T(!new)>(get: seq<byte> -> Res<T>, z: seq<byte>, y: seq<byte>)
    requires Steady(get)
    ensures Stays(GetVector(get, z), GetVector(get, z + y), y)
  {
    IntStays(z, y);
    if GetInt(z).Ok? && GetInt(z).value >= 0 {
      AllStays(get, GetInt(z).value, GetInt(z).rest, y);
    }
    hide GetInt, GetAll;
  }

  lemma FixedStays(z: seq<byte>, y: seq<byte>)
    ensures Stays(GetFixed(z), GetFixed(z + y), y)
  {
    StringSteady();
    hide GetString, GetInt, Block;
    assert Stays(GetString(z), GetString(z + y), y);
    if GetString(z).Ok? {
      var r := GetString(z).rest;
      IntStays(r, y);
      if GetInt(r).Ok? {
        var r2 := GetInt(r).rest;
        IntStays(r2, y);
        if GetInt(r2).Ok? {
          BlockStays(4, GetInt(r2).rest, y);
        }
      }
    }
  }

  lemma FrontStays(z: seq<byte>, y: seq<byte>)
    ensures Stays(GetFront(z), GetFront(z + y), y)
  {
    RawIntSteady();
    ConstSteady();
    FixedStays(z, y);
    hide GetFixed, GetVector, GetRawInt, GetConst, Steady;
    if GetFixed(z).Ok? {
      var r := GetFixed(z).rest;
      VectorStays(GetRawInt, r, y);
      if GetVector(GetRawInt, r).Ok? {
        VectorStays(GetConst, GetVector(GetRawInt, r).rest, y);
      }
    }
  }

  lemma DebugStays(z: seq<byte>, y: seq<byte>)
    ensures Stays(GetDebug(z), GetDebug(z + y), y)
  {
    RawIntSteady();
    LocVarSteady();
    StringSteady();
    VectorStays(GetRawInt, z, y);
    hide GetVector, GetRawInt, GetLocVar, GetString, Steady;
    if GetVector(GetRawInt, z).Ok? {
      var r := GetVector(GetRawInt, z).rest;
      VectorStays(GetLocVar, r, y);
      if GetVector(GetLocVar, r).Ok? {
        VectorStays(GetString, GetVector(GetLocVar, r).rest, y);
      }
    }
  }

  /** What a function's parts are read as. */
  lemma FunctionIs(z: seq<byte>, parent: Str, left: nat, check: Check)
    requires left > 0
    ensures GetFunction(z, parent, left, check) ==
              if GetFront(z).Err? then Err(GetFront(z).e) else Inner(GetFront(z).value, GetFront(z).rest, parent, left, check)
  {
    hide GetFront, GetInt, GetDebug, GetFunctions;
  }

  /** What is read behind the front part. */
  function Inner(front: Front, z: seq<byte>, parent: Str, left: nat, check: Check): Res<Proto>
    requires left > 0
  {
    match GetInt(z)
    case Err(e) => Err(e)
    case Ok(n, r) =>
      match GetFunctions(if n < 0 then 0 else n, r, if front.source.Some? then front.source.value else parent, left - 1, check)
      case Err(e) => Err(e)
      case Ok(ps, r2) => Last(front, ps, r2, parent, check)
  }

  function Last(front: Front, ps: seq<Proto>, z: seq<byte>, parent: Str, check: Check): Res<Proto>
  {
    match GetDebug(z)
    case Err(e) => Err(e)
    case Ok(debug, r) =>
      var f := Proto(front.(source := Some(if front.source.Some? then front.source.value else parent)), ps, debug);
      if check(f) then Ok(f, r) else Err(BadCode)
  }

  lemma LastStays(front: Front, ps: seq<Proto>, z: seq<byte>, parent: Str, check: Check, y: seq<byte>)
    ensures Stays(Last(front, ps, z, parent, check), Last(front, ps, z + y, parent, check), y)
  {
    DebugStays(z, y);
    hide GetDebug;
  }

  /** The same for functions within functions. */
  lemma {:induction false} FunctionStays(z: seq<byte>, parent: Str, left: nat, check: Check, y: seq<byte>)
    ensures Stays(GetFunction(z, parent, left, check), GetFunction(z + y, parent, left, check), y)
    decreases left, 1
  {
    if left > 0 {
      FunctionIs(z, parent, left, check);
      FunctionIs(z + y, parent, left, check);
      FrontStays(z, y);
      hide GetFunction, GetFront, Inner;
      if GetFront(z).Ok? {
        InnerStays(GetFront(z).value, GetFront(z).rest, parent, left, check, y);
      }
    }
  }

  lemma {:induction false} InnerStays(front: Front, z: seq<byte>, parent: Str, left: nat, check: Check, y: seq<byte>)
    requires left > 0
    ensures Stays(Inner(front, z, parent, left, check), Inner(front, z + y, parent, left, check), y)
    decreases left, 0
  {
    IntStays(z, y);
    hide GetInt, GetFunctions, Last;
    if GetInt(z).Ok? {
      var n: nat, r := if GetInt(z).value < 0 then 0 else GetInt(z).value, GetInt(z).rest;
      var source := if front.source.Some? then front.source.value else parent;
      FunctionsStay(n, r, source, left - 1, check, y);
      var ps := GetFunctions(n, r, source, left - 1, check);
      if ps.Ok? {
        LastStays(front, ps.value, ps.rest, parent, check, y);
      }
    }
  }

  lemma {:induction false} FunctionsStay(n: nat, z: seq<byte>, parent: Str, left: nat, check: Check, y: seq<byte>)
    ensures Stays(GetFunctions(n, z, parent, left, check), GetFunctions(n, z + y, parent, left, check), y)
    decreases left, n + 2
  {
    if n > 0 {
      hide GetFunction;
      FunctionStays(z, parent, left, check, y);
      var f := GetFunction(z, parent, left, check);
      if f.Ok? {
        FunctionsStay(n - 1, f.rest, parent, left, check, y);
      }
    }
  }

  /** What loading makes of bytes, it makes of them with more behind, unless they end too early. */
  lemma UndumpStays(z: seq<byte>, depth: nat, check: Check, y: seq<byte>)
    ensures Stays(Undump(z, depth, check), Undump(z + y, depth, check), y)
  {
    BlockStays(12, z, y);
    if Block(12, z).Ok? {
      FunctionStays(Block(12, z).rest, NO_NAME, if depth < MAX_C_CALLS then MAX_C_CALLS - depth else 0, check, y);
    }
    hide Block, GetFunction;
  }

  /** No proper prefix of a dump loads: the end is missed, wherever it breaks off. */
  lemma Truncated(f: Proto, strip: bool, depth: nat, check: Check, i: nat)
    requires Fits(f) && depth + Depth(f) <= MAX_C_CALLS && Accepted(Named(f, NO_NAME, strip), check) && i < |Dump(f, strip)|
    ensures Undump(Dump(f, strip)[..i], depth, check) == Err(UnexpectedEnd)
  {
    hide *;
    DumpUndone(f, strip, depth, check, []);
    UndumpStays(Dump(f, strip)[..i], depth, check, Dump(f, strip)[i..]);
    Broken(Dump(f, strip), i, depth, check);
  }

  lemma Broken(d: seq<byte>, i: nat, depth: nat, check: Check)
    requires i < |d| && Undump(d + [], depth, check).Ok? && Undump(d + [], depth, check).rest == []
    requires Stays(Undump(d[..i], depth, check), Undump(d[..i] + d[i..], depth, check), d[i..])
    ensures Undump(d[..i], depth, check) == Err(UnexpectedEnd)
  {
    hide Undump;
    assert d[..i] + d[i..] == d;
    assert d + [] == d;
  }

  /** Two functions whose dumps begin alike, one going on where the other ends, are the same function under the same names. */
  lemma DumpsDiffer(f: Proto, g: Proto, strip: bool, depth: nat, check: Check, r: seq<byte>, s: seq<byte>)
    requires Fits(f) && depth + Depth(f) <= MAX_C_CALLS && Accepted(Named(f, NO_NAME, strip), check)
    requires Fits(g) && depth + Depth(g) <= MAX_C_CALLS && Accepted(Named(g, NO_NAME, strip), check)
    requires Dump(f, strip) + r == Dump(g, strip) + s
    ensures r == s && Named(f, NO_NAME, strip) == Named(g, NO_NAME, strip)
  {
    DumpUndone(f, strip, depth, check, r);
    DumpUndone(g, strip, depth, check, s);
    hide *;
  }

  /** Only what begins with the header loads: signature, version 5.1, format 0, little-endian, and the sizes 4, 8, 4, 8. */
  lemma HeaderNeeded(z: seq<byte>, depth: nat, check: Check)
    ensures Undump(z, depth, check).Ok? ==> |z| >= 12 && z[..12] == [0x1B, 0x4C, 0x75, 0x61, 0x51, 0, 1, 4, 8, 4, 8, 0]
    ensures |z| >= 12 && z[..12] != [0x1B, 0x4C, 0x75, 0x61, 0x51, 0, 1, 4, 8, 4, 8, 0] ==> Undump(z, depth, check) == Err(BadHeader)
  {
    hide GetFunction;
  }
}
