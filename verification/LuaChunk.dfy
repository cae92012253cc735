/**
 Precompiled Lua chunks: how a function prototype and all those inside it are
 written as bytes, how they are read back, and that reading undoes writing.
 Sizes and byte order are those of a 64-bit little-endian machine.
 */
module LuaChunk {
  import opened Options
  import opened Bytes

  type Str = seq<byte>

  datatype Error = UnexpectedEnd | BadInteger | BadConstant | CodeTooDeep | BadCode | BadHeader

  /** What has been read, and the bytes behind it. */
  datatype Res<+T> = Ok(value: T, rest: seq<byte>) | Err(e: Error)

  // ---------------------------------------------------------------- prototypes

  datatype Const = Nil | Boolean(b: bool) | Number(bits: seq<byte>) | String(s: Option<Str>)

  datatype LocVar = LocVar(name: Option<Str>, startpc: int, endpc: int)

  /** All of a prototype but the prototypes inside it and the debug information. */
  datatype Front = Front(source: Option<Str>, linedefined: int, lastlinedefined: int, nups: byte, numparams: byte,
                         isVararg: byte, maxstacksize: byte, code: seq<int>, k: seq<Const>)

  datatype Debug = Debug(lineinfo: seq<int>, locvars: seq<LocVar>, upvalues: seq<Option<Str>>)

  datatype Proto = Proto(front: Front, p: seq<Proto>, debug: Debug)

  const TWO31 := 0x8000_0000
  const TWO32 := 0x1_0000_0000
  const TWO64 := 0x1_0000_0000_0000_0000

  // ---------------------------------------------------------------- bytes of numbers

  /** The n low bytes of x, lowest first. */
  function Little(x: int, n: nat): (r: seq<byte>)
    ensures |r| == n
    decreases n
  {
    if n == 0 then [] else [x % 256] + Little(x / 256, n - 1)
  }

  function Big(b: seq<byte>): nat
  {
    if b == [] then 0 else b[0] + 256 * Big(b[1..])
  }

  function Pow256(n: nat): nat
  {
    if n == 0 then 1 else 256 * Pow256(n - 1)
  }

  lemma {:induction false} LittleBig(x: nat, n: nat)
    requires x < Pow256(n)
    ensures Big(Little(x, n)) == x
  {
    if n > 0 {
      LittleBig(x / 256, n - 1);
      assert Little(x, n)[1..] == Little(x / 256, n - 1);
    }
  }

  lemma Powers()
    ensures Pow256(4) == TWO32 && Pow256(8) == TWO64
  {
    assert Pow256(2) == 65536;
    assert Pow256(4) == TWO32;
    assert Pow256(6) == 0x1_0000_0000_0000;
  }

  /** Two's complement. */
  function Signed(x: nat): int
  {
    if x >= TWO31 then x - TWO32 else x
  }

  function Unsigned(x: int): int
  {
    if x < 0 then x + TWO32 else x
  }

  // ---------------------------------------------------------------- writing

  function PutInt(x: int): seq<byte>
  {
    Little(Unsigned(x), 4)
  }

  function PutSize(n: nat): seq<byte>
  {
    Little(n, 8)
  }

  /** No string has size zero; others are written with the zero behind them. */
  function PutString(s: Option<Str>): seq<byte>
  {
    match s case None => PutSize(0) case Some(t) => PutSize(|t| + 1) + t + [0]
  }

  function PutConst(c: Const): seq<byte>
  {
    match c
    case Nil => [0]
    case Boolean(b) => [1, if b then 1 else 0]
    case Number(bits) => [3] + bits
    case String(s) => [4] + PutString(s)
  }

  function PutLocVar(v: LocVar): seq<byte>
  {
    PutString(v.name) + PutInt(v.startpc) + PutInt(v.endpc)
  }

  function PutAll<T>(put: T -> seq<byte>, xs: seq<T>): seq<byte>
  {
    if xs == [] then [] else put(xs[0]) + PutAll(put, xs[1..])
  }

  /** A count and as many elements. */
  function PutVector<T>(put: T -> seq<byte>, xs: seq<T>): seq<byte>
  {
    PutInt(|xs|) + PutAll(put, xs)
  }

  /** `source` is what is written for the name: nothing if it is that of the enclosing function. */
  function PutFront(f: Front, source: Option<Str>): seq<byte>
  {
    PutString(source) + PutInt(f.linedefined) + PutInt(f.lastlinedefined)
    + [f.nups, f.numparams, f.isVararg, f.maxstacksize] + PutVector(PutInt, f.code) + PutVector(PutConst, f.k)
  }

  function PutDebug(d: Debug): seq<byte>
  {
    PutVector(PutInt, d.lineinfo) + PutVector(PutLocVar, d.locvars) + PutVector(PutString, d.upvalues)
  }

  const NO_DEBUG := Debug([], [], [])

  function Shown(f: Proto, parent: Option<Str>, strip: bool): Option<Str>
  {
    if strip || f.front.source == parent then None else f.front.source
  }

  function PutFunction(f: Proto, parent: Option<Str>, strip: bool): seq<byte>
    decreases f, 0
  {
    PutFront(f.front, Shown(f, parent, strip)) + PutInt(|f.p|) + PutFunctions(f.p, f.front.source, strip)
    + PutDebug(if strip then NO_DEBUG else f.debug)
  }

  function PutFunctions(fs: seq<Proto>, parent: Option<Str>, strip: bool): seq<byte>
    decreases fs
  {
    if fs == [] then [] else PutFunction(fs[0], parent, strip) + PutFunctions(fs[1..], parent, strip)
  }

  // ---------------------------------------------------------------- reading

  function Block(n: nat, z: seq<byte>): Res<seq<byte>>
  {
    if n <= |z| then Ok(z[..n], z[n..]) else Err(UnexpectedEnd)
  }

  function GetByte(z: seq<byte>): Res<byte>
  {
    if z == [] then Err(UnexpectedEnd) else Ok(z[0], z[1..])
  }

  function GetRawInt(z: seq<byte>): Res<int>
  {
    match Block(4, z) case Err(e) => Err(e) case Ok(b, r) => Ok(Signed(Big(b)), r)
  }

  function GetInt(z: seq<byte>): Res<int>
  {
    match GetRawInt(z) case Err(e) => Err(e) case Ok(x, r) => if x < 0 then Err(BadInteger) else Ok(x, r)
  }

  function GetString(z: seq<byte>): Res<Option<Str>>
  {
    match Block(8, z)
    case Err(e) => Err(e)
    case Ok(b, r) =>
      var size := Big(b);
      if size == 0 then Ok(None, r)
      else match Block(size, r) case Err(e) => Err(e) case Ok(t, r2) => Ok(Some(t[..size - 1]), r2)
  }

  function GetConst(z: seq<byte>): Res<Const>
  {
    match GetByte(z)
    case Err(e) => Err(e)
    case Ok(t, r) =>
      if t == 0 then Ok(Nil, r)
      else if t == 1 then (match GetByte(r) case Err(e) => Err(e) case Ok(b, r2) => Ok(Boolean(b != 0), r2))
      else if t == 3 then (match Block(8, r) case Err(e) => Err(e) case Ok(b, r2) => Ok(Number(b), r2))
      else if t == 4 then (match GetString(r) case Err(e) => Err(e) case Ok(s, r2) => Ok(String(s), r2))
      else Err(BadConstant)
  }

  function GetLocVar(z: seq<byte>): Res<LocVar>
  {
    match GetString(z)
    case Err(e) => Err(e)
    case Ok(s, r) =>
      match GetInt(r)
      case Err(e) => Err(e)
      case Ok(a, r2) => match GetInt(r2) case Err(e) => Err(e) case Ok(b, r3) => Ok(LocVar(s, a, b), r3)
  }

  function GetAll<T>(get: seq<byte> -> Res<T>, n: nat, z: seq<byte>): Res<seq<T>>
  {
    if n == 0 then Ok([], z)
    else match get(z)
      case Err(e) => Err(e)
      case Ok(x, r) => match GetAll(get, n - 1, r) case Err(e) => Err(e) case Ok(xs, r2) => Ok([x] + xs, r2)
  }

  function GetVector<T>(get: seq<byte> -> Res<T>, z: seq<byte>): Res<seq<T>>
  {
    match GetInt(z) case Err(e) => Err(e) case Ok(n, r) => if n < 0 then Err(BadInteger) else GetAll(get, n, r)
  }

  datatype Fixed = Fixed(source: Option<Str>, linedefined: int, lastlinedefined: int, bytes: seq<byte>)

  function GetFixed(z: seq<byte>): Res<Fixed>
  {
    match GetString(z)
    case Err(e) => Err(e)
    case Ok(s, r) =>
      match GetInt(r)
      case Err(e) => Err(e)
      case Ok(a, r2) =>
        match GetInt(r2)
        case Err(e) => Err(e)
        case Ok(b, r3) => match Block(4, r3) case Err(e) => Err(e) case Ok(t, r4) => Ok(Fixed(s, a, b, t), r4)
  }

  function GetFront(z: seq<byte>): Res<Front>
  {
    match GetFixed(z)
    case Err(e) => Err(e)
    case Ok(x, r) =>
      match GetVector(GetRawInt, r)
      case Err(e) => Err(e)
      case Ok(code, r2) =>
        match GetVector(GetConst, r2)
        case Err(e) => Err(e)
        case Ok(k, r3) =>
          if |x.bytes| != 4 then Err(UnexpectedEnd)
          else Ok(Front(x.source, x.linedefined, x.lastlinedefined, x.bytes[0], x.bytes[1], x.bytes[2], x.bytes[3], code, k), r3)
  }

  function GetDebug(z: seq<byte>): Res<Debug>
  {
    match GetVector(GetRawInt, z)
    case Err(e) => Err(e)
    case Ok(l, r) =>
      match GetVector(GetLocVar, r)
      case Err(e) => Err(e)
      case Ok(v, r2) => match GetVector(GetString, r2) case Err(e) => Err(e) case Ok(u, r3) => Ok(Debug(l, v, u), r3)
  }

  /** A predicate on prototypes, as the bytecode checker is one. */
  type Check = Proto -> bool

  /** Reads a function; `parent` names it if it has no name, and `left` calls may still be nested. */
  function GetFunction(z: seq<byte>, parent: Str, left: nat, check: Check): Res<Proto>
    decreases left, 0
  {
    if left == 0 then Err(CodeTooDeep)
    else match GetFront(z)
      case Err(e) => Err(e)
      case Ok(front, r) =>
        var source := if front.source.Some? then front.source.value else parent;
        match GetInt(r)
        case Err(e) => Err(e)
        case Ok(n, r2) =>
          match GetFunctions(if n < 0 then 0 else n, r2, source, left - 1, check)
          case Err(e) => Err(e)
          case Ok(ps, r3) =>
            match GetDebug(r3)
            case Err(e) => Err(e)
            case Ok(debug, r4) =>
              var f := Proto(front.(source := Some(source)), ps, debug);
              if check(f) then Ok(f, r4) else Err(BadCode)
  }

  function GetFunctions(n: nat, z: seq<byte>, parent: Str, left: nat, check: Check): Res<seq<Proto>>
    decreases left, n + 1
  {
    if n == 0 then Ok([], z)
    else match GetFunction(z, parent, left, check)
      case Err(e) => Err(e)
      case Ok(f, r) => match GetFunctions(n - 1, r, parent, left, check) case Err(e) => Err(e) case Ok(fs, r2) => Ok([f] + fs, r2)
  }

  // ---------------------------------------------------------------- whole chunks

  /** The header: signature, version, format, byte order and sizes. */
  const HEADER: seq<byte> := [0x1B, 0x4C, 0x75, 0x61, 0x51, 0, 1, 4, 8, 4, 8, 0]

  /** The name of a chunk that has none. */
  const NO_NAME: Str := [0x3D, 0x3F]

  const MAX_C_CALLS := 200

  function Dump(f: Proto, strip: bool): seq<byte>
  {
    HEADER + PutFunction(f, None, strip)
  }

  /** `depth`: how deep calls are nested already. */
  function Undump(z: seq<byte>, depth: nat, check: Check): Res<Proto>
  {
    match Block(12, z)
    case Err(e) => Err(e)
    case Ok(h, r) => if h != HEADER then Err(BadHeader) else GetFunction(r, NO_NAME, if depth < MAX_C_CALLS then MAX_C_CALLS - depth else 0, check)
  }

  // ---------------------------------------------------------------- reading undoes writing

  ghost predicate Undoes<T(!new)>(put: T -> seq<byte>, get: seq<byte> -> Res<T>, x: T)
  {
    forall r: seq<byte> :: get(put(x) + r) == Ok(x, r)
  }

  lemma BlockIs(a: seq<byte>, r: seq<byte>)
    ensures Block(|a|, a + r) == Ok(a, r)
  {
  }

  predicate Int32(x: int)
  {
    -TWO31 <= x < TWO31
  }

  lemma RawIntUndoes(x: int)
    requires Int32(x)
    ensures Undoes(PutInt, GetRawInt, x)
  {
    Powers();
    LittleBig(Unsigned(x), 4);
    forall r: seq<byte> ensures GetRawInt(PutInt(x) + r) == Ok(x, r) {
      BlockIs(PutInt(x), r);
    }
    hide Little, Big, Pow256;
  }

  lemma IntUndoes(x: int)
    requires 0 <= x < TWO31
    ensures Undoes(PutInt, GetInt, x)
  {
    RawIntUndoes(x);
    hide GetRawInt, PutInt;
    forall r: seq<byte> ensures GetInt(PutInt(x) + r) == Ok(x, r) {
      assert GetRawInt(PutInt(x) + r) == Ok(x, r);
    }
  }

  predicate StringFits(s: Option<Str>)
  {
    s.Some? ==> |s.value| + 1 < TWO64
  }

  lemma StringUndoes(s: Option<Str>)
    requires StringFits(s)
    ensures Undoes(PutString, GetString, s)
  {
    Powers();
    var size := if s.None? then 0 else |s.value| + 1;
    LittleBig(size, 8);
    hide Little, Big, Pow256;
    forall r: seq<byte> ensures GetString(PutString(s) + r) == Ok(s, r) {
      match s {
        case None => BlockIs(PutSize(0), r);
        case Some(t) =>
          assert PutString(s) + r == PutSize(size) + (t + [0] + r);
          BlockIs(PutSize(size), t + [0] + r);
          BlockIs(t + [0], r);
          assert (t + [0])[..size - 1] == t;
      }
    }
  }

  predicate ConstFits(c: Const)
  {
    (c.Number? ==> |c.bits| == 8) && (c.String? ==> StringFits(c.s))
  }

  lemma ConstUndoes(c: Const)
    requires ConstFits(c)
    ensures Undoes(PutConst, GetConst, c)
  {
    hide GetConst, PutConst, ConstFits;
    forall r: seq<byte> ensures GetConst(PutConst(c) + r) == Ok(c, r) {
      ConstParts(c, r);
      ConstTagged(c, r);
    }
  }

  lemma ConstParts(c: Const, r: seq<byte>)
    ensures PutConst(c) + r ==
              match c
              case Nil => [0] + r
              case Boolean(b) => [1] + ([if b then 1 else 0] + r)
              case Number(bits) => [3] + (bits + r)
              case String(s) => [4] + (PutString(s) + r)
  {
    hide PutString;
  }

  /** By the tag in front. */
  lemma ConstTagged(c: Const, r: seq<byte>)
    requires ConstFits(c)
    ensures match c
            case Nil => GetConst([0] + r) == Ok(c, r)
            case Boolean(b) => GetConst([1] + ([if b then 1 else 0] + r)) == Ok(c, r)
            case Number(bits) => GetConst([3] + (bits + r)) == Ok(c, r)
            case String(s) => GetConst([4] + (PutString(s) + r)) == Ok(c, r)
  {
    match c {
      case Nil => assert ([0] + r)[1..] == r;
      case Boolean(b) =>
        var z := [if b then 1 else 0] + r;
        assert ([1] + z)[1..] == z && z[1..] == r;
      case Number(bits) =>
        BlockIs(bits, r);
        assert ([3] + (bits + r))[1..] == bits + r;
      case String(s) =>
        StringUndoes(s);
        assert GetString(PutString(s) + r) == Ok(s, r);
        hide PutString, GetString;
        assert ([4] + (PutString(s) + r))[1..] == PutString(s) + r;
    }
  }

  predicate LocVarFits(v: LocVar)
  {
    StringFits(v.name) && 0 <= v.startpc < TWO31 && 0 <= v.endpc < TWO31
  }

  lemma LocVarUndoes(v: LocVar)
    requires LocVarFits(v)
    ensures Undoes(PutLocVar, GetLocVar, v)
  {
    hide PutString, GetString, PutInt, GetInt, GetLocVar, PutLocVar, LocVarFits;
    forall r: seq<byte> ensures GetLocVar(PutLocVar(v) + r) == Ok(v, r) {
      LocVarUndone(v, r);
    }
  }

  lemma LocVarUndone(v: LocVar, r: seq<byte>)
    requires LocVarFits(v)
    ensures GetLocVar(PutLocVar(v) + r) == Ok(v, r)
  {
    hide *;
    var r2 := PutInt(v.endpc) + r;
    var r1 := PutInt(v.startpc) + r2;
    LocVarParts(v, r);
    StringUndone(v.name, r1);
    CountUndone(v.startpc, r2);
    CountUndone(v.endpc, r);
    LocVarIs(PutLocVar(v) + r, v, r1, r2, r);
  }

  lemma LocVarParts(v: LocVar, r: seq<byte>)
    requires LocVarFits(v)
    ensures PutLocVar(v) + r == PutString(v.name) + (PutInt(v.startpc) + (PutInt(v.endpc) + r))
    ensures StringFits(v.name) && 0 <= v.startpc < TWO31 && 0 <= v.endpc < TWO31
  {
    hide PutString, PutInt, StringFits;
  }

  lemma LocVarIs(z: seq<byte>, v: LocVar, r1: seq<byte>, r2: seq<byte>, r: seq<byte>)
    requires GetString(z) == Ok(v.name, r1) && GetInt(r1) == Ok(v.startpc, r2) && GetInt(r2) == Ok(v.endpc, r)
    ensures GetLocVar(z) == Ok(v, r)
  {
    hide GetString, GetInt;
  }

  lemma StringUndone(s: Option<Str>, r: seq<byte>)
    requires StringFits(s)
    ensures GetString(PutString(s) + r) == Ok(s, r)
  {
    StringUndoes(s);
    hide GetString, PutString;
  }

  lemma CountUndone(n: nat, r: seq<byte>)
    requires n < TWO31
    ensures GetInt(PutInt(n) + r) == Ok(n, r)
  {
    IntUndoes(n);
    hide GetInt, PutInt;
  }

  lemma {:induction false} AllUndone<T(!new)>(put: T -> seq<byte>, get: seq<byte> -> Res<T>, xs: seq<T>, r: seq<byte>)
    requires forall i :: 0 <= i < |xs| ==> Undoes(put, get, xs[i])
    ensures GetAll(get, |xs|, PutAll(put, xs) + r) == Ok(xs, r)
  {
    if xs == [] {
      assert PutAll(put, xs) + r == r;
    } else {
      var r1 := PutAll(put, xs[1..]) + r;
      assert PutAll(put, xs) + r == put(xs[0]) + r1;
      assert Undoes(put, get, xs[0]);
      assert get(put(xs[0]) + r1) == Ok(xs[0], r1);
      AllUndone(put, get, xs[1..], r);
      assert [xs[0]] + xs[1..] == xs;
    }
  }

  lemma VectorUndone<T(!new)>(put: T -> seq<byte>, get: seq<byte> -> Res<T>, xs: seq<T>, r: seq<byte>)
    requires |xs| < TWO31 && forall i :: 0 <= i < |xs| ==> Undoes(put, get, xs[i])
    ensures GetVector(get, PutVector(put, xs) + r) == Ok(xs, r)
  {
    IntUndoes(|xs|);
    AllUndone(put, get, xs, r);
    hide PutInt, GetInt, GetAll, PutAll;
    var r1 := PutAll(put, xs) + r;
    assert PutVector(put, xs) + r == PutInt(|xs|) + r1;
    assert GetInt(PutInt(|xs|) + r1) == Ok(|xs|, r1);
  }

  /** What C ints and sizes can hold. */
  predicate FrontFits(f: Front)
  {
    && StringFits(f.source) && 0 <= f.linedefined < TWO31 && 0 <= f.lastlinedefined < TWO31
    && |f.code| < TWO31 && (forall i :: 0 <= i < |f.code| ==> Int32(f.code[i]))
    && |f.k| < TWO31 && (forall i :: 0 <= i < |f.k| ==> ConstFits(f.k[i]))
  }

  predicate DebugFits(d: Debug)
  {
    && |d.lineinfo| < TWO31 && (forall i :: 0 <= i < |d.lineinfo| ==> Int32(d.lineinfo[i]))
    && |d.locvars| < TWO31 && (forall i :: 0 <= i < |d.locvars| ==> LocVarFits(d.locvars[i]))
    && |d.upvalues| < TWO31 && (forall i :: 0 <= i < |d.upvalues| ==> StringFits(d.upvalues[i]))
  }

  lemma FixedUndone(f: Front, source: Option<Str>, r: seq<byte>)
    requires FrontFits(f) && StringFits(source)
    ensures var t := [f.nups, f.numparams, f.isVararg, f.maxstacksize];
            GetFixed(PutString(source) + PutInt(f.linedefined) + PutInt(f.lastlinedefined) + t + r)
              == Ok(Fixed(source, f.linedefined, f.lastlinedefined, t), r)
  {
    hide *;
    var t := [f.nups, f.numparams, f.isVararg, f.maxstacksize];
    var r2 := PutInt(f.lastlinedefined) + (t + r);
    var r1 := PutInt(f.linedefined) + r2;
    FixedParts(f, source, t, r);
    StringUndone(source, r1);
    CountUndone(f.linedefined, r2);
    CountUndone(f.lastlinedefined, t + r);
    BlockIs(t, r);
    FixedIs(PutString(source) + r1, source, r1, f.linedefined, r2, f.lastlinedefined, t, r);
  }

  lemma FixedParts(f: Front, source: Option<Str>, t: seq<byte>, r: seq<byte>)
    requires FrontFits(f)
    ensures PutString(source) + PutInt(f.linedefined) + PutInt(f.lastlinedefined) + t + r
              == PutString(source) + (PutInt(f.linedefined) + (PutInt(f.lastlinedefined) + (t + r)))
    ensures 0 <= f.linedefined < TWO31 && 0 <= f.lastlinedefined < TWO31
  {
    hide PutString, PutInt, StringFits, ConstFits, Int32;
  }

  lemma FixedIs(z: seq<byte>, s: Option<Str>, r1: seq<byte>, a: int, r2: seq<byte>, b: int, t: seq<byte>, r: seq<byte>)
    requires GetString(z) == Ok(s, r1) && GetInt(r1) == Ok(a, r2) && GetInt(r2) == Ok(b, t + r) && |t| == 4 && Block(4, t + r) == Ok(t, r)
    ensures GetFixed(z) == Ok(Fixed(s, a, b, t), r)
  {
    hide GetString, GetInt, Block;
  }

  lemma PartsUndo(f: Front)
    requires FrontFits(f)
    ensures |f.code| < TWO31 && forall i :: 0 <= i < |f.code| ==> Undoes(PutInt, GetRawInt, f.code[i])
    ensures |f.k| < TWO31 && forall i :: 0 <= i < |f.k| ==> Undoes(PutConst, GetConst, f.k[i])
  {
    hide Undoes, Int32, ConstFits;
    forall i | 0 <= i < |f.code| ensures Undoes(PutInt, GetRawInt, f.code[i]) {
      RawIntUndoes(f.code[i]);
    }
    forall i | 0 <= i < |f.k| ensures Undoes(PutConst, GetConst, f.k[i]) {
      ConstUndoes(f.k[i]);
    }
  }

  lemma FrontIs(z: seq<byte>, x: Fixed, r: seq<byte>, code: seq<int>, r2: seq<byte>, k: seq<Const>, r3: seq<byte>)
    requires GetFixed(z) == Ok(x, r) && |x.bytes| == 4 && GetVector(GetRawInt, r) == Ok(code, r2) && GetVector(GetConst, r2) == Ok(k, r3)
    ensures GetFront(z) == Ok(Front(x.source, x.linedefined, x.lastlinedefined, x.bytes[0], x.bytes[1], x.bytes[2], x.bytes[3], code, k), r3)
  {
    hide GetFixed, GetVector;
  }

  lemma FrontParts(f: Front, source: Option<Str>, r: seq<byte>)
    ensures PutFront(f, source) + r ==
              PutString(source) + PutInt(f.linedefined) + PutInt(f.lastlinedefined) + [f.nups, f.numparams, f.isVararg, f.maxstacksize]
              + (PutVector(PutInt, f.code) + (PutVector(PutConst, f.k) + r))
  {
    hide PutString, PutInt, PutVector;
  }

  lemma FrontUndone(f: Front, source: Option<Str>, r: seq<byte>)
    requires FrontFits(f) && StringFits(source)
    ensures GetFront(PutFront(f, source) + r) == Ok(f.(source := source), r)
  {
    hide *;
    var r3 := PutVector(PutConst, f.k) + r;
    var r2 := PutVector(PutInt, f.code) + r3;
    var t := [f.nups, f.numparams, f.isVararg, f.maxstacksize];
    PartsUndo(f);
    FixedUndone(f, source, r2);
    VectorUndone(PutInt, GetRawInt, f.code, r3);
    VectorUndone(PutConst, GetConst, f.k, r);
    FrontParts(f, source, r);
    FrontIs(PutFront(f, source) + r, Fixed(source, f.linedefined, f.lastlinedefined, t), r2, f.code, r3, f.k, r);
  }

  lemma DebugUndoes(d: Debug)
    requires DebugFits(d)
    ensures |d.lineinfo| < TWO31 && forall i :: 0 <= i < |d.lineinfo| ==> Undoes(PutInt, GetRawInt, d.lineinfo[i])
    ensures |d.locvars| < TWO31 && forall i :: 0 <= i < |d.locvars| ==> Undoes(PutLocVar, GetLocVar, d.locvars[i])
    ensures |d.upvalues| < TWO31 && forall i :: 0 <= i < |d.upvalues| ==> Undoes(PutString, GetString, d.upvalues[i])
  {
    hide Undoes, Int32, LocVarFits, StringFits;
    forall i | 0 <= i < |d.lineinfo| ensures Undoes(PutInt, GetRawInt, d.lineinfo[i]) {
      RawIntUndoes(d.lineinfo[i]);
    }
    forall i | 0 <= i < |d.locvars| ensures Undoes(PutLocVar, GetLocVar, d.locvars[i]) {
      LocVarUndoes(d.locvars[i]);
    }
    forall i | 0 <= i < |d.upvalues| ensures Undoes(PutString, GetString, d.upvalues[i]) {
      StringUndoes(d.upvalues[i]);
    }
  }

  lemma DebugIs(z: seq<byte>, l: seq<int>, r: seq<byte>, v: seq<LocVar>, r2: seq<byte>, u: seq<Option<Str>>, r3: seq<byte>)
    requires GetVector(GetRawInt, z) == Ok(l, r) && GetVector(GetLocVar, r) == Ok(v, r2) && GetVector(GetString, r2) == Ok(u, r3)
    ensures GetDebug(z) == Ok(Debug(l, v, u), r3)
  {
    hide GetVector;
  }

  lemma DebugParts(d: Debug, r: seq<byte>)
    ensures PutDebug(d) + r == PutVector(PutInt, d.lineinfo) + (PutVector(PutLocVar, d.locvars) + (PutVector(PutString, d.upvalues) + r))
  {
    hide PutVector;
  }

  lemma DebugUndone(d: Debug, r: seq<byte>)
    requires DebugFits(d)
    ensures GetDebug(PutDebug(d) + r) == Ok(d, r)
  {
    hide *;
    var r2 := PutVector(PutString, d.upvalues) + r;
    var r1 := PutVector(PutLocVar, d.locvars) + r2;
    DebugUndoes(d);
    VectorUndone(PutInt, GetRawInt, d.lineinfo, r1);
    VectorUndone(PutLocVar, GetLocVar, d.locvars, r2);
    VectorUndone(PutString, GetString, d.upvalues, r);
    DebugParts(d, r);
    DebugIs(PutDebug(d) + r, d.lineinfo, r1, d.locvars, r2, d.upvalues, r);
  }

  // ---------------------------------------------------------------- whole prototypes

  predicate Fits(f: Proto)
    decreases f
  {
    FrontFits(f.front) && DebugFits(f.debug) && |f.p| < TWO31 && AllFit(f.p)
  }

  predicate AllFit(fs: seq<Proto>)
    decreases fs
  {
    fs == [] || (Fits(fs[0]) && AllFit(fs[1..]))
  }

  function Depth(f: Proto): nat
    decreases f
  {
    1 + Deepest(f.p)
  }

  function Deepest(fs: seq<Proto>): nat
    decreases fs
  {
    if fs == [] then 0
    else
      var a, b := Depth(fs[0]), Deepest(fs[1..]);
      if a < b then b else a
  }

  /** What comes back: functions without a name have that of the one around them; a stripped chunk has no debug information. */
  function Named(f: Proto, parent: Str, strip: bool): Proto
    decreases f
  {
    var source := if !strip && f.front.source.Some? then f.front.source.value else parent;
    Proto(f.front.(source := Some(source)), AllNamed(f.p, source, strip), if strip then NO_DEBUG else f.debug)
  }

  function AllNamed(fs: seq<Proto>, parent: Str, strip: bool): (r: seq<Proto>)
    ensures |r| == |fs|
    decreases fs
  {
    if fs == [] then [] else [Named(fs[0], parent, strip)] + AllNamed(fs[1..], parent, strip)
  }

  /** The checker accepts the function and all those inside it. */
  predicate Accepted(f: Proto, check: Check)
    decreases f
  {
    check(f) && AllAccepted(f.p, check)
  }

  predicate AllAccepted(fs: seq<Proto>, check: Check)
    decreases fs
  {
    fs == [] || (Accepted(fs[0], check) && AllAccepted(fs[1..], check))
  }

  /** Reading what has been written gives the function back, named, and leaves what comes behind. */
  lemma {:induction false} FunctionUndone(f: Proto, shown: Option<Str>, parent: Str, strip: bool, left: nat, check: Check, r: seq<byte>)
    requires Fits(f) && Depth(f) <= left && Accepted(Named(f, parent, strip), check) && (!strip && shown.Some? ==> shown.value == parent)
    ensures GetFunction(PutFunction(f, shown, strip) + r, parent, left, check) == Ok(Named(f, parent, strip), r)
    decreases f, 0
  {
    hide *;
    var d := if strip then NO_DEBUG else f.debug;
    FunctionFacts(f, parent, strip, check);
    var source := Named(f, parent, strip).front.source.value;
    var r3 := PutDebug(d) + r;
    var r2 := PutFunctions(f.p, f.front.source, strip) + r3;
    var r1 := PutInt(|f.p|) + r2;
    ShownFits(f, shown, strip);
    FrontUndone(f.front, Shown(f, shown, strip), r1);
    CountUndone(|f.p|, r2);
    FunctionsUndone(f.p, f.front.source, source, strip, left - 1, check, r3);
    DebugUndone(d, r);
    FunctionParts(f, shown, strip, r);
    Assembled(f, shown, parent, strip, left, check, r);
  }

  lemma FunctionFacts(f: Proto, parent: Str, strip: bool, check: Check)
    requires Fits(f) && Accepted(Named(f, parent, strip), check)
    ensures FrontFits(f.front) && |f.p| < TWO31 && AllFit(f.p) && Depth(f) == 1 + Deepest(f.p) && check(Named(f, parent, strip))
    ensures Named(f, parent, strip).front.source.Some?
    ensures var source := Named(f, parent, strip).front.source.value;
            AllAccepted(AllNamed(f.p, source, strip), check) && (!strip && f.front.source.Some? ==> f.front.source.value == source)
  {
    hide FrontFits, DebugFits, AllNamed, AllFit, AllAccepted, Deepest;
  }

  lemma FunctionParts(f: Proto, shown: Option<Str>, strip: bool, r: seq<byte>)
    ensures PutFunction(f, shown, strip) + r ==
              PutFront(f.front, Shown(f, shown, strip)) + (PutInt(|f.p|) + (PutFunctions(f.p, f.front.source, strip) + (PutDebug(if strip then NO_DEBUG else f.debug) + r)))
  {
    hide PutFront, PutInt, PutFunctions, PutDebug;
  }

  lemma ShownFits(f: Proto, shown: Option<Str>, strip: bool)
    requires Fits(f)
    ensures StringFits(Shown(f, shown, strip)) && DebugFits(if strip then NO_DEBUG else f.debug)
  {
  }

  /** The parts put together again. */
  lemma Assembled(f: Proto, shown: Option<Str>, parent: Str, strip: bool, left: nat, check: Check, r: seq<byte>)
    requires left > 0 && check(Named(f, parent, strip)) && (!strip && shown.Some? ==> shown.value == parent)
    requires var d := if strip then NO_DEBUG else f.debug;
             var source := Named(f, parent, strip).front.source.value;
             var r3 := PutDebug(d) + r;
             var r2 := PutFunctions(f.p, f.front.source, strip) + r3;
             var r1 := PutInt(|f.p|) + r2;
             && GetFront(PutFunction(f, shown, strip) + r) == Ok(f.front.(source := Shown(f, shown, strip)), r1)
             && GetInt(r1) == Ok(|f.p|, r2)
             && GetFunctions(|f.p|, r2, source, left - 1, check) == Ok(AllNamed(f.p, source, strip), r3)
             && GetDebug(r3) == Ok(d, r)
    ensures GetFunction(PutFunction(f, shown, strip) + r, parent, left, check) == Ok(Named(f, parent, strip), r)
  {
    hide GetFront, GetDebug, PutDebug, PutInt, GetInt, PutFunction, PutFunctions, GetFunctions, AllNamed;
  }

  lemma {:induction false} FunctionsUndone(fs: seq<Proto>, shown: Option<Str>, parent: Str, strip: bool, left: nat, check: Check, r: seq<byte>)
    requires AllFit(fs) && Deepest(fs) <= left && AllAccepted(AllNamed(fs, parent, strip), check) && (!strip && shown.Some? ==> shown.value == parent)
    ensures GetFunctions(|fs|, PutFunctions(fs, shown, strip) + r, parent, left, check) == Ok(AllNamed(fs, parent, strip), r)
    decreases fs
  {
    hide GetFunction, PutFunction, Fits, Named;
    if fs == [] {
      assert PutFunctions(fs, shown, strip) + r == r;
    } else {
      var r1 := PutFunctions(fs[1..], shown, strip) + r;
      assert PutFunctions(fs, shown, strip) + r == PutFunction(fs[0], shown, strip) + r1;
      assert AllNamed(fs, parent, strip)[1..] == AllNamed(fs[1..], parent, strip);
      FunctionUndone(fs[0], shown, parent, strip, left, check, r1);
      FunctionsUndone(fs[1..], shown, parent, strip, left, check, r);
    }
  }

  /** Loading a dump gives the named function and consumes exactly what was written. */
  lemma DumpUndone(f: Proto, strip: bool, depth: nat, check: Check, r: seq<byte>)
    requires Fits(f) && depth + Depth(f) <= MAX_C_CALLS && Accepted(Named(f, NO_NAME, strip), check)
    ensures Undump(Dump(f, strip) + r, depth, check) == Ok(Named(f, NO_NAME, strip), r)
  {
    hide *;
    DumpParts(f, strip, r);
    UndumpIs(PutFunction(f, None, strip) + r, depth, check);
    DepthPositive(f);
    FunctionUndone(f, None, NO_NAME, strip, MAX_C_CALLS - depth, check, r);
  }

  lemma DumpParts(f: Proto, strip: bool, r: seq<byte>)
    ensures Dump(f, strip) + r == HEADER + (PutFunction(f, None, strip) + r)
  {
    hide PutFunction;
  }

  lemma UndumpIs(z: seq<byte>, depth: nat, check: Check)
    ensures Undump(HEADER + z, depth, check) == GetFunction(z, NO_NAME, if depth < MAX_C_CALLS then MAX_C_CALLS - depth else 0, check)
  {
    BlockIs(HEADER, z);
    hide GetFunction, Block;
  }

  lemma DepthPositive(f: Proto)
    ensures Depth(f) > 0
  {
  }

  /** Every function has a name. */
  predicate HasNames(f: Proto)
    decreases f
  {
    f.front.source.Some? && AllHaveNames(f.p)
  }

  predicate AllHaveNames(fs: seq<Proto>)
    decreases fs
  {
    fs == [] || (HasNames(fs[0]) && AllHaveNames(fs[1..]))
  }

  lemma {:induction false} NamedSame(f: Proto, parent: Str)
    ensures Named(f, parent, false) == f <==> HasNames(f)
    decreases f, 0
  {
    var source := if f.front.source.Some? then f.front.source.value else parent;
    AllNamedSame(f.p, source);
    hide AllNamed, AllHaveNames;
  }

  lemma {:induction false} AllNamedSame(fs: seq<Proto>, parent: Str)
    ensures AllNamed(fs, parent, false) == fs <==> AllHaveNames(fs)
    decreases fs
  {
    if fs != [] {
      NamedSame(fs[0], parent);
      AllNamedSame(fs[1..], parent);
      assert fs == [fs[0]] + fs[1..];
      assert AllNamed(fs, parent, false)[1..] == AllNamed(fs[1..], parent, false);
      assert AllNamed(fs, parent, false)[0] == Named(fs[0], parent, false);
    }
    hide Named, HasNames;
  }

  /** An unstripped dump is undone by loading exactly when every function in it has a name. */
  lemma RoundTrip(f: Proto, depth: nat, check: Check, r: seq<byte>)
    requires Fits(f) && depth + Depth(f) <= MAX_C_CALLS && Accepted(Named(f, NO_NAME, false), check)
    ensures Undump(Dump(f, false) + r, depth, check) == Ok(f, r) <==> HasNames(f)
  {
    DumpUndone(f, false, depth, check, r);
    NamedSame(f, NO_NAME);
    hide Undump, Dump, Fits, Depth, Accepted, Named;
  }

  // ---------------------------------------------------------------- the bytes

  lemma LittleFour(x: nat)
    ensures Little(x, 4) == [x % 256, x / 256 % 256, x / 65536 % 256, x / 16777216 % 256]
  {
    LittleNext(x, 4);
    LittleNext(x / 256, 3);
    LittleNext(x / 65536, 2);
    LittleNext(x / 16777216, 1);
    DivTwice(x);
    assert Little(x / 16777216 / 256, 0) == [];
    hide Little;
  }

  lemma LittleNext(x: nat, n: nat)
    requires n > 0
    ensures Little(x, n) == [x % 256] + Little(x / 256, n - 1)
  {
  }

  lemma DivTwice(x: nat)
    ensures x / 256 / 256 == x / 65536 && x / 65536 / 256 == x / 16777216 && x / 16777216 / 256 == x / 0x1_0000_0000
  {
  }

  /** An integer is four bytes, lowest first, negative ones in two's complement. */
  lemma IntBytes(x: int)
    requires -0x8000_0000 <= x < 0x8000_0000
    ensures var u := if x < 0 then x + 0x1_0000_0000 else x;
            PutInt(x) == [u % 256, u / 256 % 256, u / 65536 % 256, u / 16777216 % 256]
  {
    LittleFour(Unsigned(x));
    hide Little;
  }

  /** A size is eight bytes, lowest first. */
  lemma SizeBytes(n: nat)
    ensures var h := n / 0x1_0000_0000;
            PutSize(n) == [n % 256, n / 256 % 256, n / 65536 % 256, n / 16777216 % 256, h % 256, h / 256 % 256, h / 65536 % 256, h / 16777216 % 256]
  {
    LittleFour(n);
    LittleFour(n / 0x1_0000_0000);
    LittleEight(n);
    hide Little;
  }

  lemma LittleEight(n: nat)
    ensures Little(n, 8) == Little(n, 4) + Little(n / 0x1_0000_0000, 4)
  {
    LittleNext(n, 8);
    LittleNext(n / 256, 7);
    LittleNext(n / 65536, 6);
    LittleNext(n / 16777216, 5);
    DivTwice(n);
    LittleFour(n);
    hide Little;
    var r := Little(n / 0x1_0000_0000, 4);
    assert Little(n, 8) == [n % 256] + ([n / 256 % 256] + ([n / 65536 % 256] + ([n / 16777216 % 256] + r)));
  }

  /** A string is its size, the zero behind it included, its characters and that zero; none is the size zero. */
  lemma StringBytes(s: Option<Str>)
    ensures var b := PutString(s);
            if s.None? then b == [0, 0, 0, 0, 0, 0, 0, 0]
            else |b| == |s.value| + 9 && b[..8] == PutSize(|s.value| + 1) && b[8..8 + |s.value|] == s.value && b[8 + |s.value|] == 0
  {
    SizeBytes(0);
    hide PutSize;
    if s.Some? {
      var n, t := PutSize(|s.value| + 1), s.value;
      SizeBytes(|s.value| + 1);
      assert PutString(s) == n + t + [0] && |n| == 8;
    }
  }

  /** What a dump begins with: the twelve header bytes, and the size of the source name. */
  lemma DumpBegins(f: Proto, strip: bool)
    ensures var b, n := Dump(f, strip), if strip || f.front.source.None? then 0 else |f.front.source.value| + 1;
            && |b| >= 20 && b[..12] == [0x1B, 0x4C, 0x75, 0x61, 0x51, 0, 1, 4, 8, 4, 8, 0]
            && b[12..20] == PutSize(n)
            && (strip || f.front.source.None? || b[20..20 + n] == f.front.source.value + [0])
  {
    FrontBytes(f, strip);
    var b, name := Dump(f, strip), Shown(f, None, strip);
    StringBytes(name);
    NoneIsZero();
    hide PutString, PutSize, PutFunction, Dump;
    var p := PutString(name);
    assert b[12..20] == b[12..12 + |p|][..8];
    if name.Some? {
      var t := name.value;
      assert p[8..] == t + [0];
      assert b[20..20 + |t| + 1] == b[12..12 + |p|][8..];
    }
  }

  lemma NoneIsZero()
    ensures PutSize(0) == [0, 0, 0, 0, 0, 0, 0, 0] && |PutSize(0)| == 8
  {
    SizeBytes(0);
  }

  lemma FrontBytes(f: Proto, strip: bool)
    ensures var b, name := Dump(f, strip), PutString(Shown(f, None, strip));
            |b| >= 12 + |name| && b[..12] == HEADER && b[12..12 + |name|] == name
  {
    hide PutString, PutFunctions, PutInt, PutDebug, PutVector;
    var name := PutString(Shown(f, None, strip));
    assert name <= PutFront(f.front, Shown(f, None, strip)) <= PutFunction(f, None, strip);
  }

  function Sum4(a: int, b: int, c: int, d: int): int
  {
    a + 256 * b + 65536 * c + 16777216 * d
  }

  /** Four bytes read as an integer: lowest first, two's complement. */
  lemma IntRead(b: seq<byte>, r: seq<byte>)
    requires |b| == 4
    ensures var u := Sum4(b[0], b[1], b[2], b[3]);
            GetRawInt(b + r) == Ok(if u >= 0x8000_0000 then u - 0x1_0000_0000 else u, r)
  {
    BigFour(b);
    assert (b + r)[..4] == b && (b + r)[4..] == r;
    hide Big;
  }

  lemma BigFour(b: seq<byte>)
    requires |b| == 4
    ensures Big(b) == Sum4(b[0], b[1], b[2], b[3])
  {
    BigNext(b);
    BigNext(b[1..]);
    BigNext(b[2..]);
    BigNext(b[3..]);
    assert b[1..][1..] == b[2..] && b[2..][1..] == b[3..] && b[3..][1..] == [];
    assert Big([]) == 0;
    hide Big;
  }

  lemma BigNext(b: seq<byte>)
    requires b != []
    ensures Big(b) == b[0] + 256 * Big(b[1..])
  {
  }

  /** Eight bytes are a string's size, lowest first; as many bytes follow, the last of which is dropped; size zero is no string. */
  lemma StringRead(b: seq<byte>, r: seq<byte>)
    requires |b| == 8
    ensures var size := Sum4(b[0], b[1], b[2], b[3]) + 0x1_0000_0000 * Sum4(b[4], b[5], b[6], b[7]);
            GetString(b + r) ==
              if size == 0 then Ok(None, r) else if size <= |r| then Ok(Some(r[..size - 1]), r[size..]) else Err(UnexpectedEnd)
  {
    BigEight(b);
    assert (b + r)[..8] == b && (b + r)[8..] == r;
    assert forall n: nat :: 0 < n <= |r| ==> r[..n][..n - 1] == r[..n - 1];
    hide Big;
  }

  lemma BigEight(b: seq<byte>)
    requires |b| == 8
    ensures Big(b) == Sum4(b[0], b[1], b[2], b[3]) + 0x1_0000_0000 * Sum4(b[4], b[5], b[6], b[7])
  {
    BigNext(b);
    BigNext(b[1..]);
    BigNext(b[2..]);
    BigNext(b[3..]);
    BigFour(b[4..]);
    assert b[1..][1..] == b[2..] && b[2..][1..] == b[3..] && b[3..][1..] == b[4..];
    hide Big;
  }

  // ---------------------------------------------------------------- one chunk, byte by byte

  const INNER: Proto := Proto(Front(Some([0x40, 0x61]), 1, 2, 0, 0, 0, 2, [], []), [], NO_DEBUG)
  const SAMPLE: Proto :=
    Proto(Front(Some([0x40, 0x61]), 258, 3, 1, 2, 3, 4, [5, -2],
                [Nil, Boolean(true), Number([1, 2, 3, 4, 5, 6, 7, 8]), String(Some([0x78]))]),
          [INNER], Debug([7], [LocVar(Some([0x79]), 8, 9)], [Some([0x7A])]))

  /** The bytes of one integer below 256. */
  function Four(b: byte): seq<byte>
  {
    [b, 0, 0, 0]
  }

  function Eight(b: byte): seq<byte>
  {
    [b, 0, 0, 0, 0, 0, 0, 0]
  }

  lemma SmallInt(b: byte)
    ensures PutInt(b) == Four(b) && PutSize(b) == Eight(b)
  {
    IntBytes(b);
    SizeBytes(b);
    hide Little;
  }

  lemma OneLetter(c: byte)
    ensures PutString(Some([c])) == Eight(2) + [c, 0]
  {
    SmallInt(2);
    var t: Str := [c];
    assert PutString(Some(t)) == PutSize(2) + t + [0];
    hide PutSize;
  }

  lemma SampleFront()
    ensures PutFront(SAMPLE.front, SAMPLE.front.source) ==
              Eight(3) + [0x40, 0x61, 0] + [2, 1, 0, 0] + Four(3) + [1, 2, 3, 4] + (Four(2) + (Four(5) + [0xFE, 0xFF, 0xFF, 0xFF]))
              + (Four(4) + ([0] + ([1, 1] + ([3, 1, 2, 3, 4, 5, 6, 7, 8] + ([4] + (Eight(2) + [0x78, 0]))))))
  {
    SampleName();
    SampleInts();
    SampleCode();
    SampleConsts();
    hide PutInt, PutSize, PutString, PutAll, PutConst, Four, Eight;
    assert SAMPLE.front.source == Some([0x40, 0x61]) && |SAMPLE.front.code| == 2 && |SAMPLE.front.k| == 4;
  }

  lemma SampleInts()
    ensures PutInt(2) == Four(2) && PutInt(3) == Four(3) && PutInt(4) == Four(4) && PutInt(258) == [2, 1, 0, 0]
  {
    SmallInt(2);
    SmallInt(3);
    SmallInt(4);
    IntBytes(258);
    hide PutInt;
  }

  lemma SampleName()
    ensures PutString(Some([0x40, 0x61])) == Eight(3) + [0x40, 0x61, 0]
  {
    SmallInt(3);
    var t: Str := [0x40, 0x61];
    assert PutString(Some(t)) == PutSize(3) + t + [0];
    hide PutSize;
  }

  lemma SampleCode()
    ensures PutAll(PutInt, [5, -2]) == Four(5) + [0xFE, 0xFF, 0xFF, 0xFF]
  {
    SmallInt(5);
    IntBytes(-2);
    var xs: seq<int> := [5, -2];
    assert xs[1..] == [-2] && xs[1..][1..] == [];
    assert PutAll(PutInt, xs[1..]) == PutInt(-2) + PutAll(PutInt, xs[1..][1..]);
    hide PutInt;
  }

  lemma SampleConsts()
    ensures PutAll(PutConst, SAMPLE.front.k) == [0] + ([1, 1] + ([3, 1, 2, 3, 4, 5, 6, 7, 8] + ([4] + (Eight(2) + [0x78, 0]))))
  {
    var k := SAMPLE.front.k;
    ConstBytes();
    PutNext(k);
    PutNext(k[1..]);
    PutNext(k[2..]);
    PutNext(k[3..]);
    PutNothing();
    assert |k| == 4 && k[1..][1..] == k[2..] && k[2..][1..] == k[3..] && k[3..][1..] == [];
    assert k[1..][0] == k[1] && k[2..][0] == k[2] && k[3..][0] == k[3];
    hide *;
    assert PutConst(k[3]) + [] == PutConst(k[3]);
  }

  lemma ConstBytes()
    ensures var k := SAMPLE.front.k;
            && PutConst(k[0]) == [0] && PutConst(k[1]) == [1, 1] && PutConst(k[2]) == [3, 1, 2, 3, 4, 5, 6, 7, 8]
            && PutConst(k[3]) == [4] + (Eight(2) + [0x78, 0])
  {
    OneLetter(0x78);
    hide PutString, Eight;
    var n: seq<byte> := [1, 2, 3, 4, 5, 6, 7, 8];
    assert PutConst(SAMPLE.front.k[2]) == [3] + n;
  }

  lemma PutNext(k: seq<Const>)
    requires k != []
    ensures PutAll(PutConst, k) == PutConst(k[0]) + PutAll(PutConst, k[1..])
  {
  }

  lemma PutNothing()
    ensures PutAll(PutConst, []) == []
  {
  }

  lemma InnerBytes()
    ensures PutFunction(INNER, Some([0x40, 0x61]), false) ==
              Eight(0) + Four(1) + Four(2) + [0, 0, 0, 2] + Four(0) + Four(0) + Four(0) + (Four(0) + Four(0) + Four(0))
  {
    SmallInt(0);
    SmallInt(1);
    SmallInt(2);
    hide PutInt, PutSize;
    assert PutString(None) == Eight(0);
    var ints: seq<int> := [];
    var consts: seq<Const> := [];
    assert PutVector(PutInt, ints) == Four(0) && PutVector(PutConst, consts) == Four(0);
    NoDebugBytes();
    hide PutVector, PutDebug, PutString;
  }

  lemma NoDebugBytes()
    ensures PutDebug(NO_DEBUG) == Four(0) + Four(0) + Four(0)
  {
    SmallInt(0);
    hide PutInt;
  }

  lemma SampleDebug()
    ensures PutDebug(SAMPLE.debug) ==
              (Four(1) + Four(7)) + (Four(1) + (Eight(2) + [0x79, 0] + Four(8) + Four(9))) + (Four(1) + (Eight(2) + [0x7A, 0]))
  {
    SmallInt(1);
    SmallInt(7);
    SmallInt(8);
    SmallInt(9);
    OneLetter(0x79);
    OneLetter(0x7A);
    hide PutInt, PutString;
    var d := SAMPLE.debug;
    assert PutAll(PutInt, d.lineinfo) == PutInt(7) + [];
    assert PutAll(PutLocVar, d.locvars) == PutLocVar(d.locvars[0]) + [];
    assert PutAll(PutString, d.upvalues) == PutString(Some([0x7A])) + [];
    hide PutAll;
  }

  /**
   A whole chunk with something in every field: header; name, lines, the four bytes, code and constants;
   the one function inside, its name left out because it is the outer one's; and the debug information.
   */
  lemma SampleBytes()
    ensures Dump(SAMPLE, false) ==
              [0x1B, 0x4C, 0x75, 0x61, 0x51, 0, 1, 4, 8, 4, 8, 0]
              + (Eight(3) + [0x40, 0x61, 0] + [2, 1, 0, 0] + Four(3) + [1, 2, 3, 4] + (Four(2) + (Four(5) + [0xFE, 0xFF, 0xFF, 0xFF]))
                 + (Four(4) + ([0] + ([1, 1] + ([3, 1, 2, 3, 4, 5, 6, 7, 8] + ([4] + (Eight(2) + [0x78, 0]))))))
                 + Four(1)
                 + (Eight(0) + Four(1) + Four(2) + [0, 0, 0, 2] + Four(0) + Four(0) + Four(0) + (Four(0) + Four(0) + Four(0)))
                 + ((Four(1) + Four(7)) + (Four(1) + (Eight(2) + [0x79, 0] + Four(8) + Four(9))) + (Four(1) + (Eight(2) + [0x7A, 0]))))
  {
    SampleFront();
    InnerBytes();
    SampleDebug();
    SmallInt(1);
    hide PutFront, PutDebug, PutInt;
    SampleWhole();
    hide PutFunction, Four, Eight;
  }

  lemma SampleWhole()
    ensures PutFunction(SAMPLE, None, false) ==
              PutFront(SAMPLE.front, SAMPLE.front.source) + PutInt(1) + PutFunction(INNER, Some([0x40, 0x61]), false) + PutDebug(SAMPLE.debug)
  {
    hide PutFront, PutDebug, PutInt;
    assert Shown(SAMPLE, None, false) == SAMPLE.front.source && |SAMPLE.p| == 1;
    assert PutFunctions(SAMPLE.p, SAMPLE.front.source, false) == PutFunction(INNER, Some([0x40, 0x61]), false) + PutFunctions([], SAMPLE.front.source, false);
    assert PutFunctions([], SAMPLE.front.source, false) == [];
  }
}
