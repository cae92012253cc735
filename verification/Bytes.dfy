/** Machine bytes, shared by the network modules. */
module Bytes {

  /** An `unsigned char`. */
  type byte = x: int | 0 <= x < 256

  /** Addition in `unsigned char`: wraps at 256. */
  function Add8(a: int, b: int): (r: byte)
  {
    (a + b) % 256
  }

  /** Subtraction in `unsigned char`: wraps at 256. */
  function Sub8(a: int, b: int): (r: byte)
  {
    (a - b) % 256
  }

  lemma Assoc<T>(a: seq<T>, b: seq<T>, c: seq<T>)
    ensures (a + b) + c == a + (b + c)
  {
  }

  /** All the bytes of a list of byte strings, in order. */
  function Flatten(parts: seq<seq<byte>>): seq<byte>
  {
    if parts == [] then [] else parts[0] + Flatten(parts[1..])
  }

  lemma {:induction false} FlattenConcat(a: seq<seq<byte>>, b: seq<seq<byte>>)
    ensures Flatten(a + b) == Flatten(a) + Flatten(b)
  {
    if a == [] {
      assert a + b == b;
    } else {
      assert (a + b)[1..] == a[1..] + b;
      FlattenConcat(a[1..], b);
    }
  }

  lemma FlattenCons(x: seq<byte>, rest: seq<seq<byte>>)
    ensures Flatten([x] + rest) == x + Flatten(rest)
  {
    assert ([x] + rest)[1..] == rest;
  }

  lemma FlattenSnoc(a: seq<seq<byte>>, x: seq<byte>)
    ensures Flatten(a + [x]) == Flatten(a) + x
  {
    FlattenConcat(a, [x]);
    FlattenCons(x, []);
    assert [x] + [] == [x];
  }

  /** Flattening is monotone for the prefix order. */
  lemma {:induction false} FlattenPrefix(a: seq<seq<byte>>, b: seq<seq<byte>>)
    requires a <= b
    ensures Flatten(a) <= Flatten(b)
  {
    assert b == a + b[|a|..];
    FlattenConcat(a, b[|a|..]);
  }
}
