/**
 The length of a table, which is some border of it, and traversals: every entry is
 visited once, even if visited entries are removed on the way.
 */
module LuaTraverse {
  import opened LuaChains
  import opened LuaSizes
  import opened Powers
  import opened LuaTable
  import opened LuaTableOps

  const MAX_INT := 2147483647

  // ---------------------------------------------------------------- borders


  /** b is zero or has a value, and b + 1 has none. */
  ghost predicate Border(arr: seq<Value>, node: seq<Node>, b: int)
  {
    b >= 0 && (b == 0 || Get(arr, node, IntKey(b)) != NilV) && Get(arr, node, IntKey(b + 1)) == NilV
  }

  /** The integer keys of the nodes from p on. */
  ghost function NodeInts(node: seq<Node>, p: nat): set<int>
    decreases |node| - p
  {
    if p >= |node| then {} else NodeInts(node, p + 1) + if node[p].key.IntKey? then {node[p].key.n} else {}
  }

  lemma {:induction false} NodeIntsSize(node: seq<Node>, p: nat)
    requires p <= |node|
    ensures |NodeInts(node, p)| <= |node| - p
    decreases |node| - p
  {
    if p < |node| {
      NodeIntsSize(node, p + 1);
    }
  }

  lemma {:induction false} NodeIntsHas(node: seq<Node>, p: nat, q: nat)
    requires p <= q < |node| && node[q].key.IntKey?
    ensures node[q].key.n in NodeInts(node, p)
    decreases q - p
  {
    if p < q {
      NodeIntsHas(node, p + 1, q);
    }
  }

  predicate Between(k: int, i: int)
  {
    1 <= k < i
  }

  function Below(i: int): set<int>
  {
    set k | 1 <= k < i && Between(k, i)
  }

  lemma {:induction false} BelowSize(i: nat)
    requires i >= 1
    ensures |Below(i)| == i - 1
  {
    if i > 1 {
      BelowSize(i - 1);
      assert Below(i) == Below(i - 1) + {i - 1};
    } else {
      assert Below(1) == {};
    }
  }

  /** A table with values for all of 1..i-1 has at least so many slots. */
  lemma SlotsEnough(arr: seq<Value>, node: seq<Node>, i: nat)
    requires i >= 1 && forall k: int :: 1 <= k < i ==> Get(arr, node, IntKey(k)) != NilV
    ensures i - 1 <= |arr| + |node|
  {
    var inArr := Below(|arr| + 1);
    BelowSize(|arr| + 1);
    NodeIntsSize(node, 0);
    BelowSize(i);
    hide Get, NodeInts;
    forall k | k in Below(i) ensures k in inArr + NodeInts(node, 0) {
      if k > |arr| {
        InNodes(arr, node, k);
      }
    }
    SubsetSize(Below(i), inArr + NodeInts(node, 0));
  }

  lemma InNodes(arr: seq<Value>, node: seq<Node>, k: int)
    requires k > |arr| && Get(arr, node, IntKey(k)) != NilV
    ensures k in NodeInts(node, 0)
  {
    if q: int :| At(node, q, IntKey(k)) {
      NodeIntsHas(node, 0, q);
    } else {
      EntryNone(node, IntKey(k));
    }
  }

  lemma SizesSmall()
    ensures MaxSize() == 67108864
  {
    assert Pow2(4) == 16;
    assert Pow2(8) == 256;
    assert Pow2(12) == 4096;
    assert Pow2(16) == 65536;
    assert Pow2(20) == 1048576;
    assert Pow2(24) == 16777216;
  }

  lemma TableSmall(t: Table)
    requires t.Valid()
    ensures |t.arr| + |t.node| <= 134217728
  {
    SizesSmall();
    hide Chains;
  }

  /** A border at or beyond j, or, should doubling overflow, the first one. */
  method UnboundSearch(t: Table, j0: nat) returns (b: nat)
    requires t.Valid() && j0 < MAX_INT && (j0 == 0 || Get(t.arr, t.node, IntKey(j0)) != NilV)
    ensures Border(t.arr, t.node, b) && b < MAX_INT
  {
    hide Get, Good;
    TableSmall(t);
    var i, j := j0, j0 + 1;
    var v := t.Read(IntKey(j));
    while v != NilV
      invariant 0 <= i < j <= MAX_INT && (i == 0 || Get(t.arr, t.node, IntKey(i)) != NilV) && v == Get(t.arr, t.node, IntKey(j))
      decreases MAX_INT - i
    {
      i := j;
      j := j * 2;
      if j > MAX_INT {
        b := LinearSearch(t);
        return;
      }
      v := t.Read(IntKey(j));
    }
    while j - i > 1
      invariant 0 <= i < j <= MAX_INT && (i == 0 || Get(t.arr, t.node, IntKey(i)) != NilV) && Get(t.arr, t.node, IntKey(j)) == NilV
    {
      var m := (i + j) / 2;
      v := t.Read(IntKey(m));
      if v == NilV {
        j := m;
      } else {
        i := m;
      }
    }
    b := i;
  }

  method LinearSearch(t: Table) returns (b: nat)
    requires t.Valid()
    ensures Border(t.arr, t.node, b) && b < MAX_INT
  {
    hide Get, Good;
    TableSmall(t);
    var i := 1;
    var v := t.Read(IntKey(i));
    while v != NilV
      invariant 1 <= i && v == Get(t.arr, t.node, IntKey(i)) && forall k: int :: 1 <= k < i ==> Get(t.arr, t.node, IntKey(k)) != NilV
      decreases |t.arr| + |t.node| + 2 - i
    {
      i := i + 1;
      SlotsEnough(t.arr, t.node, i);
      v := t.Read(IntKey(i));
    }
    SlotsEnough(t.arr, t.node, i);
    b := i - 1;
  }

  /** The length of a table. */
  method GetN(t: Table) returns (b: nat)
    requires t.Valid()
    ensures Border(t.arr, t.node, b)
  {
    hide Good;
    TableSmall(t);
    var j := |t.arr|;
    if j > 0 && t.arr[j - 1] == NilV {
      var i := 0;
      while j - i > 1
        invariant 0 <= i < j <= |t.arr| && (i == 0 || t.arr[i - 1] != NilV) && t.arr[j - 1] == NilV
      {
        var m := (i + j) / 2;
        if t.arr[m - 1] == NilV {
          j := m;
        } else {
          i := m;
        }
      }
      return i;
    }
    if t.dummy {
      DummyEmpty(t, IntKey(j + 1));
      return j;
    }
    b := UnboundSearch(t, j);
  }

  lemma DummyEmpty(t: Table, k: Key)
    requires t.Valid() && t.dummy
    ensures Entry(t.node, k) == NilV
  {
    assert t.node[0].key == NilKey && |t.node| == 1;
    EntryNone(t.node, k);
    hide Chains, MaxSize;
  }

  // ---------------------------------------------------------------- traversals

  /** The slots of a table in the order in which they are visited. */
  function SlotKey(arr: seq<Value>, node: seq<Node>, i: nat): Key
    requires i < |arr| + |node|
  {
    if i < |arr| then IntKey(i + 1) else node[i - |arr|].key
  }

  function SlotVal(arr: seq<Value>, node: seq<Node>, i: nat): Value
    requires i < |arr| + |node|
  {
    if i < |arr| then arr[i] else node[i - |arr|].val
  }

  /** The first slot from i on that has a value. */
  function NextSlot(arr: seq<Value>, node: seq<Node>, i: nat): (r: nat)
    requires i <= |arr| + |node|
    ensures i <= r <= |arr| + |node|
    ensures r < |arr| + |node| ==> SlotVal(arr, node, r) != NilV
    ensures forall j :: i <= j < r ==> SlotVal(arr, node, j) == NilV
    decreases |arr| + |node| - i
  {
    if i == |arr| + |node| || SlotVal(arr, node, i) != NilV then i else NextSlot(arr, node, i + 1)
  }

  datatype Step = Visit(i: nat, k: Key, v: Value) | Done | InvalidKey

  /** The slot of the key of the last visit, -1 before the first. */
  ghost predicate IsIndex(arr: seq<Value>, node: seq<Node>, k: Key, i: int)
  {
    if k == NilKey then i == -1 else 0 <= i < |arr| + |node| && SlotKey(arr, node, i) == k
  }

  method FindIndex(t: Table, k: Key) returns (i: int, ok: bool)
    requires t.Valid()
    ensures ok ==> IsIndex(t.arr, t.node, k, i)
    ensures !ok ==> k != NilKey && !Present(t.arr, t.node, k)
  {
    if k == NilKey {
      return -1, true;
    }
    var s := t.Find(k);
    hide Good;
    PresentIs(t.arr, t.node, k, s);
    match s
    case ArrSlot(a) => i, ok := a, true;
    case NodeSlot(p) => i, ok := p + |t.arr|, true;
    case Absent => i, ok := -1, false;
  }

  /** The entry after the one whose key is k. */
  method Next(t: Table, k: Key) returns (r: Step)
    requires t.Valid()
    ensures r == InvalidKey ==> k != NilKey && !Present(t.arr, t.node, k)
    ensures r != InvalidKey ==> exists i: int :: IsIndex(t.arr, t.node, k, i) && Visits(t.arr, t.node, i, r)
  {
    hide Good, Present;
    var i, ok := FindIndex(t, k);
    if !ok {
      return InvalidKey;
    }
    ghost var last := i;
    i := i + 1;
    while i < |t.arr|
      invariant last + 1 <= i && (i <= |t.arr| || i == last + 1) && i <= |t.arr| + |t.node|
      invariant NextSlot(t.arr, t.node, last + 1) == NextSlot(t.arr, t.node, i)
    {
      if t.arr[i] != NilV {
        r := Visit(i, IntKey(i + 1), t.arr[i]);
        assert Visits(t.arr, t.node, last, r);
        return;
      }
      i := i + 1;
    }
    i := i - |t.arr|;
    while i < |t.node|
      invariant 0 <= i <= |t.node| && last + 1 <= i + |t.arr|
      invariant NextSlot(t.arr, t.node, last + 1) == NextSlot(t.arr, t.node, i + |t.arr|)
    {
      if t.node[i].val != NilV {
        r := Visit(i + |t.arr|, t.node[i].key, t.node[i].val);
        assert Visits(t.arr, t.node, last, r);
        return;
      }
      i := i + 1;
    }
    r := Done;
    assert Visits(t.arr, t.node, last, r);
  }

  /** The step goes to the first slot behind i that has a value. */
  predicate Visits(arr: seq<Value>, node: seq<Node>, i: int, r: Step)
  {
    -1 <= i < |arr| + |node| &&
    var n := NextSlot(arr, node, i + 1);
    if n < |arr| + |node| then r == Visit(n, SlotKey(arr, node, n), SlotVal(arr, node, n)) else r == Done
  }

  // ---------------------------------------------------------------- whole traversals

  /** The table at one moment of a traversal. */
  datatype Moment = Moment(arr: seq<Value>, node: seq<Node>)

  /** Keys are in one slot each, and slots with a value have a key. */
  ghost predicate Sound(m: Moment)
  {
    && (forall i, j :: 0 <= i < j < |m.arr| + |m.node| && SlotKey(m.arr, m.node, i) != NilKey ==> SlotKey(m.arr, m.node, i) != SlotKey(m.arr, m.node, j))
    && forall i :: 0 <= i < |m.arr| + |m.node| && SlotVal(m.arr, m.node, i) != NilV ==> SlotKey(m.arr, m.node, i) != NilKey
  }

  lemma ValidSound(h: Hash, arr: seq<Value>, node: seq<Node>, lastfree: int, dummy: bool, at: seq<Pos>)
    requires Good(h, arr, node, lastfree, dummy, at)
    ensures Sound(Moment(arr, node))
  {
    hide MaxSize;
    forall i, j | 0 <= i < j < |arr| + |node| && SlotKey(arr, node, i) != NilKey ensures SlotKey(arr, node, i) != SlotKey(arr, node, j) {
      if j >= |arr| {
        assert NodeOk(arr, node[j - |arr|]);
        if i >= |arr| {
          assert Differ(node, at, i - |arr|, j - |arr|);
        }
      }
    }
    hide Chains;
    forall i | 0 <= i < |arr| + |node| && SlotVal(arr, node, i) != NilV ensures SlotKey(arr, node, i) != NilKey {
      if i >= |arr| {
        assert NodeOk(arr, node[i - |arr|]);
      }
    }
  }

  /** The key a step starts from: that of the step before. */
  function From(steps: seq<Step>, i: nat): Key
    requires i <= |steps|
  {
    if i == 0 || !steps[i - 1].Visit? then NilKey else steps[i - 1].k
  }

  /** The index of that key's slot. */
  function FromIndex(steps: seq<Step>, i: nat): int
    requires i <= |steps|
  {
    if i == 0 || !steps[i - 1].Visit? then -1 else steps[i - 1].i
  }

  ghost predicate Goes(m: Moment, k: Key, r: Step)
  {
    exists i: int :: IsIndex(m.arr, m.node, k, i) && Visits(m.arr, m.node, i, r)
  }

  /** Each step is taken in the table as it is then; between steps values change, but no keys are added. */
  ghost predicate Traversal(moments: seq<Moment>, steps: seq<Step>)
  {
    && |moments| == |steps| > 0 && steps[|steps| - 1] == Done
    && (forall i :: 0 <= i < |steps| - 1 ==> steps[i].Visit?)
    && (forall i :: 0 <= i < |steps| ==> Sound(moments[i]) && SameShape(moments[0].arr, moments[0].node, moments[i].arr, moments[i].node))
    && forall i :: 0 <= i < |steps| ==> Goes(moments[i], From(steps, i), steps[i])
  }

  lemma ShapeKeys(a: Moment, b: Moment, i: nat)
    requires SameShape(a.arr, a.node, b.arr, b.node) && i < |a.arr| + |a.node|
    ensures |b.arr| + |b.node| == |a.arr| + |a.node| && SlotKey(b.arr, b.node, i) == SlotKey(a.arr, a.node, i)
  {
  }

  /** A step goes on from the slot of the step before. */
  lemma StepFrom(moments: seq<Moment>, steps: seq<Step>, i: nat)
    requires Traversal(moments, steps) && i < |steps|
    ensures Visits(moments[i].arr, moments[i].node, FromIndex(steps, i), steps[i])
  {
    hide *;
    StartShape(moments, steps, i);
    var x := GoesAt(moments, steps, i);
    if i > 0 {
      StepKey(moments, steps, i - 1);
      StartShape(moments, steps, i - 1);
      FromIs(steps, i);
      ShapeKeys(moments[0], moments[i - 1], steps[i - 1].i);
      ShapeKeys(moments[0], moments[i], steps[i - 1].i);
      IndexOnly(moments[i], From(steps, i), x, steps[i - 1].i);
    } else {
      FromStart(moments[0], steps, x);
    }
  }

  lemma FromStart(m: Moment, steps: seq<Step>, x: int)
    requires IsIndex(m.arr, m.node, From(steps, 0), x)
    ensures x == FromIndex(steps, 0)
  {
  }

  lemma IndexOnly(m: Moment, k: Key, x: int, y: nat)
    requires Sound(m) && IsIndex(m.arr, m.node, k, x) && k != NilKey && y < |m.arr| + |m.node| && SlotKey(m.arr, m.node, y) == k
    ensures x == y
  {
    hide SlotKey;
  }

  lemma GoesAt(moments: seq<Moment>, steps: seq<Step>, i: nat) returns (x: int)
    requires Traversal(moments, steps) && i < |steps| == |moments|
    ensures IsIndex(moments[i].arr, moments[i].node, From(steps, i), x) && Visits(moments[i].arr, moments[i].node, x, steps[i])
  {
    hide Sound, SameShape, IsIndex, Visits, From;
    assert Goes(moments[i], From(steps, i), steps[i]);
    x :| IsIndex(moments[i].arr, moments[i].node, From(steps, i), x) && Visits(moments[i].arr, moments[i].node, x, steps[i]);
  }

  lemma StepKey(moments: seq<Moment>, steps: seq<Step>, i: nat)
    requires Traversal(moments, steps) && i < |steps| - 1 && |moments| == |steps|
    ensures var m := moments[i]; steps[i].Visit? && steps[i].i < |m.arr| + |m.node| && steps[i].k == SlotKey(m.arr, m.node, steps[i].i) && steps[i].k != NilKey
    ensures |moments[0].arr| + |moments[0].node| == |moments[i].arr| + |moments[i].node|
  {
    hide *;
    StartShape(moments, steps, i);
    NotLast(moments, steps, i);
    var x := GoesAt(moments, steps, i);
    VisitKey(moments[i], x, steps[i]);
    SameSize(moments[0], moments[i]);
  }

  lemma NotLast(moments: seq<Moment>, steps: seq<Step>, i: nat)
    requires Traversal(moments, steps) && i < |steps| - 1
    ensures steps[i].Visit?
  {
    hide Goes, SameShape, Sound;
  }

  lemma VisitKey(m: Moment, x: int, r: Step)
    requires Sound(m) && Visits(m.arr, m.node, x, r) && r.Visit?
    ensures r.i < |m.arr| + |m.node| && r.k == SlotKey(m.arr, m.node, r.i) && r.k != NilKey
  {
    hide SlotKey;
  }

  lemma SameSize(a: Moment, b: Moment)
    requires SameShape(a.arr, a.node, b.arr, b.node)
    ensures |a.arr| + |a.node| == |b.arr| + |b.node|
  {
  }

  lemma {:induction false} Increasing(moments: seq<Moment>, steps: seq<Step>, i: nat, j: nat)
    requires Traversal(moments, steps) && i < j < |steps| - 1
    ensures steps[i].Visit? && steps[j].Visit? && steps[i].i < steps[j].i
    decreases j
  {
    hide *;
    StartShape(moments, steps, j);
    StepFrom(moments, steps, j);
    StepKey(moments, steps, j);
    StepKey(moments, steps, j - 1);
    FromIs(steps, j);
    Onward(moments[j], FromIndex(steps, j), steps[j]);
    if i < j - 1 {
      Increasing(moments, steps, i, j - 1);
    }
  }

  lemma FromIs(steps: seq<Step>, j: nat)
    requires 0 < j <= |steps| && steps[j - 1].Visit?
    ensures FromIndex(steps, j) == steps[j - 1].i && From(steps, j) == steps[j - 1].k
  {
  }

  lemma Onward(m: Moment, i: int, r: Step)
    requires Visits(m.arr, m.node, i, r)
    ensures r.Visit? ==> r.i > i
    ensures r == Done ==> forall x :: i < x < |m.arr| + |m.node| ==> SlotVal(m.arr, m.node, x) == NilV
  {
  }

  /** No entry is visited twice. */
  lemma VisitedOnce(moments: seq<Moment>, steps: seq<Step>, i: nat, j: nat)
    requires Traversal(moments, steps) && i < j < |steps| - 1
    ensures steps[i].Visit? && steps[j].Visit? && steps[i].k != steps[j].k
  {
    hide *;
    StartShape(moments, steps, i);
    StartShape(moments, steps, j);
    Increasing(moments, steps, i, j);
    StepKey(moments, steps, i);
    StepKey(moments, steps, j);
    ShapeKeys(moments[0], moments[i], steps[i].i);
    ShapeKeys(moments[0], moments[j], steps[i].i);
    OneSlot(moments[j], steps[i].i, steps[j].i);
  }

  lemma OneSlot(m: Moment, i: nat, j: nat)
    requires Sound(m) && i < j < |m.arr| + |m.node|
    ensures SlotKey(m.arr, m.node, i) != NilKey ==> SlotKey(m.arr, m.node, i) != SlotKey(m.arr, m.node, j)
  {
    hide SlotKey;
  }

  /** A slot that has a value at every moment. */
  ghost predicate Stays(moments: seq<Moment>, x: nat)
  {
    forall i :: 0 <= i < |moments| ==> x < |moments[i].arr| + |moments[i].node| && SlotVal(moments[i].arr, moments[i].node, x) != NilV
  }

  ghost predicate VisitedBy(steps: seq<Step>, n: nat, x: nat)
  {
    exists i :: 0 <= i < n && i < |steps| && steps[i].Visit? && steps[i].i == x
  }

  lemma {:induction false} VisitedUpTo(moments: seq<Moment>, steps: seq<Step>, n: nat, x: nat)
    requires Traversal(moments, steps) && n < |steps| && Stays(moments, x) && x <= FromIndex(steps, n)
    ensures VisitedBy(steps, n, x)
    decreases n
  {
    hide *;
    StartShape(moments, steps, n);
    FromZero(steps);
    if n > 0 {
      StepFrom(moments, steps, n - 1);
      NotLast(moments, steps, n - 1);
      FromIs(steps, n);
      StaysAt(moments, x, n - 1);
      PassedOver(moments[n - 1], FromIndex(steps, n - 1), steps[n - 1], x);
      if x == steps[n - 1].i {
        VisitedLast(steps, n, x);
      } else {
        VisitedUpTo(moments, steps, n - 1, x);
        MoreSteps(steps, n - 1, n, x);
      }
    }
  }

  lemma FromZero(steps: seq<Step>)
    ensures FromIndex(steps, 0) == -1
  {
  }

  lemma VisitedLast(steps: seq<Step>, n: nat, x: nat)
    requires 0 < n <= |steps| && steps[n - 1].Visit? && steps[n - 1].i == x
    ensures VisitedBy(steps, n, x)
  {
  }

  /** Slots that a step passes over have no value. */
  lemma PassedOver(m: Moment, i: int, r: Step, x: nat)
    requires Visits(m.arr, m.node, i, r) && r.Visit? && x <= r.i && x < |m.arr| + |m.node| && SlotVal(m.arr, m.node, x) != NilV
    ensures x == r.i || x <= i
  {
  }

  lemma MoreSteps(steps: seq<Step>, n: nat, n': nat, x: nat)
    requires VisitedBy(steps, n, x) && n <= n'
    ensures VisitedBy(steps, n', x)
  {
  }

  /** Every entry that is there throughout is visited. */
  lemma AllVisited(moments: seq<Moment>, steps: seq<Step>, x: nat)
    requires Traversal(moments, steps) && Stays(moments, x) && x < |moments[0].arr| + |moments[0].node|
    ensures exists i :: 0 <= i < |steps| && steps[i].Visit? && steps[i].i == x && steps[i].k == SlotKey(moments[0].arr, moments[0].node, x)
  {
    hide *;
    var n := LastStep(moments, steps);
    StepFrom(moments, steps, n);
    var m := moments[n];
    StaysAt(moments, x, n);
    Onward(m, FromIndex(steps, n), Done);
    VisitedUpTo(moments, steps, n, x);
    var i := TheVisit(steps, n, x);
    StepKey(moments, steps, i);
    StartShape(moments, steps, i);
    ShapeKeys(moments[0], moments[i], x);
  }

  lemma LastStep(moments: seq<Moment>, steps: seq<Step>) returns (n: nat)
    requires Traversal(moments, steps)
    ensures n == |steps| - 1 && |moments| == |steps| && steps[n] == Done
  {
    hide Goes, SameShape, Sound;
    n := |steps| - 1;
  }

  lemma StaysAt(moments: seq<Moment>, x: nat, n: nat)
    requires Stays(moments, x) && n < |moments|
    ensures x < |moments[n].arr| + |moments[n].node| && SlotVal(moments[n].arr, moments[n].node, x) != NilV
  {
  }

  lemma TheVisit(steps: seq<Step>, n: nat, x: nat) returns (i: nat)
    requires VisitedBy(steps, n, x)
    ensures i < n && i < |steps| && steps[i].Visit? && steps[i].i == x
  {
    i :| 0 <= i < n && i < |steps| && steps[i].Visit? && steps[i].i == x;
  }

  lemma StartShape(moments: seq<Moment>, steps: seq<Step>, i: nat)
    requires Traversal(moments, steps) && i < |steps|
    ensures |moments| == |steps| && Sound(moments[i]) && SameShape(moments[0].arr, moments[0].node, moments[i].arr, moments[i].node)
  {
    hide Goes, SameShape, Sound;
  }
}
