/**
 The operations of a Lua table, changing its two parts in place.
 */
module LuaTableOps {
  import opened LuaChains
  import opened LuaInsert
  import opened LuaSizes
  import opened Powers
  import opened LuaTable

  /** What asking for a key's slot comes to; the errors are those of an assignment to nil, to NaN, and of a table too large. */
  datatype Found = Slot(s: LuaTable.Slot) | IndexIsNil | IndexIsNaN | Overflow

  class Table {
    const h: Hash
    var arr: seq<Value>
    var node: seq<Node>
    var lastfree: int
    var dummy: bool
    ghost var at: seq<Pos>

    ghost predicate Valid()
      reads this
    {
      Good(h, arr, node, lastfree, dummy, at)
    }

    /** An empty table with room for so many keys. */
    constructor (hash: Hash, narray: nat, nhash: nat)
      requires narray <= MaxSize() && nhash <= MaxSize()
      ensures Valid() && h == hash && |arr| == narray && forall j: Key :: Get(arr, node, j) == NilV
    {
      h := hash;
      arr := seq(narray, i => NilV);
      var size := if nhash == 0 then 1 else Pow2(CeilLog2(nhash));
      node, lastfree, dummy, at := Blank(size), if nhash == 0 then 0 else size, nhash == 0, BlankAt(size);
      new;
      hide Good, Blank, BlankAt, MaxSize, CeilLog2, FreeNodes;
      NewSize(nhash);
      BlankGood(h, arr, size, nhash == 0);
    }

    // -------------------------------------------------------------- reading

    /** The slot of a key, if it has one. */
    method Find(k: Key) returns (s: LuaTable.Slot)
      requires Valid()
      ensures SlotFor(arr, node, k, s)
    {
      hide Chains, MaxSize;
      if k == NilKey {
        return Absent;
      }
      if k.IntKey? && 1 <= k.n <= |arr| {
        return ArrSlot(k.n - 1);
      }
      var n := MainPos(h, k, |node|);
      GoodChains(h, arr, node, lastfree, dummy, at);
      AheadStart(h, node, at, k);
      while true
        invariant 0 <= n < |node| && Ahead(node, at, n, k)
        decreases Rest(node, at, n)
      {
        hide Ahead, Rest, At, Good;
        if node[n].key == k && k != NaNKey {
          IsAt(node, n, k);
          return NodeSlot(n);
        }
        NotAt(h, arr, node, lastfree, dummy, at, n, k);
        GoodChains(h, arr, node, lastfree, dummy, at);
        AheadStep(h, node, at, n, k);
        if node[n].next == NONE {
          return Absent;
        }
        RestShrinks(node, at, n, node[n].next);
        n := node[n].next;
      }
    }

    /** The value of a key. */
    method Read(k: Key) returns (v: Value)
      requires Valid()
      ensures v == Get(arr, node, k)
    {
      var s := Find(k);
      hide Chains, MaxSize;
      SlotValue(h, arr, node, lastfree, dummy, at, k, s);
      match s
      case ArrSlot(i) => v := arr[i];
      case NodeSlot(p) => v := node[p].val;
      case Absent => v := NilV;
    }

    // -------------------------------------------------------------- inserting

    /** The last free node, if there is one. */
    method GetFreePos() returns (n: int)
      requires Valid()
      modifies this`lastfree
      ensures n != NONE ==> LastFree(node, n) && lastfree == n && !dummy
      ensures n == NONE ==> Valid() && (dummy || forall p :: 0 <= p < |node| ==> Used(node, p))
    {
      hide Chains, MaxSize;
      while lastfree > 0
        invariant lastfree <= |node| && (dummy ==> lastfree <= 0) && (!dummy ==> forall p :: 0 <= p < |node| && lastfree <= p ==> Used(node, p))
        decreases lastfree
      {
        lastfree := lastfree - 1;
        if node[lastfree].key == NilKey {
          return lastfree;
        }
      }
      lastfree := lastfree - 1;
      n := NONE;
    }

    /** The node that leads to m, on the chain that starts at `o`. */
    method Previous(o: nat, m: nat) returns (p: nat)
      requires Chains(h, node, at) && m < |node| && o < |node| && o != m && Used(node, m) && o == MainPos(h, node[m].key, |node|)
      ensures p < |node| && Used(node, p) && node[p].next == m
    {
      hide MaxSize;
      assert Rooted(h, node, at, m);
      assert Differ(node, at, o, m);
      p := o;
      while node[p].next != m
        invariant p < |node| && Used(node, p) && Before(at[p], at[m])
        decreases Rest(node, at, p)
      {
        hide Rest;
        assert NoSkip(node, at, p, m) && Forward(node, at, p) && Differ(node, at, node[p].next, m);
        RestShrinks(node, at, p, node[p].next);
        p := node[p].next;
      }
    }

    /** Puts a key that is not in the table into the hash part, if there is a place. */
    method InsertKey(k: Key) returns (s: LuaTable.Slot)
      requires Valid() && Settable(k) && SlotFor(arr, node, k, Absent)
      modifies this`node, this`lastfree, this`at
      ensures s == Absent ==> Valid() && node == old(node) && at == old(at) && (dummy || forall p :: 0 <= p < |node| ==> Used(node, p))
      ensures s != Absent ==> s.NodeSlot? && !dummy && Entered(h, arr, old(node), node, lastfree, at, k, s.p)
    {
      hide Chains, MaxSize, Entered, Entry, Intruder;
      GoodChains(h, arr, node, lastfree, dummy, at);
      var m := MainPos(h, k, |node|);
      if node[m].val == NilV && !dummy {
        EnterOver(h, arr, node, lastfree, at, k);
        at := OverMainAt(node, at, m);
        node := OverMain(node, m, k);
        return NodeSlot(m);
      }
      ghost var lf := lastfree;
      var n := GetFreePos();
      if n == NONE {
        return Absent;
      }
      LiveUsed(h, arr, node, lf, at, m);
      var o := MainPos(h, node[m].key, |node|);
      if o != m {
        var prev := Previous(o, m);
        IntruderIs(h, arr, node, lf, at, k, m, n, prev);
        EnterMoved(h, arr, node, lf, at, k, m, n, prev);
        at := MovedAt(at, m, n);
        node := MovedOut(node, m, n, prev, k);
        return NodeSlot(m);
      }
      EnterBehind(h, arr, node, lf, at, k, n);
      at := at[n := Middle(at, node, m)];
      node := Behind(node, m, n, k);
      s := NodeSlot(n);
    }

    // -------------------------------------------------------------- setting

    /** The slot of a key, which is given one if it has none.  `room`: no rebuilding can be needed. */
    method Set(k: Key, ghost room: bool) returns (r: Found)
      requires Valid() && (room ==> Settable(k) && Roomy(arr, node, dummy, k))
      modifies this
      ensures (k == NilKey ==> r == IndexIsNil) && (k == NaNKey ==> r == IndexIsNaN) && (Settable(k) ==> r.Slot? || r.Overflow?)
      ensures !Settable(k) ==> arr == old(arr) && node == old(node) && Valid()
      ensures r.Slot? ==> Valid() && r.s != Absent && SlotFor(arr, node, k, r.s) && SameContents(old(arr), old(node), arr, node)
      ensures room ==> r.Slot? && Steady(old(arr), old(node), old(dummy), arr, node, dummy, k)
      ensures r.Overflow? ==> InUseCount(old(arr), old(node)) >= MaxSize()
      ensures Present(old(arr), old(node), k) ==> arr == old(arr) && node == old(node) && r.Slot?
      decreases if room then 0 else 1, 1
    {
      hide Good, SlotFor, Roomy, Steady, SameContents, MaxSize, InUseCount, Settable, Present;
      SteadySelf(arr, node, dummy, k);
      IsSettable(k);
      var s := Find(k);
      NeverAt(h, arr, node, lastfree, dummy, at, k, s);
      PresentIs(arr, node, k, s);
      if s != Absent {
        return Found.Slot(s);
      }
      if k == NilKey {
        return IndexIsNil;
      }
      if k == NaNKey {
        return IndexIsNaN;
      }
      r := NewKey(k, room);
    }

    /** A slot for a new key: in the table as it is, or as it is rebuilt to have room. */
    method NewKey(k: Key, ghost room: bool) returns (r: Found)
      requires Valid() && Settable(k) && SlotFor(arr, node, k, Absent) && (room ==> Roomy(arr, node, dummy, k))
      modifies this
      ensures r.Slot? || r.Overflow?
      ensures r.Slot? ==> Valid() && r.s != Absent && SlotFor(arr, node, k, r.s) && SameContents(old(arr), old(node), arr, node)
      ensures room ==> r.Slot? && Steady(old(arr), old(node), old(dummy), arr, node, dummy, k)
      ensures r.Overflow? ==> InUseCount(old(arr), old(node)) >= MaxSize()
      decreases if room then 0 else 1, 0
    {
      hide Good, Steady, SameContents, MaxSize, InUseCount, Settable, Entered, SlotFor, Roomy;
      ghost var node0 := node;
      var s := InsertKey(k);
      if s != Absent {
        EnteredFacts(h, arr, node0, node, dummy, lastfree, at, k, s.p);
        return Found.Slot(s);
      }
      NotRoomy(arr, node, dummy, k);
      ghost var arr0 := arr;
      var ok := Rehash(k);
      if !ok {
        return Overflow;
      }
      ghost var arr1, node1 := arr, node;
      r := Set(k, true);
      SameTrans(arr0, node0, arr1, node1, arr, node);
    }

    /** Sets the value of a key. */
    method Put(k: Key, v: Value, ghost room: bool) returns (r: Found)
      requires Valid() && (room ==> Settable(k) && Roomy(arr, node, dummy, k))
      modifies this
      ensures (k == NilKey ==> r == IndexIsNil) && (k == NaNKey ==> r == IndexIsNaN) && (Settable(k) ==> r.Slot? || r.Overflow?)
      ensures !Settable(k) ==> arr == old(arr) && node == old(node) && Valid()
      ensures r.Slot? ==> Valid() && forall j: Key :: Get(arr, node, j) == if j == k then v else old(Get(arr, node, j))
      ensures room ==> r.Slot? && |arr| == |old(arr)| && dummy == old(dummy) && TookOne(old(node), node) && (InArr(arr, k) ==> node == old(node))
      ensures r.Overflow? ==> InUseCount(old(arr), old(node)) >= MaxSize()
      ensures Present(old(arr), old(node), k) ==> r.Slot? && SameShape(old(arr), old(node), arr, node)
      decreases if room then 0 else 1, 2
    {
      hide Good, Steady, SameContents, MaxSize, InUseCount, Settable, SlotFor, Get, Present, SameShape;
      IsSettable(k);
      ghost var arr0, node0, dummy0 := arr, node, dummy;
      r := Set(k, room);
      if r.Slot? {
        ghost var arr1, node1 := arr, node;
        StoreFacts(h, arr, node, lastfree, dummy, at, k, r.s, v);
        match r.s {
          case ArrSlot(i) => arr := arr[i := v];
          case NodeSlot(p) => node := node[p := node[p].(val := v)];
        }
        StoredContents(arr0, node0, arr1, node1, arr, node, k, v);
        StoredShape(arr1, node1, arr, node, k, r.s, v);
        if room {
          StoredSteady(arr0, node0, dummy0, arr1, node1, arr, node, dummy, k, r.s, v);
        }
      }
    }

    // -------------------------------------------------------------- rebuilding

    /** An empty hash part with room for so many keys. */
    method SetNodeVector(size: nat) returns (ok: bool)
      requires |arr| <= MaxSize()
      modifies this`node, this`lastfree, this`dummy, this`at
      ensures ok ==> Valid() && Budget(node, dummy, size) && forall j: Key :: Entry(node, j) == NilV
      ensures ok ==> Holding(|node|, dummy, size)
      ensures !ok ==> size > MaxSize()
    {
      hide Good, Blank, BlankAt, FreeNodes, MaxSize, CeilLog2, Holding;
      OneFits();
      HoldingIs(size);
      if size == 0 {
        BlankGood(h, arr, 1, true);
        node, lastfree, dummy, at := Blank(1), 0, true, BlankAt(1);
        return true;
      }
      CeilLog2Is(size);
      if CeilLog2(size) > MAXBITS {
        TooLarge(size);
        return false;
      }
      var n := Pow2(CeilLog2(size));
      SizeFits(size);
      BlankGood(h, arr, n, false);
      node, lastfree, dummy, at := Blank(n), n, false, BlankAt(n);
      ok := true;
    }

    /** New sizes for both parts; all entries are inserted again. */
    method Resize(nasize: nat, nhsize: nat) returns (ok: bool)
      requires Valid() && nasize <= MaxSize() && ArrLeft(arr, nasize) + Outside(node, 0, nasize) <= nhsize
      modifies this
      ensures ok ==> Valid() && |arr| == nasize && Holding(|node|, dummy, nhsize) && SameContents(old(arr), old(node), arr, node)
      ensures ok ==> Budget(node, dummy, nhsize - ArrLeft(old(arr), nasize) - Outside(old(node), 0, nasize))
      ensures !ok ==> nhsize > MaxSize()
      decreases 0, 3
    {
      hide Good, MaxSize, Budget, ArrLeft, Outside, FromArr, FromNodes, Get, TookOne, SameContents, Settable, Roomy, Chains, Holding;
      var arr0, node0 := arr, node;
      ghost var lf0, d0, at0 := lastfree, dummy, at;
      GoodSize(h, arr, node, lastfree, dummy, at);
      if nasize > |arr| {
        arr := arr + seq(nasize - |arr|, i => NilV);
      }
      ok := SetNodeVector(nhsize);
      if !ok {
        return;
      }
      var i := |arr0|;
      if nasize < |arr0| {
        i := nasize;
        ShrunkGood(h, arr, node, lastfree, dummy, at, nasize);
        arr := arr[..nasize];
      }
      ResizeStart(arr0, arr, node, nasize, i);
      while i < |arr0|
        invariant Valid() && |arr| == nasize && Holding(|node|, dummy, nhsize) && i <= |arr0| && (i < |arr0| ==> nasize <= i)
        invariant forall j: Key :: Get(arr, node, j) == FromArr(arr0, i, j)
        invariant Budget(node, dummy, nhsize - ArrLeft(arr0, nasize) + ArrLeft(arr0, i))
        decreases |arr0| - i
      {
        LeftNext(arr0, i);
        if arr0[i] != NilV {
          IsSettable(IntKey(i + 1));
          BudgetRoomy(arr, node, dummy, nhsize - ArrLeft(arr0, nasize) + ArrLeft(arr0, i), IntKey(i + 1));
          ghost var was := node;
          var _ := Put(IntKey(i + 1), arr0[i], true);
          BudgetTook(was, node, dummy, nhsize - ArrLeft(arr0, nasize) + ArrLeft(arr0, i));
        }
        FromArrNext(arr0, i);
        i := i + 1;
      }
      LeftNone(arr0);
      var p := |node0|;
      FromNodesStart(h, arr0, node0, lf0, d0, at0);
      while p > 0
        invariant Valid() && |arr| == nasize && Holding(|node|, dummy, nhsize) && 0 <= p <= |node0|
        invariant forall j: Key :: Get(arr, node, j) == FromNodes(arr0, node0, p, j)
        invariant Budget(node, dummy, nhsize - ArrLeft(arr0, nasize) - Outside(node0, p, nasize))
      {
        p := p - 1;
        FromNodesNext(h, arr0, node0, lf0, d0, at0, p);
        OutsideNext(node0, p, nasize);
        if node0[p].val != NilV {
          LiveSettable(h, arr0, node0, lf0, d0, at0, p);
          ghost var need := nhsize - ArrLeft(arr0, nasize) - Outside(node0, p + 1, nasize);
          BudgetRoomy(arr, node, dummy, need, node0[p].key);
          ghost var was := node;
          var _ := Put(node0[p].key, node0[p].val, true);
          BudgetTook(was, node, dummy, need);
        }
      }
      FromNodesEnd(h, arr0, node0, lf0, d0, at0, arr, node);
    }

    /** Makes room for the key, with the sizes that fit what is in use. */
    method Rehash(k: Key) returns (ok: bool)
      requires Valid() && Settable(k) && SlotFor(arr, node, k, Absent)
      modifies this
      ensures ok ==> Valid() && SameContents(old(arr), old(node), arr, node) && Roomy(arr, node, dummy, k)
      ensures ok ==> BestSize(IntKeys(old(arr), old(node), k), |arr|)
      ensures ok ==> Holding(|node|, dummy, InUseCount(old(arr), old(node)) + 1 - Count(IntKeys(old(arr), old(node), k), |arr|))
      ensures !ok ==> InUseCount(old(arr), old(node)) >= MaxSize()
      decreases 0, 4
    {
      hide Good, MaxSize, Budget, ArrLeft, Outside, SameContents, Settable, Roomy, NumsFor, ArrInts, HashInts, Live, BestSize, Count, SlotFor, Holding;
      var nums := seq(MAXBITS + 1, i => 0);
      NumsEmpty(nums);
      ghost var a, hs := ArrInts(arr, |arr|), HashInts(node, 0);
      UseFacts(h, arr, node, lastfree, dummy, at, k);
      var nasize, totaluse, c, na, ause;
      nums, nasize := NumUseArray(arr, nums);
      totaluse := nasize;
      nums, c, ause := NumUseHash(node, nums, a);
      totaluse := totaluse + c;
      nasize := nasize + ause;
      nums, c := CountInt(k, nums, a + hs);
      nasize := nasize + c;
      totaluse := totaluse + 1;
      ghost var s := IntKeys(arr, node, k);
      UsedInts(a, hs, k);
      nasize, na := ComputeSizes(nums, nasize, s);
      SizesFit(h, arr, node, lastfree, dummy, at, k, nasize, na, s);
      ok := Resize(nasize, totaluse - na);
      if ok {
        BudgetRoomy(arr, node, dummy, if InArr(arr, k) then 0 else 1, k);
      }
    }
  }

  // ---------------------------------------------------------------- runs

  /** The last value set for a key; keys that cannot be set are passed over. */
  function Replay(sets: seq<(Key, Value)>, k: Key): Value
  {
    if sets == [] then NilV
    else
      var (j, v) := sets[|sets| - 1];
      if j == k && Settable(j) then v else Replay(sets[..|sets| - 1], k)
  }

  /**
   A table after any run of sets, values of nil included, is the finite map these make.  Only a run of
   more than 2^26 sets can fail.
   */
  method Run(hash: Hash, narray: nat, nhash: nat, sets: seq<(Key, Value)>) returns (t: Table, ok: bool)
    requires narray <= MaxSize() && nhash <= MaxSize()
    ensures fresh(t) && (ok ==> t.Valid() && forall j: Key :: Get(t.arr, t.node, j) == Replay(sets, j))
    ensures |sets| <= MaxSize() ==> ok
  {
    hide Good, Get, MaxSize, InUseCount, SameShape, Present;
    t := new Table(hash, narray, nhash);
    var i := 0;
    assert sets[..0] == [];
    while i < |sets|
      invariant 0 <= i <= |sets| && fresh(t) && t.Valid() && forall j: Key :: Get(t.arr, t.node, j) == Replay(sets[..i], j)
    {
      assert sets[..i + 1][..i] == sets[..i];
      FewInUse(t.h, t.arr, t.node, t.lastfree, t.dummy, t.at, sets[..i]);
      var r := t.Put(sets[i].0, sets[i].1, false);
      if r == Overflow {
        return t, false;
      }
      i := i + 1;
    }
    assert sets[..i] == sets;
    ok := true;
  }

  // ---------------------------------------------------------------- no more keys than sets

  /** The keys with a value among the first i of the array part, and among the nodes from p on. */
  ghost function ArrKeys(arr: seq<Value>, i: nat): set<Key>
    requires i <= |arr|
  {
    if i == 0 then {} else ArrKeys(arr, i - 1) + if arr[i - 1] != NilV then {IntKey(i)} else {}
  }

  ghost function NodeKeys(node: seq<Node>, p: nat): set<Key>
    decreases |node| - p
  {
    if p >= |node| then {} else NodeKeys(node, p + 1) + if node[p].val != NilV then {node[p].key} else {}
  }

  lemma {:induction false} ArrKeysSize(arr: seq<Value>, i: nat)
    requires i <= |arr|
    ensures |ArrKeys(arr, i)| == |ArrInts(arr, i)|
    decreases i
  {
    if i > 0 {
      hide *;
      ArrKeysSize(arr, i - 1);
      ArrNext(arr, i);
      ArrKeysNext(arr, i);
    } else {
      assert ArrInts(arr, 0) == {};
    }
  }

  lemma ArrKeysNext(arr: seq<Value>, i: nat)
    requires 1 <= i <= |arr|
    ensures |ArrKeys(arr, i)| == |ArrKeys(arr, i - 1)| + if arr[i - 1] != NilV then 1 else 0
  {
    ArrKeysIn(arr, i - 1);
    assert IntKey(i) !in ArrKeys(arr, i - 1);
  }

  lemma {:induction false} ArrKeysIn(arr: seq<Value>, i: nat)
    requires i <= |arr|
    ensures forall k :: k in ArrKeys(arr, i) ==> k.IntKey? && 1 <= k.n <= i && arr[k.n - 1] != NilV
    decreases i
  {
    if i > 0 {
      ArrKeysIn(arr, i - 1);
    }
  }

  predicate LiveAt(node: seq<Node>, q: nat, k: Key)
  {
    At(node, q, k) && node[q].val != NilV
  }

  lemma {:induction false} NodeKeysIn(arr: seq<Value>, node: seq<Node>, p: nat)
    requires p <= |node| && forall q :: 0 <= q < |node| ==> NodeOk(arr, node[q])
    ensures forall k :: k in NodeKeys(node, p) ==> exists q: nat :: p <= q && LiveAt(node, q, k)
    decreases |node| - p
  {
    if p < |node| {
      NodeKeysIn(arr, node, p + 1);
      assert NodeOk(arr, node[p]);
      assert node[p].val != NilV ==> LiveAt(node, p, node[p].key);
      hide NodeOk, LiveAt;
    }
  }

  lemma {:induction false} NodeKeysSize(h: Hash, arr: seq<Value>, node: seq<Node>, at: seq<Pos>, p: nat)
    requires Chains(h, node, at) && p <= |node| && forall q :: 0 <= q < |node| ==> NodeOk(arr, node[q])
    ensures |NodeKeys(node, p)| == Live(node, p)
    decreases |node| - p
  {
    if p < |node| {
      NodeKeysSize(h, arr, node, at, p + 1);
      FreshKey(h, arr, node, at, p);
      hide Chains, NodeOk;
    }
  }

  lemma FreshKey(h: Hash, arr: seq<Value>, node: seq<Node>, at: seq<Pos>, p: nat)
    requires Chains(h, node, at) && p < |node| && forall q :: 0 <= q < |node| ==> NodeOk(arr, node[q])
    ensures node[p].val != NilV ==> node[p].key !in NodeKeys(node, p + 1)
  {
    NodeKeysIn(arr, node, p + 1);
    assert NodeOk(arr, node[p]);
    if Used(node, p) {
      var ks, own := NodeKeys(node, p + 1), node[p].key;
      forall k | k in ks ensures !(k == own) {
        var q: nat :| p + 1 <= q && LiveAt(node, q, k);
        assert Differ(node, at, p, q);
      }
    }
    hide Chains, NodeKeys;
  }

  ghost function SetKeys(sets: seq<(Key, Value)>): set<Key>
  {
    if sets == [] then {} else SetKeys(sets[..|sets| - 1]) + {sets[|sets| - 1].0}
  }

  lemma {:induction false} SetKeysFew(sets: seq<(Key, Value)>, k: Key)
    ensures |SetKeys(sets)| <= |sets| && (Replay(sets, k) != NilV ==> k in SetKeys(sets))
    decreases |sets|
  {
    if sets != [] {
      SetKeysFew(sets[..|sets| - 1], k);
    }
  }

  lemma {:induction false} KeySubset(a: set<Key>, b: set<Key>)
    requires a <= b
    ensures |a| <= |b|
    decreases b
  {
    if a != {} {
      var k :| k in a;
      KeySubset(a - {k}, b - {k});
    }
  }

  /** A table filled by a run of sets has no more keys in use than there were sets. */
  lemma FewInUse(h: Hash, arr: seq<Value>, node: seq<Node>, lastfree: int, dummy: bool, at: seq<Pos>, sets: seq<(Key, Value)>)
    requires Good(h, arr, node, lastfree, dummy, at) && forall j: Key :: Get(arr, node, j) == Replay(sets, j)
    ensures InUseCount(arr, node) <= |sets|
  {
    hide MaxSize;
    var a, b := ArrKeys(arr, |arr|), NodeKeys(node, 0);
    ArrKeysSize(arr, |arr|);
    ArrKeysIn(arr, |arr|);
    NodeKeysSize(h, arr, node, at, 0);
    NodeKeysIn(arr, node, 0);
    forall k | k in a + b ensures k in SetKeys(sets) {
      SetKeysFew(sets, k);
      if k in b {
        var q: nat :| LiveAt(node, q, k);
        assert NodeOk(arr, node[q]);
        EntryIs(h, node, at, q, k);
      }
      hide Chains, Entry;
    }
    assert a !! b by {
      forall k | k in b ensures k !in a {
        var q: nat :| LiveAt(node, q, k);
        assert NodeOk(arr, node[q]);
      }
    }
    assert |a + b| == |a| + |b|;
    SetKeysFew(sets, NilKey);
    KeySubset(a + b, SetKeys(sets));
  }

  // ---------------------------------------------------------------- the table as a whole

  ghost predicate SameContents(arr0: seq<Value>, node0: seq<Node>, arr: seq<Value>, node: seq<Node>)
  {
    forall j: Key :: Get(arr, node, j) == Get(arr0, node0, j)
  }

  /** There is a slot for the key, or a free node to make one. */
  ghost predicate Roomy(arr: seq<Value>, node: seq<Node>, dummy: bool, k: Key)
  {
    InArr(arr, k) || (!dummy && |FreeNodes(node)| >= 1)
  }

  /** Without rebuilding: the array part is as it was, and so is the hash part if the key is not in it. */
  ghost predicate Steady(arr0: seq<Value>, node0: seq<Node>, dummy0: bool, arr: seq<Value>, node: seq<Node>, dummy: bool, k: Key)
  {
    arr == arr0 && dummy == dummy0 && TookOne(node0, node) && (InArr(arr, k) ==> node == node0)
  }

  /** There are so many free nodes. */
  ghost predicate Budget(node: seq<Node>, dummy: bool, need: int)
  {
    if dummy then need <= 0 else |FreeNodes(node)| >= need
  }

  /** How many keys have a value. */
  ghost function InUseCount(arr: seq<Value>, node: seq<Node>): nat
  {
    |ArrInts(arr, |arr|)| + Live(node, 0)
  }

  /** A hash part for so many keys: none, or a power of two, the smallest that is enough. */
  ghost predicate Holding(nodes: nat, dummy: bool, size: int)
  {
    if size == 0 then dummy && nodes == 1 else !dummy && size <= nodes < 2 * size && exists j: nat :: nodes == Pow2(j)
  }

  lemma HoldingIs(size: nat)
    ensures Holding(1, true, 0)
    ensures size > 0 ==> Holding(Pow2(CeilLog2(size)), false, size)
  {
    if size > 0 {
      CeilLog2Is(size);
    }
    hide CeilLog2;
  }

  /** The keys that can be in an array part: those in use, and the key, if it can be. */
  ghost function IntKeys(arr: seq<Value>, node: seq<Node>, k: Key): set<int>
  {
    var s := ArrInts(arr, |arr|) + HashInts(node, 0);
    if ArrayKey(k) then s + {k.n} else s
  }

  /** These are the numbers from 1 to 2^26 with a value, and the key. */
  lemma IntKeysMean(h: Hash, arr: seq<Value>, node: seq<Node>, lastfree: int, dummy: bool, at: seq<Pos>, k: Key, n: int)
    requires Good(h, arr, node, lastfree, dummy, at)
    ensures n in IntKeys(arr, node, k) <==> 1 <= n <= 0x400_0000 && (k == IntKey(n) || Get(arr, node, IntKey(n)) != NilV)
  {
    HashIntsAre(node, 0, n);
    LargestIs();
    hide MaxSize, Chains, HashInts;
    if q :| 0 <= q < |node| && node[q].val != NilV && ArrayKey(node[q].key) && node[q].key.n == n {
      assert NodeOk(arr, node[q]) && At(node, q, IntKey(n));
      EntryIs(h, node, at, q, IntKey(n));
    }
  }

  /** The key has a slot, perhaps without a value. */
  ghost predicate Present(arr: seq<Value>, node: seq<Node>, k: Key)
  {
    InArr(arr, k) || exists p: int :: At(node, p, k)
  }

  lemma PresentIs(arr: seq<Value>, node: seq<Node>, k: Key, s: LuaTable.Slot)
    requires SlotFor(arr, node, k, s)
    ensures Present(arr, node, k) <==> s != Absent
  {
  }

  /** The same slots with the same keys and links; values may differ. */
  ghost predicate SameShape(arr0: seq<Value>, node0: seq<Node>, arr: seq<Value>, node: seq<Node>)
  {
    && |arr| == |arr0| && |node| == |node0|
    && forall p :: 0 <= p < |node| ==> node[p].key == node0[p].key && node[p].next == node0[p].next
  }

  lemma StoredShape(arr1: seq<Value>, node1: seq<Node>, arr: seq<Value>, node: seq<Node>, k: Key, s: LuaTable.Slot, v: Value)
    requires match s case ArrSlot(i) => i < |arr1| && arr == arr1[i := v] && node == node1
                     case NodeSlot(p) => p < |node1| && arr == arr1 && node == node1[p := node1[p].(val := v)]
                     case Absent => false
    ensures SameShape(arr1, node1, arr, node)
  {
  }

  lemma SteadySelf(arr: seq<Value>, node: seq<Node>, dummy: bool, k: Key)
    ensures Steady(arr, node, dummy, arr, node, dummy, k) && SameContents(arr, node, arr, node)
  {
    hide FreeNodes, Get;
  }

  lemma IsSettable(k: Key)
    ensures Settable(k) <==> k != NilKey && k != NaNKey
  {
  }

  lemma NeverAt(h: Hash, arr: seq<Value>, node: seq<Node>, lastfree: int, dummy: bool, at: seq<Pos>, k: Key, s: LuaTable.Slot)
    requires Good(h, arr, node, lastfree, dummy, at) && SlotFor(arr, node, k, s)
    ensures !Settable(k) ==> s == Absent
  {
    forall p | 0 <= p < |node| ensures node[p].key != NaNKey {
      assert NodeOk(arr, node[p]);
    }
    hide Chains, MaxSize;
  }

  lemma EnteredFacts(h: Hash, arr: seq<Value>, node0: seq<Node>, node: seq<Node>, dummy: bool, lastfree: int, at: seq<Pos>, k: Key, p: nat)
    requires Entered(h, arr, node0, node, lastfree, at, k, p) && SlotFor(arr, node0, k, Absent) && !dummy
    ensures Good(h, arr, node, lastfree, dummy, at) && SlotFor(arr, node, k, NodeSlot(p)) && SameContents(arr, node0, arr, node)
    ensures Steady(arr, node0, dummy, arr, node, dummy, k)
  {
    hide Chains, MaxSize, TookOne;
  }

  lemma NotRoomy(arr: seq<Value>, node: seq<Node>, dummy: bool, k: Key)
    requires SlotFor(arr, node, k, Absent) && (dummy || forall p :: 0 <= p < |node| ==> Used(node, p))
    ensures !Roomy(arr, node, dummy, k)
  {
    if !dummy {
      assert FreeNodes(node) == {};
    }
  }

  lemma SameTrans(arr0: seq<Value>, node0: seq<Node>, arr1: seq<Value>, node1: seq<Node>, arr: seq<Value>, node: seq<Node>)
    ensures SameContents(arr0, node0, arr1, node1) && SameContents(arr1, node1, arr, node) ==> SameContents(arr0, node0, arr, node)
  {
    hide Get;
  }

  lemma GoodChains(h: Hash, arr: seq<Value>, node: seq<Node>, lastfree: int, dummy: bool, at: seq<Pos>)
    requires Good(h, arr, node, lastfree, dummy, at)
    ensures Chains(h, node, at) && |node| == |at| && node != []
  {
  }

  lemma IsAt(node: seq<Node>, n: nat, k: Key)
    requires n < |node| && node[n].key == k && k != NilKey
    ensures At(node, n, k)
  {
  }

  lemma NotAt(h: Hash, arr: seq<Value>, node: seq<Node>, lastfree: int, dummy: bool, at: seq<Pos>, n: nat, k: Key)
    requires Good(h, arr, node, lastfree, dummy, at) && n < |node| && (node[n].key != k || k == NaNKey)
    ensures !At(node, n, k)
  {
    assert NodeOk(arr, node[n]);
    hide Chains, MaxSize;
  }

  lemma SlotValue(h: Hash, arr: seq<Value>, node: seq<Node>, lastfree: int, dummy: bool, at: seq<Pos>, k: Key, s: LuaTable.Slot)
    requires Good(h, arr, node, lastfree, dummy, at) && SlotFor(arr, node, k, s)
    ensures Get(arr, node, k) == match s case ArrSlot(i) => arr[i] case NodeSlot(p) => node[p].val case Absent => NilV
  {
    match s
    case ArrSlot(_) =>
    case NodeSlot(p) => EntryIs(h, node, at, p, k);
    case Absent => EntryNone(node, k);
  }

  /** A slot with a value has a key. */
  lemma LiveUsed(h: Hash, arr: seq<Value>, node: seq<Node>, lastfree: int, at: seq<Pos>, m: nat)
    requires Good(h, arr, node, lastfree, false, at) && m < |node| && node[m].val != NilV
    ensures Used(node, m)
  {
    assert NodeOk(arr, node[m]);
    hide Chains, MaxSize;
  }

  lemma IntruderIs(h: Hash, arr: seq<Value>, node: seq<Node>, lastfree: int, at: seq<Pos>, k: Key, m: nat, n: nat, prev: nat)
    requires Good(h, arr, node, lastfree, false, at) && Settable(k) && SlotFor(arr, node, k, Absent) && LastFree(node, n)
    requires m == MainPos(h, k, |node|) && prev < |node| && Used(node, m) && MainPos(h, node[m].key, |node|) != m && Used(node, prev) && node[prev].next == m
    ensures Intruder(h, node, at, m, n, prev, k)
  {
    hide Chains, MaxSize;
  }

  // ---------------------------------------------------------------- storing

  /** Storing into the key's slot: the table stays good, and only this key's value changes. */
  ghost predicate Stored(arr1: seq<Value>, node1: seq<Node>, arr: seq<Value>, node: seq<Node>, k: Key, v: Value)
  {
    forall j: Key :: Get(arr, node, j) == if j == k then v else Get(arr1, node1, j)
  }

  lemma StoreFacts(h: Hash, arr: seq<Value>, node: seq<Node>, lastfree: int, dummy: bool, at: seq<Pos>, k: Key, s: LuaTable.Slot, v: Value)
    requires Good(h, arr, node, lastfree, dummy, at) && SlotFor(arr, node, k, s) && s != Absent
    ensures match s
            case ArrSlot(i) => i < |arr| && Good(h, arr[i := v], node, lastfree, dummy, at) && Stored(arr, node, arr[i := v], node, k, v)
            case NodeSlot(p) => p < |node| && (var now := node[p := node[p].(val := v)]; Good(h, arr, now, lastfree, dummy, at) && Stored(arr, node, arr, now, k, v) && FreeNodes(now) == FreeNodes(node))
            case Absent => false
  {
    if s.NodeSlot? {
      StoreNode(h, arr, node, lastfree, dummy, at, s.p, v);
      hide Chains, MaxSize, FreeNodes, Entry;
      assert NodeOk(arr, node[s.p]);
    } else {
      hide Chains, MaxSize, Entry;
      forall p | 0 <= p < |node| ensures NodeOk(arr[s.i := v], node[p]) {
        assert NodeOk(arr, node[p]);
      }
    }
  }

  lemma StoredContents(arr0: seq<Value>, node0: seq<Node>, arr1: seq<Value>, node1: seq<Node>, arr: seq<Value>, node: seq<Node>, k: Key, v: Value)
    requires SameContents(arr0, node0, arr1, node1) && Stored(arr1, node1, arr, node, k, v)
    ensures forall j: Key :: Get(arr, node, j) == if j == k then v else Get(arr0, node0, j)
  {
    hide Get;
  }

  lemma StoredSteady(arr0: seq<Value>, node0: seq<Node>, dummy0: bool, arr1: seq<Value>, node1: seq<Node>, arr: seq<Value>, node: seq<Node>, dummy: bool, k: Key, s: LuaTable.Slot, v: Value)
    requires Steady(arr0, node0, dummy0, arr1, node1, dummy, k) && SlotFor(arr1, node1, k, s)
    requires match s case ArrSlot(i) => i < |arr1| && arr == arr1[i := v] && node == node1
                     case NodeSlot(p) => p < |node1| && arr == arr1 && node == node1[p := node1[p].(val := v)] && FreeNodes(node) == FreeNodes(node1)
                     case Absent => false
    ensures |arr| == |arr0| && dummy == dummy0 && TookOne(node0, node) && (InArr(arr, k) ==> node == node0)
  {
    hide FreeNodes;
  }

  // ---------------------------------------------------------------- rebuilding

  lemma NewSize(nhash: nat)
    requires nhash <= MaxSize()
    ensures 0 < (if nhash == 0 then 1 else Pow2(CeilLog2(nhash))) <= MaxSize()
  {
    CeilLog2Is(nhash + 1);
    if nhash > 0 {
      CeilLog2Is(nhash);
      if CeilLog2(nhash) > MAXBITS {
        TooLarge(nhash);
      } else {
        SizeFits(nhash);
      }
    } else {
      OneFits();
    }
  }

  lemma LargestIs()
    ensures MaxSize() == 0x400_0000
  {
    assert Pow2(2) == 0x4;
    assert Pow2(4) == 0x10;
    assert Pow2(6) == 0x40;
    assert Pow2(8) == 0x100;
    assert Pow2(10) == 0x400;
    assert Pow2(12) == 0x1000;
    assert Pow2(14) == 0x4000;
    assert Pow2(16) == 0x10000;
    assert Pow2(18) == 0x40000;
    assert Pow2(20) == 0x100000;
    assert Pow2(22) == 0x400000;
    assert Pow2(24) == 0x1000000;
    assert Pow2(26) == 0x4000000;
  }

  lemma OneFits()
    ensures 1 <= MaxSize()
  {
  }

  lemma SizeFits(size: nat)
    requires CeilLog2(size) <= MAXBITS
    ensures Pow2(CeilLog2(size)) <= MaxSize()
  {
    PowUpTo(CeilLog2(size), MAXBITS);
  }

  lemma TooLarge(size: nat)
    requires size >= 1 && CeilLog2(size) > MAXBITS
    ensures size > MaxSize()
  {
    CeilLog2Is(size);
    PowUpTo(MAXBITS, CeilLog2(size) - 1);
  }

  /** How many slots of the array part from i on are in use. */
  ghost function ArrLeft(arr: seq<Value>, i: nat): nat
  {
    |ArrInts(arr, |arr|) - ArrInts(arr, i)|
  }

  lemma LeftNext(arr: seq<Value>, i: nat)
    requires i < |arr|
    ensures ArrLeft(arr, i) == ArrLeft(arr, i + 1) + if arr[i] != NilV then 1 else 0
  {
    ArrNext(arr, i + 1);
    if arr[i] != NilV {
      LastIn(arr, i);
      hide ArrInts;
      LessOne(ArrInts(arr, |arr|), ArrInts(arr, i), i + 1);
    }
  }

  lemma LastIn(arr: seq<Value>, i: nat)
    requires i < |arr| && arr[i] != NilV
    ensures i + 1 in ArrInts(arr, |arr|)
  {
  }

  lemma LessOne(all: set<int>, some: set<int>, x: int)
    requires x in all && x !in some
    ensures |all - some| == |all - (some + {x})| + 1
  {
    assert all - some == all - (some + {x}) + {x};
  }

  lemma LeftNone(arr: seq<Value>)
    ensures ArrLeft(arr, |arr|) == 0
  {
    assert ArrInts(arr, |arr|) - ArrInts(arr, |arr|) == {};
  }

  lemma LeftBeyond(arr: seq<Value>, i: nat)
    requires i >= |arr|
    ensures ArrLeft(arr, i) == 0
  {
    assert ArrInts(arr, |arr|) - ArrInts(arr, i) == {};
  }

  lemma GoodSize(h: Hash, arr: seq<Value>, node: seq<Node>, lastfree: int, dummy: bool, at: seq<Pos>)
    requires Good(h, arr, node, lastfree, dummy, at)
    ensures |arr| <= MaxSize()
  {
  }

  /** An empty hash part fits any array part. */
  lemma ShrunkGood(h: Hash, arr: seq<Value>, node: seq<Node>, lastfree: int, dummy: bool, at: seq<Pos>, n: nat)
    requires Good(h, arr, node, lastfree, dummy, at) && n <= |arr|
    ensures Good(h, arr[..n], node, lastfree, dummy, at)
  {
    forall p | 0 <= p < |node| ensures NodeOk(arr[..n], node[p]) {
      assert NodeOk(arr, node[p]);
    }
    hide Chains, MaxSize;
  }

  lemma ResizeStart(arr0: seq<Value>, arr: seq<Value>, node: seq<Node>, nasize: nat, i: nat)
    requires forall j: Key :: Entry(node, j) == NilV
    requires if nasize < |arr0| then arr == arr0[..nasize] && i == nasize else i == |arr0| && |arr| == nasize && arr0 <= arr && forall q :: |arr0| <= q < nasize ==> arr[q] == NilV
    ensures |arr| == nasize && (forall j: Key :: Get(arr, node, j) == FromArr(arr0, i, j))
    ensures ArrLeft(arr0, i) == ArrLeft(arr0, nasize)
  {
    if nasize >= |arr0| {
      LeftBeyond(arr0, nasize);
      LeftBeyond(arr0, i);
    }
    hide Entry;
  }

  lemma BudgetRoomy(arr: seq<Value>, node: seq<Node>, dummy: bool, need: int, k: Key)
    requires Budget(node, dummy, need) && (need >= 1 || InArr(arr, k))
    ensures Roomy(arr, node, dummy, k)
  {
    hide FreeNodes;
  }

  lemma BudgetTook(was: seq<Node>, node: seq<Node>, dummy: bool, need: int)
    requires Budget(was, dummy, need)
    ensures TookOne(was, node) ==> |node| == |was| && (need >= 1 ==> Budget(node, dummy, need - 1))
    ensures Budget(was, dummy, need - 1)
  {
    hide FreeNodes;
  }

  lemma FromArrNext(arr: seq<Value>, i: nat)
    requires i < |arr|
    ensures forall j: Key :: FromArr(arr, i + 1, j) == if j == IntKey(i + 1) then arr[i] else FromArr(arr, i, j)
    ensures FromArr(arr, i, IntKey(i + 1)) == NilV
  {
  }

  lemma FromNodesStart(h: Hash, arr: seq<Value>, node: seq<Node>, lastfree: int, dummy: bool, at: seq<Pos>)
    requires Good(h, arr, node, lastfree, dummy, at)
    ensures forall j: Key :: FromNodes(arr, node, |node|, j) == FromArr(arr, |arr|, j)
    ensures Outside(node, |node|, 0) == 0 && forall n: nat :: Outside(node, |node|, n) == 0
  {
    hide Chains, MaxSize, FromArr, FromNodes;
    forall j: Key ensures FromNodes(arr, node, |node|, j) == FromArr(arr, |arr|, j) {
      FromAll(arr, node, j);
    }
  }

  lemma FromNodesNext(h: Hash, arr: seq<Value>, node: seq<Node>, lastfree: int, dummy: bool, at: seq<Pos>, p: nat)
    requires Good(h, arr, node, lastfree, dummy, at) && p < |node|
    ensures forall j: Key :: FromNodes(arr, node, p, j) ==
              if node[p].val != NilV && j == node[p].key then node[p].val else FromNodes(arr, node, p + 1, j)
  {
    assert NodeOk(arr, node[p]);
    hide Chains, MaxSize, FromNodes, FromArr;
    forall j: Key ensures FromNodes(arr, node, p, j) == if node[p].val != NilV && j == node[p].key then node[p].val else FromNodes(arr, node, p + 1, j) {
      FromNext(h, arr, node, lastfree, dummy, at, p, j);
    }
  }

  lemma FromNodesEnd(h: Hash, arr0: seq<Value>, node0: seq<Node>, lastfree: int, dummy: bool, at: seq<Pos>, arr: seq<Value>, node: seq<Node>)
    requires Good(h, arr0, node0, lastfree, dummy, at) && forall j: Key :: Get(arr, node, j) == FromNodes(arr0, node0, 0, j)
    ensures SameContents(arr0, node0, arr, node)
  {
    hide Chains, MaxSize, Get, FromNodes;
    forall j: Key ensures Get(arr, node, j) == Get(arr0, node0, j) {
      FromAll(arr0, node0, j);
    }
  }

  lemma OutsideNext(node: seq<Node>, p: nat, n: nat)
    requires p < |node|
    ensures Outside(node, p, n) == Outside(node, p + 1, n) + if node[p].val != NilV && !(node[p].key.IntKey? && 1 <= node[p].key.n <= n) then 1 else 0
    ensures Outside(node, p, n) <= Outside(node, 0, n)
  {
    OutsideMore(node, p, n);
  }

  lemma {:induction false} OutsideMore(node: seq<Node>, p: nat, n: nat)
    requires p <= |node|
    ensures Outside(node, p, n) <= Outside(node, 0, n)
    decreases p
  {
    if p > 0 {
      OutsideMore(node, p - 1, n);
    }
  }

  lemma LiveSettable(h: Hash, arr: seq<Value>, node: seq<Node>, lastfree: int, dummy: bool, at: seq<Pos>, p: nat)
    requires Good(h, arr, node, lastfree, dummy, at) && p < |node| && node[p].val != NilV
    ensures Settable(node[p].key)
  {
    assert NodeOk(arr, node[p]);
    hide Chains, MaxSize;
  }

  // ---------------------------------------------------------------- the new sizes

  lemma NumsEmpty(nums: seq<nat>)
    requires |nums| == MAXBITS + 1 && forall i :: 0 <= i <= MAXBITS ==> nums[i] == 0
    ensures NumsFor(nums, {})
  {
    forall i | 0 <= i <= MAXBITS ensures nums[i] == |Slice({}, i)| {
      assert Slice({}, i) == {};
    }
  }

  lemma UseFacts(h: Hash, arr: seq<Value>, node: seq<Node>, lastfree: int, dummy: bool, at: seq<Pos>, k: Key)
    requires Good(h, arr, node, lastfree, dummy, at) && SlotFor(arr, node, k, Absent) && Settable(k)
    ensures |arr| <= MaxSize() && KeysDiffer(node) && ArrInts(arr, |arr|) !! HashInts(node, 0)
    ensures ArrayKey(k) ==> k.n !in ArrInts(arr, |arr|) && k.n !in HashInts(node, 0)
  {
    hide MaxSize, HashInts;
    forall p, q | 0 <= p < q < |node| && node[p].key != NilKey ensures node[p].key != node[q].key {
      assert Differ(node, at, p, q);
    }
    hide Chains;
    forall n | n in ArrInts(arr, |arr|) ensures n !in HashInts(node, 0) {
      HashIntsAre(node, 0, n);
      forall q | 0 <= q < |node| ensures !(ArrayKey(node[q].key) && node[q].key.n == n) {
        assert NodeOk(arr, node[q]);
      }
    }
    if ArrayKey(k) {
      HashIntsAre(node, 0, k.n);
      forall q | 0 <= q < |node| ensures !(ArrayKey(node[q].key) && node[q].key.n == k.n) {
        assert !At(node, q, k);
      }
    }
  }

  lemma UsedInts(a: set<int>, hs: set<int>, k: Key)
    requires a !! hs && (ArrayKey(k) ==> k.n !in a && k.n !in hs)
    ensures |if ArrayKey(k) then a + hs + {k.n} else a + hs| == |a| + |hs| + if ArrayKey(k) then 1 else 0
  {
    hide ArrayKey;
  }

  /** What goes to the hash part: all that is in use, and the key, but for what the array part takes. */
  lemma SizesFit(h: Hash, arr: seq<Value>, node: seq<Node>, lastfree: int, dummy: bool, at: seq<Pos>, k: Key, n: nat, na: nat, s: set<int>)
    requires Good(h, arr, node, lastfree, dummy, at) && SlotFor(arr, node, k, Absent) && Settable(k)
    requires s == if ArrayKey(k) then ArrInts(arr, |arr|) + HashInts(node, 0) + {k.n} else ArrInts(arr, |arr|) + HashInts(node, 0)
    requires BestSize(s, n) && na == Count(s, n)
    ensures n <= MaxSize() && na <= InUseCount(arr, node) + 1
    ensures ArrLeft(arr, n) + Outside(node, 0, n) + (if k.IntKey? && 1 <= k.n <= n then 0 else 1) == InUseCount(arr, node) + 1 - na
  {
    hide MaxSize, HashInts, Count, BestSize, Good, ArrInts, Outside, Live;
    UseFacts(h, arr, node, lastfree, dummy, at, k);
    BestFits(s, n);
    var a, hs := ArrInts(arr, |arr|), HashInts(node, 0);
    CountUnion(a, hs, n);
    if ArrayKey(k) {
      CountAdd(a + hs, k.n, n);
    }
    LiveSplit(node, 0, n);
    ArrSplit(arr, n);
  }

  lemma ArrSplit(arr: seq<Value>, n: nat)
    ensures |ArrInts(arr, |arr|)| == ArrLeft(arr, n) + Count(ArrInts(arr, |arr|), n)
  {
    var all := ArrInts(arr, |arr|);
    assert InRange(all, n) == ArrInts(arr, n);
    assert all == ArrInts(arr, n) + (all - ArrInts(arr, n));
  }
}
