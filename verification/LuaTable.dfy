/**
 A Lua table: an array part and a hash part that together are one finite map from
 keys to values.  Setting a key may rebuild both parts; nothing is lost, and the
 rebuilt table has room for what made it necessary.
 */
module LuaTable {
  import opened LuaChains
  import opened LuaInsert
  import opened LuaSizes

  predicate InArr(arr: seq<Value>, k: Key)
  {
    k.IntKey? && 1 <= k.n <= |arr|
  }

  /** The value of a key; NilV where there is none. */
  ghost function Get(arr: seq<Value>, node: seq<Node>, k: Key): Value
  {
    if InArr(arr, k) then arr[k.n - 1] else Entry(node, k)
  }

  /** Keys that live in the array part are not in the hash part, and neither is NaN. */
  predicate NodeOk(arr: seq<Value>, n: Node)
  {
    (n.key == NilKey ==> n.val == NilV) && n.key != NaNKey && !InArr(arr, n.key)
  }

  /** The hash part of a table that has none: one node that no key is ever put into. */
  const DUMMY: seq<Node> := [Node(NilKey, NilV, NONE)]

  ghost predicate Good(h: Hash, arr: seq<Value>, node: seq<Node>, lastfree: int, dummy: bool, at: seq<Pos>)
  {
    && Chains(h, node, at) && 0 < |node| <= MaxSize() && |arr| <= MaxSize()
    && (forall p :: 0 <= p < |node| ==> NodeOk(arr, node[p]))
    && (dummy ==> node == DUMMY && lastfree <= 0)
    && (!dummy ==> lastfree <= |node| && forall p :: 0 <= p < |node| && lastfree <= p ==> Used(node, p))
  }

  ghost function FreeNodes(node: seq<Node>): set<nat>
  {
    set p: nat | p < |node| && !Used(node, p)
  }

  /** Where a value is kept. */
  datatype Slot = ArrSlot(i: nat) | NodeSlot(p: nat) | Absent

  ghost predicate SlotFor(arr: seq<Value>, node: seq<Node>, k: Key, s: Slot)
  {
    match s
    case ArrSlot(i) => InArr(arr, k) && i == k.n - 1
    case NodeSlot(p) => !InArr(arr, k) && At(node, p, k)
    case Absent => !InArr(arr, k) && forall q: int :: !At(node, q, k)
  }

  /** Keys a value can be set for. */
  predicate Settable(k: Key)
  {
    k != NilKey && k != NaNKey
  }

  // ---------------------------------------------------------------- one insertion

  /** Inserting took at most one free node. */
  ghost predicate TookOne(node: seq<Node>, now: seq<Node>)
  {
    |now| == |node| && |FreeNodes(now)| + 1 >= |FreeNodes(node)|
  }

  lemma OneTaken(node: seq<Node>, now: seq<Node>, x: nat)
    requires |now| == |node| && x < |node| && (forall p: nat :: p < |node| && p != x && !Used(node, p) ==> !Used(now, p))
    ensures TookOne(node, now)
  {
    SubsetNat(FreeNodes(node) - {x}, FreeNodes(now));
  }

  lemma SubsetNat(a: set<nat>, b: set<nat>)
    requires a <= b
    ensures |a| <= |b|
  {
    assert b == a + (b - a);
  }

  /** The outcome of an insertion at slot p. */
  ghost predicate Entered(h: Hash, arr: seq<Value>, node: seq<Node>, now: seq<Node>, lastfree: int, at: seq<Pos>, k: Key, p: nat)
  {
    && Good(h, arr, now, lastfree, false, at) && At(now, p, k) && now[p].val == NilV && TookOne(node, now)
    && forall j: Key :: Entry(now, j) == Entry(node, j)
  }

  /** Which slots differ: one gets the key, one may get what another had, and links may change. */
  ghost predicate Reshaped(node: seq<Node>, now: seq<Node>, k: Key, x: nat)
  {
    && |now| == |node| && x < |node|
    && (forall p :: 0 <= p < |node| ==> Carries(node, now, k, p))
    && (forall p :: 0 <= p < |node| && p != x && Used(now, p) ==> Used(node, p))
    && (forall p :: 0 <= p < |node| && Used(node, p) ==> Used(now, p))
  }

  /** What a slot holds was held by some slot, or is the new key without a value. */
  ghost predicate Carries(node: seq<Node>, now: seq<Node>, k: Key, p: nat)
    requires p < |now|
  {
    (now[p].key == k && now[p].val == NilV) || exists q :: 0 <= q < |node| && now[p].key == node[q].key && now[p].val == node[q].val
  }

  lemma EnteredIs(h: Hash, arr: seq<Value>, node: seq<Node>, now: seq<Node>, lastfree: int, lf: int, at: seq<Pos>, at': seq<Pos>, k: Key, x: nat, p: nat)
    requires Good(h, arr, node, lastfree, false, at) && Settable(k) && !InArr(arr, k)
    requires Chains(h, now, at') && Reshaped(node, now, k, x) && At(now, p, k) && now[p].val == NilV
    requires lf <= |node| && (forall q :: 0 <= q < |node| && lf <= q ==> Used(now, q))
    requires forall j: Key :: Entry(now, j) == Entry(node, j)
    ensures Entered(h, arr, node, now, lf, at', k, p)
  {
    hide Chains, MaxSize, FreeNodes;
    forall q | 0 <= q < |now| ensures NodeOk(arr, now[q]) {
      assert Carries(node, now, k, q);
    }
    OneTaken(node, now, x);
  }

  lemma EnterOver(h: Hash, arr: seq<Value>, node: seq<Node>, lastfree: int, at: seq<Pos>, k: Key)
    requires Good(h, arr, node, lastfree, false, at) && Settable(k) && SlotFor(arr, node, k, Absent)
    requires node[MainPos(h, k, |node|)].val == NilV
    ensures var m := MainPos(h, k, |node|);
            Entered(h, arr, node, OverMain(node, m, k), lastfree, OverMainAt(node, at, m), k, m)
  {
    var m := MainPos(h, k, |node|);
    OverMainChains(h, node, at, k);
    forall j: Key ensures Entry(OverMain(node, m, k), j) == Entry(node, j) {
      OverMainEntry(h, node, at, k, j);
    }
    OverReshapes(node, m, k);
    hide Chains, MaxSize, Entered, Reshaped, OverMainAt;
    EnteredIs(h, arr, node, OverMain(node, m, k), lastfree, lastfree, at, OverMainAt(node, at, m), k, m, m);
  }

  lemma OverReshapes(node: seq<Node>, m: nat, k: Key)
    requires m < |node| && k != NilKey
    ensures Reshaped(node, OverMain(node, m, k), k, m) && At(OverMain(node, m, k), m, k)
  {
    var now := OverMain(node, m, k);
    forall p | 0 <= p < |node| ensures Carries(node, now, k, p) {
      assert p != m ==> now[p].key == node[p].key && now[p].val == node[p].val;
    }
  }

  /** The free node that was found is the last one. */
  ghost predicate LastFree(node: seq<Node>, n: int)
  {
    0 <= n < |node| && !Used(node, n) && forall p :: n < p < |node| ==> Used(node, p)
  }

  lemma EnterBehind(h: Hash, arr: seq<Value>, node: seq<Node>, lastfree: int, at: seq<Pos>, k: Key, n: nat)
    requires Good(h, arr, node, lastfree, false, at) && Settable(k) && SlotFor(arr, node, k, Absent) && LastFree(node, n)
    requires var m := MainPos(h, k, |node|); Used(node, m) && MainPos(h, node[m].key, |node|) == m
    ensures var m := MainPos(h, k, |node|);
            Entered(h, arr, node, Behind(node, m, n, k), n, at[n := Middle(at, node, m)], k, n)
  {
    var m := MainPos(h, k, |node|);
    BehindChains(h, node, at, k, n);
    assert NodeOk(arr, node[n]);
    forall j: Key ensures Entry(Behind(node, m, n, k), j) == Entry(node, j) {
      BehindEntry(h, node, at, k, n, j);
    }
    BehindReshapes(node, m, n, k);
    hide Chains, MaxSize, Entered, Reshaped, Behind, Middle;
    EnteredIs(h, arr, node, Behind(node, m, n, k), lastfree, n, at, at[n := Middle(at, node, m)], k, n, n);
  }

  lemma BehindReshapes(node: seq<Node>, m: nat, n: nat, k: Key)
    requires m < |node| && LastFree(node, n) && k != NilKey && Used(node, m)
    ensures var now := Behind(node, m, n, k);
            && Reshaped(node, now, k, n) && At(now, n, k) && now[n].val == NilV
            && forall q :: 0 <= q < |node| && n <= q ==> Used(now, q)
  {
    var now := Behind(node, m, n, k);
    forall p | 0 <= p < |node| ensures Carries(node, now, k, p) {
      assert p != n ==> now[p].key == node[p].key && now[p].val == node[p].val;
    }
  }

  lemma EnterMoved(h: Hash, arr: seq<Value>, node: seq<Node>, lastfree: int, at: seq<Pos>, k: Key, m: nat, n: nat, prev: nat)
    requires Good(h, arr, node, lastfree, false, at) && Settable(k) && SlotFor(arr, node, k, Absent) && LastFree(node, n)
    requires Intruder(h, node, at, m, n, prev, k)
    ensures Entered(h, arr, node, MovedOut(node, m, n, prev, k), n, MovedAt(at, m, n), k, m)
  {
    MovedChains(h, node, at, k, m, n, prev);
    forall j: Key ensures Entry(MovedOut(node, m, n, prev, k), j) == Entry(node, j) {
      MovedEntry(h, node, at, k, m, n, prev, j);
    }
    MovedReshapes(node, m, n, prev, k);
    hide Chains, MaxSize, Entered, Reshaped, MovedOut, MovedAt;
    EnteredIs(h, arr, node, MovedOut(node, m, n, prev, k), lastfree, n, at, MovedAt(at, m, n), k, n, m);
  }

  lemma MovedReshapes(node: seq<Node>, m: nat, n: nat, prev: nat, k: Key)
    requires m < |node| && prev < |node| && LastFree(node, n) && k != NilKey && Used(node, m) && Used(node, prev)
    ensures var now := MovedOut(node, m, n, prev, k);
            && Reshaped(node, now, k, n) && At(now, m, k) && now[m].val == NilV
            && forall q :: 0 <= q < |node| && n <= q ==> Used(now, q)
  {
    var now := MovedOut(node, m, n, prev, k);
    forall p | 0 <= p < |node| ensures Carries(node, now, k, p) {
      assert p != m && p != n ==> now[p].key == node[p].key && now[p].val == node[p].val;
      assert p == n && p != m ==> now[p].key == node[m].key && now[p].val == node[m].val;
    }
  }

  /** A new value in a node. */
  lemma StoreNode(h: Hash, arr: seq<Value>, node: seq<Node>, lastfree: int, dummy: bool, at: seq<Pos>, p: nat, v: Value)
    requires Good(h, arr, node, lastfree, dummy, at) && Used(node, p)
    ensures var now := node[p := node[p].(val := v)];
            && Good(h, arr, now, lastfree, dummy, at) && FreeNodes(now) == FreeNodes(node)
            && forall j: Key :: Entry(now, j) == if j == node[p].key then v else Entry(node, j)
  {
    var now := node[p := node[p].(val := v)];
    StoreChains(h, node, at, p, v);
    hide Chains, MaxSize;
    forall j: Key ensures Entry(now, j) == if j == node[p].key then v else Entry(node, j) {
      if j == node[p].key {
        EntryIs(h, now, at, p, j);
      } else if q: int :| At(node, q, j) {
        SameEntry(h, node, at, now, at, q, q, j);
      } else {
        assert forall q: int :: At(now, q, j) ==> At(node, q, j);
        EntryNone(node, j);
        EntryNone(now, j);
      }
    }
    assert forall q: nat :: Used(now, q) == Used(node, q);
  }

  lemma StoreChains(h: Hash, node: seq<Node>, at: seq<Pos>, p: nat, v: Value)
    requires Chains(h, node, at) && p < |node|
    ensures Chains(h, node[p := node[p].(val := v)], at)
  {
    var now := node[p := node[p].(val := v)];
    forall q | 0 <= q < |now| ensures Forward(now, at, q) && Rooted(h, now, at, q) {
      assert Forward(node, at, q) && Rooted(h, node, at, q);
    }
    forall q, r | 0 <= q < |now| && 0 <= r < |now| ensures NoSkip(now, at, q, r) && Differ(now, at, q, r) {
      assert NoSkip(node, at, q, r) && Differ(node, at, q, r);
    }
  }

  // ---------------------------------------------------------------- a fresh hash part

  function Blank(size: nat): seq<Node>
  {
    seq(size, i => Node(NilKey, NilV, NONE))
  }

  function BlankAt(size: nat): seq<Pos>
  {
    seq(size, i => Pos(0, 0.0))
  }

  lemma BlankGood(h: Hash, arr: seq<Value>, size: nat, dummy: bool)
    requires 0 < size <= MaxSize() && |arr| <= MaxSize() && (dummy ==> size == 1)
    ensures Good(h, arr, Blank(size), if dummy then 0 else size, dummy, BlankAt(size))
    ensures |Blank(size)| == size && |FreeNodes(Blank(size))| == size && forall j: Key :: Entry(Blank(size), j) == NilV
  {
    var node, at := Blank(size), BlankAt(size);
    forall p | 0 <= p < |node| ensures Forward(node, at, p) {
    }
    forall j: Key ensures Entry(node, j) == NilV {
      EntryNone(node, j);
    }
    BlankFree(size);
    assert dummy ==> node == DUMMY;
    hide MaxSize;
  }

  lemma {:induction false} BlankFree(n: nat)
    ensures |FreeNodes(Blank(n))| == n
  {
    if n > 0 {
      BlankFree(n - 1);
      assert forall p: nat :: p < n - 1 ==> Blank(n)[p] == Blank(n - 1)[p];
      assert FreeNodes(Blank(n)) == FreeNodes(Blank(n - 1)) + {n - 1};
    } else {
      assert FreeNodes(Blank(0)) == {};
    }
  }

  // ---------------------------------------------------------------- what rebuilding has done so far

  /** The array part's values for the first i indices. */
  function FromArr(arr: seq<Value>, i: int, k: Key): Value
  {
    if InArr(arr, k) && k.n <= i then arr[k.n - 1] else NilV
  }

  /** All of those, and the values of the nodes from p on. */
  ghost function FromNodes(arr: seq<Value>, node: seq<Node>, p: int, k: Key): Value
  {
    if exists q: int :: p <= q && At(node, q, k) then Entry(node, k) else FromArr(arr, |arr|, k)
  }

  lemma FromAll(arr: seq<Value>, node: seq<Node>, k: Key)
    requires forall p :: 0 <= p < |node| ==> NodeOk(arr, node[p])
    ensures FromNodes(arr, node, 0, k) == Get(arr, node, k)
    ensures FromNodes(arr, node, |node|, k) == FromArr(arr, |arr|, k)
  {
    if q: int :| At(node, q, k) {
      assert NodeOk(arr, node[q]);
    } else {
      if !InArr(arr, k) {
        EntryNone(node, k);
      }
    }
  }

  /** One node more. */
  lemma FromNext(h: Hash, arr: seq<Value>, node: seq<Node>, lastfree: int, dummy: bool, at: seq<Pos>, p: nat, k: Key)
    requires Good(h, arr, node, lastfree, dummy, at) && p < |node|
    ensures FromNodes(arr, node, p, k) ==
              if Used(node, p) && k == node[p].key then node[p].val else FromNodes(arr, node, p + 1, k)
    ensures Used(node, p) && k == node[p].key ==> FromNodes(arr, node, p + 1, k) == NilV
  {
    hide MaxSize;
    assert NodeOk(arr, node[p]);
    if Used(node, p) && k == node[p].key {
      assert At(node, p, k);
      EntryIs(h, node, at, p, k);
      forall q: int | p + 1 <= q < |node| ensures !At(node, q, k) {
        assert Differ(node, at, p, q);
      }
    } else {
      hide Chains;
      assert forall q: int :: p <= q && At(node, q, k) ==> p + 1 <= q;
    }
  }
}
