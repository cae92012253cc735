/**
 The hash part of a Lua table: a chained scatter table in which collision chains are
 threaded through the nodes themselves.  A key outside its main position is always
 reached from there, because the slot there holds a key that belongs there.
 */
module LuaChains {

  datatype Value = NilV | Val(id: int)

  /** Keys: integers a C int can hold; everything else is compared by identity, and NaN is equal to nothing. */
  datatype Key = NilKey | NaNKey | IntKey(n: int) | OtherKey(id: int)

  datatype Node = Node(key: Key, val: Value, next: int)

  const NONE := -1

  /** Any hash of a key; it may depend on the table's size. */
  type Hash = (Key, nat) -> nat

  function MainPos(h: Hash, k: Key, size: nat): (p: nat)
    requires size > 0
    ensures p < size
  {
    h(k, size) % size
  }

  predicate Used(node: seq<Node>, p: int)
  {
    0 <= p < |node| && node[p].key != NilKey
  }

  /** The slot p holds the key. */
  predicate At(node: seq<Node>, p: int, k: Key)
  {
    Used(node, p) && node[p].key == k
  }

  // ---------------------------------------------------------------- the order of the chains

  /** Which chain a node is in, and where. */
  datatype Pos = Pos(id: nat, rank: real)

  predicate Before(a: Pos, b: Pos)
  {
    a.id == b.id && a.rank < b.rank
  }

  predicate UpTo(a: Pos, b: Pos)
  {
    a.id == b.id && a.rank <= b.rank
  }

  /** Links lead to used nodes further along the same chain; unused nodes have none. */
  predicate Forward(node: seq<Node>, at: seq<Pos>, p: nat)
    requires p < |node| == |at|
  {
    && (node[p].next != NONE ==> Used(node, p) && Used(node, node[p].next) && Before(at[p], at[node[p].next]))
  }

  /** No node of a chain is skipped. */
  predicate NoSkip(node: seq<Node>, at: seq<Pos>, p: nat, q: nat)
    requires p < |node| == |at| && q < |node|
  {
    Used(node, p) && Used(node, q) && Before(at[p], at[q]) ==>
      0 <= node[p].next < |node| && UpTo(at[node[p].next], at[q])
  }

  /** Nodes are at different places and hold different keys. */
  predicate Differ(node: seq<Node>, at: seq<Pos>, p: nat, q: nat)
    requires p < |node| == |at| && q < |node|
  {
    Used(node, p) && Used(node, q) && p != q ==> at[p] != at[q] && node[p].key != node[q].key
  }

  /** The key is reached from its main position, which holds a key that belongs there. */
  predicate Rooted(h: Hash, node: seq<Node>, at: seq<Pos>, p: nat)
    requires p < |node| == |at|
  {
    Used(node, p) ==>
      var m := MainPos(h, node[p].key, |node|);
      Used(node, m) && MainPos(h, node[m].key, |node|) == m && UpTo(at[m], at[p])
  }

  ghost predicate Chains(h: Hash, node: seq<Node>, at: seq<Pos>)
  {
    && |node| == |at|
    && (forall p :: 0 <= p < |node| ==> Forward(node, at, p))
    && (forall p, q :: 0 <= p < |node| && 0 <= q < |node| ==> NoSkip(node, at, p, q))
    && (forall p, q :: 0 <= p < |node| && 0 <= q < |node| ==> Differ(node, at, p, q))
    && (forall p :: 0 <= p < |node| ==> Rooted(h, node, at, p))
  }

  /** A chain that no node is in. */
  predicate Fresh(at: seq<Pos>, id: nat)
  {
    forall p :: 0 <= p < |at| ==> at[p].id < id
  }

  function Above(at: seq<Pos>): (id: nat)
    ensures Fresh(at, id)
  {
    if at == [] then 0
    else
      var a := Above(at[..|at| - 1]);
      var b := at[|at| - 1].id + 1;
      assert forall p :: 0 <= p < |at| - 1 ==> at[p] == at[..|at| - 1][p];
      if a < b then b else a
  }

  // ---------------------------------------------------------------- the entries

  /** The value stored for a key. */
  ghost function Entry(node: seq<Node>, k: Key): Value
  {
    if exists p: int :: At(node, p, k) then
      var p: int :| At(node, p, k);
      node[p].val
    else NilV
  }

  lemma EntryIs(h: Hash, node: seq<Node>, at: seq<Pos>, p: nat, k: Key)
    requires Chains(h, node, at) && At(node, p, k)
    ensures Entry(node, k) == node[p].val
  {
    forall q: int | At(node, q, k) ensures q == p {
      assert Differ(node, at, p, q);
    }
  }

  lemma EntryNone(node: seq<Node>, k: Key)
    requires forall p: int :: !At(node, p, k)
    ensures Entry(node, k) == NilV
  {
  }

  /** Nodes with the same keys and values, wherever they are, are the same entries. */
  lemma SameEntry(h: Hash, node: seq<Node>, at: seq<Pos>, now: seq<Node>, at': seq<Pos>, p: int, q: int, k: Key)
    requires Chains(h, node, at) && Chains(h, now, at')
    requires (At(node, p, k) && At(now, q, k) && node[p].val == now[q].val) || ((forall i: int :: !At(node, i, k)) && (forall i: int :: !At(now, i, k)))
    ensures Entry(now, k) == Entry(node, k)
  {
    if At(node, p, k) && At(now, q, k) {
      EntryIs(h, node, at, p, k);
      EntryIs(h, now, at', q, k);
    } else {
      EntryNone(node, k);
      EntryNone(now, k);
    }
    hide Chains;
  }

  // ---------------------------------------------------------------- searching

  /** If the key is anywhere, it is not before `cur` in its chain. */
  ghost predicate Ahead(node: seq<Node>, at: seq<Pos>, cur: nat, k: Key)
    requires cur < |node| == |at|
  {
    forall q: int :: At(node, q, k) ==> Used(node, cur) && UpTo(at[cur], at[q])
  }

  lemma AheadStart(h: Hash, node: seq<Node>, at: seq<Pos>, k: Key)
    requires Chains(h, node, at) && node != []
    ensures Ahead(node, at, MainPos(h, k, |node|), k)
  {
    forall q: int | At(node, q, k) ensures var m := MainPos(h, k, |node|); Used(node, m) && UpTo(at[m], at[q]) {
      assert Rooted(h, node, at, q);
    }
  }

  lemma AheadStep(h: Hash, node: seq<Node>, at: seq<Pos>, cur: nat, k: Key)
    requires Chains(h, node, at) && cur < |node| && Ahead(node, at, cur, k) && !At(node, cur, k)
    ensures node[cur].next == NONE ==> forall q: int :: !At(node, q, k)
    ensures node[cur].next != NONE ==> 0 <= node[cur].next < |node| && Used(node, cur) && Before(at[cur], at[node[cur].next]) && Ahead(node, at, node[cur].next, k)
  {
    assert Forward(node, at, cur);
    forall q: int | At(node, q, k) ensures 0 <= node[cur].next < |node| && Used(node, node[cur].next) && UpTo(at[node[cur].next], at[q]) {
      assert Differ(node, at, cur, q) && NoSkip(node, at, cur, q);
    }
  }

  /** The nodes that are still ahead: what a search has left to do. */
  ghost function Rest(node: seq<Node>, at: seq<Pos>, cur: nat): set<nat>
    requires cur < |node| == |at|
  {
    set q | 0 <= q < |node| && Before(at[cur], at[q])
  }

  lemma RestShrinks(node: seq<Node>, at: seq<Pos>, cur: nat, next: nat)
    requires |node| == |at| && cur < |node| && next < |node| && Before(at[cur], at[next])
    ensures Rest(node, at, next) < Rest(node, at, cur)
  {
    assert next in Rest(node, at, cur) && next !in Rest(node, at, next);
  }
}
