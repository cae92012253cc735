/**
 Inserting a key into the hash part: over a dead entry in its main position, behind
 a key that belongs there, or in place of one that does not and moves out.
 */
module LuaInsert {
  import opened LuaChains

  ghost predicate Holds(node: seq<Node>, k: Key)
  {
    exists p: int :: At(node, p, k)
  }

  /** The key has got a slot; the entries are as they were. */
  ghost predicate Inserted(h: Hash, node: seq<Node>, now: seq<Node>, at: seq<Pos>, k: Key, p: int)
  {
    && |now| == |node| && Chains(h, now, at) && At(now, p, k) && now[p].val == NilV
    && (forall j: Key :: Entry(now, j) == Entry(node, j))
    && (forall j: Key :: Holds(now, j) ==> Holds(node, j) || j == k)
  }

  // ---------------------------------------------------------------- a dead or unused main position

  function OverMain(node: seq<Node>, m: nat, k: Key): seq<Node>
    requires m < |node|
  {
    node[m := Node(k, NilV, node[m].next)]
  }

  function OverMainAt(node: seq<Node>, at: seq<Pos>, m: nat): seq<Pos>
    requires m < |node| == |at|
  {
    if Used(node, m) then at else at[m := Pos(Above(at), 0.0)]
  }

  lemma OverMainChains(h: Hash, node: seq<Node>, at: seq<Pos>, k: Key)
    requires Chains(h, node, at) && node != [] && k != NilKey && (forall q: int :: !At(node, q, k))
    ensures var m := MainPos(h, k, |node|); Chains(h, OverMain(node, m, k), OverMainAt(node, at, m))
  {
    var m := MainPos(h, k, |node|);
    var now, at' := OverMain(node, m, k), OverMainAt(node, at, m);
    forall p | 0 <= p < |now| ensures Forward(now, at', p) {
      assert Forward(node, at, p) && Forward(node, at, m);
    }
    forall p, q | 0 <= p < |now| && 0 <= q < |now| ensures NoSkip(now, at', p, q) && Differ(now, at', p, q) {
      assert NoSkip(node, at, p, q) && Differ(node, at, p, q) && Forward(node, at, p);
      assert At(node, q, k) == false && At(node, p, k) == false;
    }
    forall p | 0 <= p < |now| ensures Rooted(h, now, at', p) {
      assert Rooted(h, node, at, p);
    }
  }

  lemma OverMainEntry(h: Hash, node: seq<Node>, at: seq<Pos>, k: Key, j: Key)
    requires Chains(h, node, at) && node != [] && k != NilKey && (forall q: int :: !At(node, q, k))
    requires node[MainPos(h, k, |node|)].val == NilV
    ensures var now := OverMain(node, MainPos(h, k, |node|), k); Entry(now, j) == Entry(node, j) && (Holds(now, j) ==> Holds(node, j) || j == k)
  {
    var m := MainPos(h, k, |node|);
    var now, at' := OverMain(node, m, k), OverMainAt(node, at, m);
    OverMainChains(h, node, at, k);
    OneChanged(h, node, at, now, at', m, k, j);
  }

  /** Only slot m has changed, from nothing or a dead entry to the new key. */
  lemma OneChanged(h: Hash, node: seq<Node>, at: seq<Pos>, now: seq<Node>, at': seq<Pos>, m: nat, k: Key, j: Key)
    requires Chains(h, node, at) && Chains(h, now, at') && |now| == |node| && m < |node|
    requires forall p :: 0 <= p < |node| && p != m ==> now[p].key == node[p].key && now[p].val == node[p].val
    requires node[m].val == NilV && now[m].val == NilV && now[m].key == k && (forall q: int :: !At(node, q, k))
    ensures Entry(now, j) == Entry(node, j) && (Holds(now, j) ==> Holds(node, j) || j == k)
  {
    if j == k {
      EntryNone(node, k);
      if At(now, m, k) {
        EntryIs(h, now, at', m, k);
      } else {
        forall q: int ensures !At(now, q, k) {
          assert !At(node, q, k);
        }
        EntryNone(now, k);
      }
    } else if p: int :| At(now, p, j) {
      assert At(node, p, j);
      EntryIs(h, node, at, p, j);
      EntryIs(h, now, at', p, j);
    } else {
      EntryNone(now, j);
      if p: int :| At(node, p, j) {
        assert !At(now, p, j);
        EntryIs(h, node, at, p, j);
      } else {
        EntryNone(node, j);
      }
    }
    hide Chains;
  }

  // ---------------------------------------------------------------- behind a key that belongs there

  function Behind(node: seq<Node>, m: nat, n: nat, k: Key): seq<Node>
    requires m < |node| && n < |node|
  {
    node[m := node[m].(next := n)][n := Node(k, NilV, node[m].next)]
  }

  function Middle(at: seq<Pos>, node: seq<Node>, m: nat): Pos
    requires m < |node| == |at|
  {
    if 0 <= node[m].next < |node| then Pos(at[m].id, (at[m].rank + at[node[m].next].rank) / 2.0)
    else Pos(at[m].id, at[m].rank + 1.0)
  }

  lemma BehindChains(h: Hash, node: seq<Node>, at: seq<Pos>, k: Key, n: nat)
    requires Chains(h, node, at) && n < |node| && k != NilKey && (forall q: int :: !At(node, q, k)) && !Used(node, n)
    requires var m := MainPos(h, k, |node|); Used(node, m) && MainPos(h, node[m].key, |node|) == m
    ensures var m := MainPos(h, k, |node|); Chains(h, Behind(node, m, n, k), at[n := Middle(at, node, m)])
  {
    var m := MainPos(h, k, |node|);
    var now, at' := Behind(node, m, n, k), at[n := Middle(at, node, m)];
    assert Forward(node, at, m);
    forall p | 0 <= p < |now| ensures Forward(now, at', p) {
      assert Forward(node, at, p);
    }
    forall p, q | 0 <= p < |now| && 0 <= q < |now| ensures NoSkip(now, at', p, q) {
      BehindNoSkip(h, node, at, k, n, p, q);
    }
    forall p, q | 0 <= p < |now| && 0 <= q < |now| ensures Differ(now, at', p, q) {
      BehindDiffer(h, node, at, k, n, p, q);
    }
    forall p | 0 <= p < |now| ensures Rooted(h, now, at', p) {
      assert Rooted(h, node, at, p);
    }
  }

  lemma BehindNoSkip(h: Hash, node: seq<Node>, at: seq<Pos>, k: Key, n: nat, p: nat, q: nat)
    requires Chains(h, node, at) && n < |node| && p < |node| && q < |node| && !Used(node, n)
    requires Used(node, MainPos(h, k, |node|))
    ensures var m := MainPos(h, k, |node|); NoSkip(Behind(node, m, n, k), at[n := Middle(at, node, m)], p, q)
  {
    var m := MainPos(h, k, |node|);
    assert Forward(node, at, m) && Forward(node, at, p);
    assert NoSkip(node, at, p, q) && NoSkip(node, at, m, q) && NoSkip(node, at, p, m) && NoSkip(node, at, m, p);
    assert Differ(node, at, p, m) && Differ(node, at, m, q);
    hide Chains;
  }

  lemma BehindDiffer(h: Hash, node: seq<Node>, at: seq<Pos>, k: Key, n: nat, p: nat, q: nat)
    requires Chains(h, node, at) && n < |node| && p < |node| && q < |node| && !Used(node, n) && (forall i: int :: !At(node, i, k))
    requires Used(node, MainPos(h, k, |node|))
    ensures var m := MainPos(h, k, |node|); Differ(Behind(node, m, n, k), at[n := Middle(at, node, m)], p, q)
  {
    var m := MainPos(h, k, |node|);
    assert Forward(node, at, m);
    assert !At(node, p, k) && !At(node, q, k);
    assert Differ(node, at, p, q) && NoSkip(node, at, m, q) && NoSkip(node, at, m, p);
    hide Chains;
  }

  lemma BehindEntry(h: Hash, node: seq<Node>, at: seq<Pos>, k: Key, n: nat, j: Key)
    requires Chains(h, node, at) && n < |node| && k != NilKey && (forall q: int :: !At(node, q, k)) && !Used(node, n) && node[n].val == NilV
    requires var m := MainPos(h, k, |node|); Used(node, m) && MainPos(h, node[m].key, |node|) == m
    ensures var now := Behind(node, MainPos(h, k, |node|), n, k); Entry(now, j) == Entry(node, j) && (Holds(now, j) ==> Holds(node, j) || j == k)
  {
    var m := MainPos(h, k, |node|);
    BehindChains(h, node, at, k, n);
    OneChanged(h, node, at, Behind(node, m, n, k), at[n := Middle(at, node, m)], n, k, j);
  }

  // ---------------------------------------------------------------- in place of one that does not belong

  function MovedOut(node: seq<Node>, m: nat, n: nat, prev: nat, k: Key): seq<Node>
    requires m < |node| && n < |node| && prev < |node|
  {
    node[prev := node[prev].(next := n)][n := node[m]][m := Node(k, NilV, NONE)]
  }

  function MovedAt(at: seq<Pos>, m: nat, n: nat): seq<Pos>
    requires m < |at| && n < |at|
  {
    at[n := at[m]][m := Pos(Above(at), 0.0)]
  }

  /** The colliding node sits at m, where it does not belong; `prev` leads to it; n is free. */
  ghost predicate Intruder(h: Hash, node: seq<Node>, at: seq<Pos>, m: nat, n: nat, prev: nat, k: Key)
  {
    && Chains(h, node, at) && m < |node| && n < |node| && prev < |node| && k != NilKey && MainPos(h, k, |node|) == m
    && (forall q: int :: !At(node, q, k)) && !Used(node, n)
    && Used(node, m) && MainPos(h, node[m].key, |node|) != m && Used(node, prev) && node[prev].next == m
  }

  lemma MovedChains(h: Hash, node: seq<Node>, at: seq<Pos>, k: Key, m: nat, n: nat, prev: nat)
    requires Intruder(h, node, at, m, n, prev, k)
    ensures Chains(h, MovedOut(node, m, n, prev, k), MovedAt(at, m, n))
  {
    var now, at' := MovedOut(node, m, n, prev, k), MovedAt(at, m, n);
    forall p | 0 <= p < |now| ensures Forward(now, at', p) {
      MovedForward(h, node, at, k, m, n, prev, p);
    }
    forall p, q | 0 <= p < |now| && 0 <= q < |now| ensures NoSkip(now, at', p, q) {
      MovedNoSkip(h, node, at, k, m, n, prev, p, q);
    }
    forall p, q | 0 <= p < |now| && 0 <= q < |now| ensures Differ(now, at', p, q) {
      MovedDiffer(h, node, at, k, m, n, prev, p, q);
    }
    forall p | 0 <= p < |now| ensures Rooted(h, now, at', p) {
      MovedRooted(h, node, at, k, m, n, prev, p);
    }
  }

  /** Only one node leads to m. */
  lemma OnePrevious(h: Hash, node: seq<Node>, at: seq<Pos>, m: nat, prev: nat, p: nat)
    requires Chains(h, node, at) && m < |node| && prev < |node| && p < |node| && Used(node, prev) && node[prev].next == m && node[p].next == m
    ensures p == prev
  {
    assert Forward(node, at, p) && Forward(node, at, prev) && NoSkip(node, at, p, prev) && NoSkip(node, at, prev, p) && Differ(node, at, p, prev);
  }

  lemma MovedForward(h: Hash, node: seq<Node>, at: seq<Pos>, k: Key, m: nat, n: nat, prev: nat, p: nat)
    requires Intruder(h, node, at, m, n, prev, k) && p < |node|
    ensures Forward(MovedOut(node, m, n, prev, k), MovedAt(at, m, n), p)
  {
    assert Forward(node, at, p) && Forward(node, at, prev) && Forward(node, at, m);
    if node[p].next == m {
      OnePrevious(h, node, at, m, prev, p);
    }
    hide Chains;
  }

  lemma MovedNoSkip(h: Hash, node: seq<Node>, at: seq<Pos>, k: Key, m: nat, n: nat, prev: nat, p: nat, q: nat)
    requires Intruder(h, node, at, m, n, prev, k) && p < |node| && q < |node|
    ensures NoSkip(MovedOut(node, m, n, prev, k), MovedAt(at, m, n), p, q)
  {
    assert Forward(node, at, p) && Forward(node, at, prev) && Forward(node, at, m);
    if 0 <= p < |node| && node[p].next == m {
      OnePrevious(h, node, at, m, prev, p);
    }
    assert NoSkip(node, at, p, q) && NoSkip(node, at, m, q) && NoSkip(node, at, p, m);
    assert Differ(node, at, p, q) && Differ(node, at, p, m) && Differ(node, at, m, q);
    hide Chains;
  }

  lemma MovedDiffer(h: Hash, node: seq<Node>, at: seq<Pos>, k: Key, m: nat, n: nat, prev: nat, p: nat, q: nat)
    requires Intruder(h, node, at, m, n, prev, k) && p < |node| && q < |node|
    ensures Differ(MovedOut(node, m, n, prev, k), MovedAt(at, m, n), p, q)
  {
    assert !At(node, p, k) && !At(node, q, k) && !At(node, m, k);
    assert Differ(node, at, p, q) && Differ(node, at, m, q) && Differ(node, at, p, m);
    hide Chains;
  }

  lemma MovedRooted(h: Hash, node: seq<Node>, at: seq<Pos>, k: Key, m: nat, n: nat, prev: nat, p: nat)
    requires Intruder(h, node, at, m, n, prev, k) && p < |node|
    ensures Rooted(h, MovedOut(node, m, n, prev, k), MovedAt(at, m, n), p)
  {
    assert Rooted(h, node, at, p) && Rooted(h, node, at, m);
    hide Chains;
  }

  lemma MovedEntry(h: Hash, node: seq<Node>, at: seq<Pos>, k: Key, m: nat, n: nat, prev: nat, j: Key)
    requires Intruder(h, node, at, m, n, prev, k)
    ensures var now := MovedOut(node, m, n, prev, k); Entry(now, j) == Entry(node, j) && (Holds(now, j) ==> Holds(node, j) || j == k)
  {
    var now, at' := MovedOut(node, m, n, prev, k), MovedAt(at, m, n);
    MovedChains(h, node, at, k, m, n, prev);
    assert forall p: int :: At(now, p, j) <==> if p == m then j == k else if p == n then At(node, m, j) else At(node, p, j);
    if j == k {
      EntryNone(node, k);
      EntryIs(h, now, at', m, k);
    } else if p: int :| At(node, p, j) {
      var q := if p == m then n else p;
      assert At(now, q, j);
      SameEntry(h, node, at, now, at', p, q, j);
    } else {
      SameEntry(h, node, at, now, at', m, m, j);
    }
    hide Chains;
  }
}
