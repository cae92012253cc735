/**
 Choosing the sizes of a table's two parts: the array part gets the largest power of
 two more than half of whose slots will be in use, the hash part has room for all
 other entries.
 */
module LuaSizes {
  import opened Powers
  import opened LuaChains

  const MAXBITS := 26

  lemma {:induction false} PowGrows(i: nat, j: nat)
    requires i < j
    ensures 2 * Pow2(i) <= Pow2(j)
    decreases j
  {
    if i < j - 1 {
      PowGrows(i, j - 1);
    }
  }

  function MaxSize(): nat
  {
    Pow2(MAXBITS)
  }

  /** The least exponent whose power of two is at least x. */
  function CeilLog2(x: nat): nat
  {
    if x <= 1 then 0 else 1 + CeilLog2((x + 1) / 2)
  }

  lemma {:induction false} CeilLog2Is(x: nat)
    requires x >= 1
    ensures x <= Pow2(CeilLog2(x)) && (x > 1 ==> Pow2(CeilLog2(x) - 1) < x)
  {
    if x > 1 {
      CeilLog2Is((x + 1) / 2);
    }
  }

  /** The slice of keys that share a counter: those above 2^(i-1), up to 2^i. */
  predicate InSlice(k: int, i: nat)
  {
    k <= Pow2(i) && if i == 0 then k >= 1 else k > Pow2(i - 1)
  }

  lemma SliceOf(k: nat, i: nat)
    requires k >= 1
    ensures InSlice(k, i) <==> i == CeilLog2(k)
  {
    var c := CeilLog2(k);
    CeilLog2Is(k);
    if i < c {
      PowUpTo(i, c - 1);
    } else if i > c {
      PowUpTo(c, i - 1);
    }
  }

  lemma PowUpTo(i: nat, j: nat)
    requires i <= j
    ensures Pow2(i) <= Pow2(j)
  {
    if i < j {
      PowGrows(i, j);
    }
  }

  ghost function Slice(s: set<int>, i: nat): set<int>
  {
    set k | k in s && InSlice(k, i)
  }

  ghost function InRange(s: set<int>, n: int): set<int>
  {
    set k | k in s && 1 <= k <= n
  }

  /** How many of 1..n are in use. */
  ghost function Count(s: set<int>, n: int): nat
  {
    |InRange(s, n)|
  }

  lemma CountAdd(s: set<int>, k: int, n: int)
    requires k !in s
    ensures Count(s + {k}, n) == Count(s, n) + if 1 <= k <= n then 1 else 0
  {
    if 1 <= k <= n {
      assert InRange(s + {k}, n) == InRange(s, n) + {k};
    } else {
      assert InRange(s + {k}, n) == InRange(s, n);
    }
  }

  lemma SliceAdd(s: set<int>, k: int, i: nat)
    requires k !in s
    ensures |Slice(s + {k}, i)| == |Slice(s, i)| + if InSlice(k, i) then 1 else 0
  {
    if InSlice(k, i) {
      assert Slice(s + {k}, i) == Slice(s, i) + {k};
    } else {
      assert Slice(s + {k}, i) == Slice(s, i);
    }
  }

  lemma CountUnion(s: set<int>, t: set<int>, n: int)
    requires s !! t
    ensures Count(s + t, n) == Count(s, n) + Count(t, n)
  {
    assert InRange(s + t, n) == InRange(s, n) + InRange(t, n);
  }

  lemma CountSlice(s: set<int>, i: nat)
    requires i > 0
    ensures Count(s, Pow2(i)) == Count(s, Pow2(i - 1)) + |Slice(s, i)|
  {
    assert InRange(s, Pow2(i)) == InRange(s, Pow2(i - 1)) + Slice(s, i);
  }

  lemma CountFirst(s: set<int>)
    ensures Count(s, 1) == |Slice(s, 0)| && Count(s, 0) == 0
  {
    assert InRange(s, 1) == Slice(s, 0);
    assert InRange(s, 0) == {};
  }

  lemma CountWithin(s: set<int>, n: nat)
    ensures Count(s, n) <= n && Count(s, n) <= |s|
  {
    Within(s, n);
    SubsetSize(InRange(s, n), s);
  }

  lemma {:induction false} Within(s: set<int>, n: nat)
    ensures |InRange(s, n)| <= n
    decreases n
  {
    if n == 0 {
      assert InRange(s, 0) == {};
    } else {
      Within(s, n - 1);
      assert InRange(s, n) <= InRange(s, n - 1) + {n};
      SubsetSize(InRange(s, n), InRange(s, n - 1) + {n});
    }
  }

  lemma SubsetSize(a: set<int>, b: set<int>)
    requires a <= b
    ensures |a| <= |b|
  {
    assert b == a + (b - a);
  }

  lemma CountMore(s: set<int>, m: int, n: int)
    requires m <= n
    ensures Count(s, m) <= Count(s, n)
  {
    SubsetSize(InRange(s, m), InRange(s, n));
  }

  /** The counters say how many keys of the set are in each slice. */
  ghost predicate NumsFor(nums: seq<nat>, s: set<int>)
  {
    && |nums| == MAXBITS + 1 && (forall k :: k in s ==> 1 <= k <= MaxSize())
    && forall i :: 0 <= i <= MAXBITS ==> nums[i] == |Slice(s, i)|
  }

  lemma NumsAdd(nums: seq<nat>, s: set<int>, k: nat)
    requires NumsFor(nums, s) && k !in s && 1 <= k <= MaxSize()
    ensures CeilLog2(k) <= MAXBITS && NumsFor(nums[CeilLog2(k) := nums[CeilLog2(k)] + 1], s + {k})
  {
    CeilLog2Is(k);
    if CeilLog2(k) > MAXBITS {
      PowUpTo(MAXBITS, CeilLog2(k) - 1);
    }
    forall i | 0 <= i <= MAXBITS ensures |Slice(s + {k}, i)| == |Slice(s, i)| + if i == CeilLog2(k) then 1 else 0 {
      SliceAdd(s, k, i);
      SliceOf(k, i);
    }
  }

  // ---------------------------------------------------------------- the size of the array part

  /** n is the right size: more than half of it will be in use, and of no larger candidate. */
  ghost predicate BestSize(s: set<int>, n: nat)
  {
    && (n == 0 || exists j :: 0 <= j <= MAXBITS && n == Pow2(j) && 2 * Count(s, n) > n)
    && forall j :: 0 <= j <= MAXBITS && Pow2(j) > n ==> 2 * Count(s, Pow2(j)) <= Pow2(j)
  }

  /** No candidate between n and 2^i (excluded) is more than half in use. */
  ghost predicate BestBelow(s: set<int>, n: nat, i: nat)
  {
    && (n == 0 || exists j :: 0 <= j < i && j <= MAXBITS && n == Pow2(j) && 2 * Count(s, n) > n)
    && forall j :: 0 <= j < i && Pow2(j) > n ==> 2 * Count(s, Pow2(j)) <= Pow2(j)
  }

  lemma TakeSize(s: set<int>, n: nat, i: nat)
    requires BestBelow(s, n, i) && i <= MAXBITS && 2 * Count(s, Pow2(i)) > Pow2(i)
    ensures BestBelow(s, Pow2(i), i + 1)
  {
    forall j | 0 <= j < i + 1 ensures Pow2(j) <= Pow2(i) {
      PowUpTo(j, i);
    }
    hide Count;
  }

  lemma SkipSize(s: set<int>, n: nat, i: nat)
    requires BestBelow(s, n, i) && 2 * Count(s, Pow2(i)) <= Pow2(i)
    ensures BestBelow(s, n, i + 1)
  {
    hide Count;
  }

  lemma RestDone(s: set<int>, n: nat, i: nat)
    requires BestBelow(s, n, i) && 2 * |s| <= Pow2(i)
    ensures BestSize(s, n)
  {
    forall j | 0 <= j <= MAXBITS && Pow2(j) > n ensures 2 * Count(s, Pow2(j)) <= Pow2(j) {
      if j >= i {
        PowUpTo(i, j);
        CountWithin(s, Pow2(j));
      }
    }
    hide Count;
  }

  /** The count up to 2^i, from the count up to the slice before. */
  lemma NextCount(s: set<int>, i: nat, a: nat)
    requires a == if i == 0 then 0 else Count(s, Pow2(i - 1))
    ensures Count(s, Pow2(i)) == a + |Slice(s, i)| && Count(s, Pow2(i)) <= Pow2(i) && Count(s, Pow2(i)) <= |s|
    ensures |Slice(s, i)| == 0 ==> 2 * Count(s, Pow2(i)) <= Pow2(i)
  {
    if i == 0 {
      CountFirst(s);
    } else {
      CountSlice(s, i);
      CountWithin(s, Pow2(i - 1));
    }
    CountWithin(s, Pow2(i));
    hide Count;
  }

  lemma AllKeys(nums: seq<nat>, s: set<int>)
    requires NumsFor(nums, s)
    ensures |s| <= MaxSize()
  {
    assert InRange(s, MaxSize()) == s;
    CountWithin(s, MaxSize());
  }

  lemma NumsAt(nums: seq<nat>, s: set<int>, i: nat)
    requires NumsFor(nums, s) && i <= MAXBITS
    ensures |nums| == MAXBITS + 1 && nums[i] == |Slice(s, i)|
  {
  }

  method ComputeSizes(nums: seq<nat>, narray: nat, ghost s: set<int>) returns (n: nat, na: nat)
    requires NumsFor(nums, s) && narray == |s|
    ensures BestSize(s, n) && na == Count(s, n)
  {
    var a := 0;
    n, na := 0, 0;
    var i, twotoi := 0, 1;
    CountFirst(s);
    AllKeys(nums, s);
    while twotoi / 2 < narray
      invariant twotoi == Pow2(i) && i <= MAXBITS + 1
      invariant a == if i == 0 then 0 else Count(s, Pow2(i - 1))
      invariant BestBelow(s, n, i) && na == Count(s, n)
      decreases MAXBITS + 1 - i
    {
      hide BestBelow, Count, Slice, NumsFor;
      assert i <= MAXBITS;
      NextCount(s, i, a);
      NumsAt(nums, s, i);
      if nums[i] > 0 {
        a := a + nums[i];
        if a > twotoi / 2 {
          TakeSize(s, n, i);
          n := twotoi;
          na := a;
        } else {
          SkipSize(s, n, i);
        }
      } else {
        SkipSize(s, n, i);
      }
      if a == narray {
        RestDone(s, n, i + 1);
        return;
      }
      i := i + 1;
      twotoi := twotoi * 2;
    }
    RestDone(s, n, i);
  }

  /** The first of the candidates: nothing larger would be more than half in use. */
  lemma BestFits(s: set<int>, n: nat)
    requires BestSize(s, n)
    ensures n <= MaxSize() && Count(s, n) <= n && n <= 2 * Count(s, n)
  {
    CountWithin(s, n);
    if n > 0 {
      var j :| 0 <= j <= MAXBITS && n == Pow2(j) && 2 * Count(s, n) > n;
      PowUpTo(j, MAXBITS);
    }
    hide Count;
  }

  // ---------------------------------------------------------------- counting what is in use

  predicate InUse(arr: seq<Value>, n: int)
  {
    1 <= n <= |arr| && arr[n - 1] != NilV
  }

  /** The indices in use among the first i of the array part. */
  ghost function ArrInts(arr: seq<Value>, i: int): set<int>
  {
    set n | 1 <= n <= i && InUse(arr, n)
  }

  lemma ArrNext(arr: seq<Value>, i: nat)
    requires 1 <= i <= |arr|
    ensures i !in ArrInts(arr, i - 1)
    ensures ArrInts(arr, i) == if arr[i - 1] != NilV then ArrInts(arr, i - 1) + {i} else ArrInts(arr, i - 1)
  {
  }

  lemma OneMore(nums: seq<nat>, lg: nat, lc: nat, s: set<int>, i: nat)
    requires |nums| == MAXBITS + 1 && lg <= MAXBITS && NumsFor(nums[lg := nums[lg] + lc], s)
    requires InSlice(i, lg) && i !in s
    ensures NumsFor(nums[lg := nums[lg] + (lc + 1)], s + {i})
  {
    SliceOf(i, lg);
    PowUpTo(lg, MAXBITS);
    NumsAdd(nums[lg := nums[lg] + lc], s, i);
    hide NumsFor;
    assert nums[lg := nums[lg] + (lc + 1)] == nums[lg := nums[lg] + lc][lg := nums[lg] + lc + 1];
  }

  /** Counts the used slots from i to lim, all in one slice. */
  method CountSlots(arr: seq<Value>, i0: nat, lim: nat, nums: seq<nat>, lg: nat) returns (i: nat, lc: nat)
    requires 1 <= i0 <= lim + 1 && lim <= |arr| && lg <= MAXBITS && lim <= Pow2(lg) && (lg > 0 ==> i0 > Pow2(lg - 1))
    requires NumsFor(nums, ArrInts(arr, i0 - 1))
    ensures i == lim + 1 && |nums| == MAXBITS + 1 && NumsFor(nums[lg := nums[lg] + lc], ArrInts(arr, lim))
    ensures |ArrInts(arr, lim)| == |ArrInts(arr, i0 - 1)| + lc
  {
    hide NumsFor, ArrInts, Pow2;
    NumsSize(nums, ArrInts(arr, i0 - 1));
    i, lc := i0, 0;
    assert nums[lg := nums[lg] + 0] == nums;
    while i <= lim
      invariant i0 <= i <= lim + 1 && |ArrInts(arr, i - 1)| == |ArrInts(arr, i0 - 1)| + lc
      invariant NumsFor(nums[lg := nums[lg] + lc], ArrInts(arr, i - 1))
    {
      ArrNext(arr, i);
      if arr[i - 1] != NilV {
        OneMore(nums, lg, lc, ArrInts(arr, i - 1), i);
        lc := lc + 1;
      }
      i := i + 1;
    }
  }

  method NumUseArray(arr: seq<Value>, nums0: seq<nat>) returns (nums: seq<nat>, ause: nat)
    requires NumsFor(nums0, {}) && |arr| <= MaxSize()
    ensures NumsFor(nums, ArrInts(arr, |arr|)) && ause == |ArrInts(arr, |arr|)|
  {
    nums, ause := nums0, 0;
    var i, lg, ttlg := 1, 0, 1;
    assert ArrInts(arr, 0) == {};
    hide NumsFor, ArrInts;
    while lg <= MAXBITS
      invariant lg <= MAXBITS + 1 && ttlg == Pow2(lg) && 1 <= i <= |arr| + 1
      invariant i - 1 == if lg == 0 then 0 else if Pow2(lg - 1) <= |arr| then Pow2(lg - 1) else |arr|
      invariant NumsFor(nums, ArrInts(arr, i - 1)) && ause == |ArrInts(arr, i - 1)|
    {
      var lc, lim := 0, ttlg;
      if lim > |arr| {
        lim := |arr|;
        if i > lim {
          break;
        }
      }
      i, lc := CountSlots(arr, i, lim, nums, lg);
      nums := nums[lg := nums[lg] + lc];
      ause := ause + lc;
      lg := lg + 1;
      ttlg := ttlg * 2;
    }
  }

  lemma NumsSize(nums: seq<nat>, s: set<int>)
    requires NumsFor(nums, s)
    ensures |nums| == MAXBITS + 1
  {
  }

  /** Keys that can live in the array part. */
  predicate ArrayKey(k: Key)
  {
    k.IntKey? && 1 <= k.n <= MaxSize()
  }

  method CountInt(k: Key, nums0: seq<nat>, ghost s: set<int>) returns (nums: seq<nat>, c: nat)
    requires NumsFor(nums0, s) && (ArrayKey(k) ==> k.n !in s)
    ensures NumsFor(nums, if ArrayKey(k) then s + {k.n} else s) && c == if ArrayKey(k) then 1 else 0
  {
    nums, c := nums0, 0;
    if ArrayKey(k) {
      NumsAdd(nums, s, k.n);
      NumsSize(nums, s);
      hide NumsFor;
      nums := nums[CeilLog2(k.n) := nums[CeilLog2(k.n)] + 1];
      c := 1;
    }
  }

  /** The array keys of the live nodes from p on. */
  ghost function HashInts(node: seq<Node>, p: nat): set<int>
    decreases |node| - p
  {
    if p >= |node| then {}
    else HashInts(node, p + 1) + if node[p].val != NilV && ArrayKey(node[p].key) then {node[p].key.n} else {}
  }

  /** How many nodes from p on are live. */
  ghost function Live(node: seq<Node>, p: nat): nat
    decreases |node| - p
  {
    if p >= |node| then 0 else Live(node, p + 1) + if node[p].val != NilV then 1 else 0
  }

  /** How many of these will not find their key in an array part of n slots. */
  ghost function Outside(node: seq<Node>, p: nat, n: nat): nat
    decreases |node| - p
  {
    if p >= |node| then 0
    else Outside(node, p + 1, n) + if node[p].val != NilV && !(node[p].key.IntKey? && 1 <= node[p].key.n <= n) then 1 else 0
  }

  ghost predicate KeysDiffer(node: seq<Node>)
  {
    forall p, q :: 0 <= p < q < |node| && node[p].key != NilKey ==> node[p].key != node[q].key
  }

  lemma {:induction false} HashIntsAre(node: seq<Node>, p: nat, n: int)
    ensures n in HashInts(node, p) <==> exists q :: p <= q < |node| && node[q].val != NilV && ArrayKey(node[q].key) && node[q].key.n == n
    decreases |node| - p
  {
    if p < |node| {
      HashIntsAre(node, p + 1, n);
      if node[p].val != NilV && ArrayKey(node[p].key) && node[p].key.n == n {
        assert n in HashInts(node, p);
      }
    }
  }

  lemma FreshInt(node: seq<Node>, p: nat)
    requires KeysDiffer(node) && p < |node| && ArrayKey(node[p].key)
    ensures node[p].key.n !in HashInts(node, p + 1)
  {
    HashIntsAre(node, p + 1, node[p].key.n);
  }

  lemma {:induction false} LiveSplit(node: seq<Node>, p: nat, n: nat)
    requires KeysDiffer(node) && n <= MaxSize()
    ensures Live(node, p) == Outside(node, p, n) + Count(HashInts(node, p), n)
    decreases |node| - p
  {
    if p < |node| {
      LiveSplit(node, p + 1, n);
      if node[p].val != NilV && ArrayKey(node[p].key) {
        FreshInt(node, p);
        CountAdd(HashInts(node, p + 1), node[p].key.n, n);
      } else {
        assert HashInts(node, p) == HashInts(node, p + 1);
      }
    } else {
      assert InRange({}, n) == {};
    }
    hide Count, KeysDiffer;
  }

  /** One more node. */
  lemma HashNext(node: seq<Node>, s: set<int>, i: nat)
    requires KeysDiffer(node) && i < |node| && s !! HashInts(node, 0)
    ensures var k := node[i].key; var all := s + HashInts(node, i + 1);
            if node[i].val == NilV then s + HashInts(node, i) == all && HashInts(node, i) == HashInts(node, i + 1)
            else if ArrayKey(k) then
              k.n !in all && s + HashInts(node, i) == all + {k.n} && |HashInts(node, i)| == |HashInts(node, i + 1)| + 1
            else s + HashInts(node, i) == all && HashInts(node, i) == HashInts(node, i + 1)
    ensures Live(node, i) == Live(node, i + 1) + if node[i].val == NilV then 0 else 1
  {
    hide Live, HashInts, KeysDiffer, MaxSize;
    HashUnfold(node, i);
    if node[i].val != NilV && ArrayKey(node[i].key) {
      FreshInt(node, i);
      HashIntsAre(node, 0, node[i].key.n);
      AddOne(s, HashInts(node, i + 1), node[i].key.n);
    }
  }

  lemma AddOne(s: set<int>, t: set<int>, n: int)
    requires n !in s && n !in t
    ensures n !in s + t && s + (t + {n}) == s + t + {n} && |t + {n}| == |t| + 1
  {
  }

  lemma HashUnfold(node: seq<Node>, i: nat)
    requires i < |node|
    ensures HashInts(node, i) == if node[i].val != NilV && ArrayKey(node[i].key) then HashInts(node, i + 1) + {node[i].key.n} else HashInts(node, i + 1)
    ensures Live(node, i) == Live(node, i + 1) + if node[i].val == NilV then 0 else 1
  {
    assert HashInts(node, i + 1) + {} == HashInts(node, i + 1);
    hide ArrayKey;
  }

  method NumUseHash(node: seq<Node>, nums0: seq<nat>, ghost s: set<int>) returns (nums: seq<nat>, total: nat, ause: nat)
    requires NumsFor(nums0, s) && KeysDiffer(node) && s !! HashInts(node, 0)
    ensures NumsFor(nums, s + HashInts(node, 0)) && total == Live(node, 0) && ause == |HashInts(node, 0)|
  {
    nums, total, ause := nums0, 0, 0;
    var i := |node|;
    assert Live(node, i) == 0 && HashInts(node, i) == {} && s + HashInts(node, i) == s;
    hide Live, HashInts, KeysDiffer, MaxSize, NumsFor;
    while i > 0
      invariant 0 <= i <= |node|
      invariant NumsFor(nums, s + HashInts(node, i)) && total == Live(node, i) && ause == |HashInts(node, i)|
    {
      i := i - 1;
      HashNext(node, s, i);
      if node[i].val != NilV {
        var c;
        nums, c := CountInt(node[i].key, nums, s + HashInts(node, i + 1));
        ause := ause + c;
        total := total + 1;
      }
    }
  }

  lemma CountArr(arr: seq<Value>, n: nat)
    ensures Count(ArrInts(arr, |arr|), n) == |ArrInts(arr, if n <= |arr| then n else |arr|)|
  {
    assert InRange(ArrInts(arr, |arr|), n) == ArrInts(arr, if n <= |arr| then n else |arr|);
  }
}
