/**
 Sorting a table in place.  For every strict weak order the result is a sorted
 permutation, no scan leaves the range that is being sorted, and only the smaller
 part is sorted by a recursive call, so that the depth stays logarithmic.
 Index 0 of the array is not used.
 */
module LuaSort {
  import opened Powers

  // ---------------------------------------------------------------- the order

  /** Neither reflexive nor symmetric, and what is not before y nor after it does not separate x and z. */
  ghost predicate StrictWeak<T(!new)>(lt: (T, T) -> bool)
  {
    && (forall x, y :: lt(x, y) ==> !lt(y, x))
    && (forall x, y, z :: lt(x, z) ==> lt(x, y) || lt(y, z))
  }

  predicate Le<T>(lt: (T, T) -> bool, x: T, y: T)
  {
    !lt(y, x)
  }

  lemma LeTrans<T(!new)>(lt: (T, T) -> bool, x: T, y: T, z: T)
    requires StrictWeak(lt) && Le(lt, x, y) && Le(lt, y, z)
    ensures Le(lt, x, z)
  {
  }

  lemma LessLe<T(!new)>(lt: (T, T) -> bool, x: T, y: T)
    requires StrictWeak(lt)
    ensures lt(x, y) ==> Le(lt, x, y)
    ensures Le(lt, x, x)
  {
  }

  // ---------------------------------------------------------------- parts of a sequence

  /** All from l to u are at most p. */
  predicate AllUpTo<T>(lt: (T, T) -> bool, s: seq<T>, l: int, u: int, p: T)
  {
    0 <= l && u < |s| && forall k :: l <= k <= u ==> Le(lt, s[k], p)
  }

  predicate AllFrom<T>(lt: (T, T) -> bool, s: seq<T>, l: int, u: int, p: T)
  {
    0 <= l && u < |s| && forall k :: l <= k <= u ==> Le(lt, p, s[k])
  }

  /** Only the part from l to u has changed, and that has been permuted. */
  predicate Permuted<T(==)>(s: seq<T>, now: seq<T>, l: int, u: int)
  {
    && 0 <= l <= u + 1 <= |s| && |now| == |s|
    && now[..l] == s[..l] && now[u + 1..] == s[u + 1..] && multiset(now[l..u + 1]) == multiset(s[l..u + 1])
  }

  lemma PermutedSelf<T>(s: seq<T>, l: int, u: int)
    requires 0 <= l <= u + 1 <= |s|
    ensures Permuted(s, s, l, u)
  {
  }

  lemma PermutedTrans<T>(a: seq<T>, b: seq<T>, c: seq<T>, l: int, u: int)
    requires Permuted(a, b, l, u) && Permuted(b, c, l, u)
    ensures Permuted(a, c, l, u)
  {
  }

  /** A permutation of a part is one of every larger part. */
  lemma PermutedWider<T>(s: seq<T>, now: seq<T>, l: int, u: int, l': int, u': int)
    requires Permuted(s, now, l, u) && 0 <= l' <= l && u <= u' < |s|
    ensures Permuted(s, now, l', u')
  {
    Slices(s, l', l, u, u');
    Slices(now, l', l, u, u');
    assert now[l'..l] == now[..l][l'..] == s[l'..l];
    assert now[u + 1..u' + 1] == now[u + 1..][..u' - u] == s[u + 1..u' + 1];
    assert now[..l'] == now[..l][..l'] && s[..l'] == s[..l][..l'];
    assert now[u' + 1..] == now[u + 1..][u' - u..] && s[u' + 1..] == s[u + 1..][u' - u..];
  }

  lemma Slices<T>(s: seq<T>, l': int, l: int, u: int, u': int)
    requires 0 <= l' <= l <= u + 1 <= u' + 1 <= |s|
    ensures multiset(s[l'..u' + 1]) == multiset(s[l'..l]) + multiset(s[l..u + 1]) + multiset(s[u + 1..u' + 1])
  {
    assert s[l'..u' + 1] == s[l'..l] + s[l..u + 1] + s[u + 1..u' + 1];
  }

  lemma PermutedAt<T>(s: seq<T>, now: seq<T>, l: int, u: int, k: int)
    requires Permuted(s, now, l, u) && 0 <= k < |s| && (k < l || k > u)
    ensures now[k] == s[k]
  {
    if k < l {
      assert now[k] == now[..l][k];
    } else {
      assert now[k] == now[u + 1..][k - u - 1];
    }
  }

  /** What is in the part was in the part. */
  lemma PermutedFrom<T>(s: seq<T>, now: seq<T>, l: int, u: int, k: int) returns (j: int)
    requires Permuted(s, now, l, u) && l <= k <= u
    ensures l <= j <= u && s[j] == now[k]
  {
    assert now[l..u + 1][k - l] in multiset(now[l..u + 1]);
    assert now[k] in s[l..u + 1];
    var i :| 0 <= i < |s[l..u + 1]| && s[l..u + 1][i] == now[k];
    j := i + l;
  }

  lemma KeepsUpTo<T>(lt: (T, T) -> bool, s: seq<T>, now: seq<T>, l: int, u: int, p: T)
    requires Permuted(s, now, l, u) && AllUpTo(lt, s, l, u, p)
    ensures AllUpTo(lt, now, l, u, p)
  {
    forall k | l <= k <= u ensures Le(lt, now[k], p) {
      var j := PermutedFrom(s, now, l, u, k);
    }
  }

  lemma KeepsFrom<T>(lt: (T, T) -> bool, s: seq<T>, now: seq<T>, l: int, u: int, p: T)
    requires Permuted(s, now, l, u) && AllFrom(lt, s, l, u, p)
    ensures AllFrom(lt, now, l, u, p)
  {
    forall k | l <= k <= u ensures Le(lt, p, now[k]) {
      var j := PermutedFrom(s, now, l, u, k);
    }
  }

  // ---------------------------------------------------------------- swapping

  function Swapped<T>(s: seq<T>, i: int, j: int): (r: seq<T>)
    requires 0 <= i < |s| && 0 <= j < |s|
    ensures |r| == |s|
  {
    s[i := s[j]][j := s[i]]
  }

  lemma SwapPermutes<T>(s: seq<T>, i: int, j: int, l: int, u: int)
    requires 0 <= l <= i <= u < |s| && l <= j <= u
    ensures Permuted(s, Swapped(s, i, j), l, u)
  {
    var now := Swapped(s, i, j);
    assert now[l..u + 1] == Swapped(s[l..u + 1], i - l, j - l);
    SwapMultiset(s[l..u + 1], i - l, j - l);
  }

  lemma SwapMultiset<T>(s: seq<T>, i: int, j: int)
    requires 0 <= i < |s| && 0 <= j < |s|
    ensures multiset(Swapped(s, i, j)) == multiset(s)
  {
  }

  /** Exchanges two elements of the part from l to u. */
  method Swap<T>(a: array<T>, i: int, j: int, ghost l: int, ghost u: int)
    requires 0 <= l <= i <= u < a.Length && l <= j <= u
    modifies a
    ensures a[i] == old(a[j]) && a[j] == old(a[i]) && forall k :: 0 <= k < a.Length && k != i && k != j ==> a[k] == old(a[k])
    ensures Permuted(old(a[..]), a[..], l, u)
  {
    SwapPermutes(a[..], i, j, l, u);
    hide Permuted;
    a[i], a[j] := a[j], a[i];
    assert a[..] == Swapped(old(a[..]), i, j);
  }

  // ---------------------------------------------------------------- partitioning

  /** The pivot is where it belongs: nothing before it is larger, nothing behind it smaller. */
  predicate Split<T>(lt: (T, T) -> bool, s: seq<T>, l: int, u: int, i: int)
  {
    0 <= l <= i <= u < |s| && AllUpTo(lt, s, l, i - 1, s[i]) && AllFrom(lt, s, i + 1, u, s[i])
  }

  /** The first, the middle and the last one are in order. */
  method MedianOfThree<T(!new)>(a: array<T>, lt: (T, T) -> bool, l: int, u: int)
    requires StrictWeak(lt) && 1 <= l && l + 1 < u < a.Length
    modifies a
    ensures var i := (l + u) / 2; Le(lt, a[l], a[i]) && Le(lt, a[i], a[u]) && Permuted(old(a[..]), a[..], l, u)
  {
    hide Permuted, StrictWeak;
    var i := (l + u) / 2;
    ghost var s0 := a[..];
    PermutedSelf(s0, l, u);
    LessLe(lt, a[u], a[l]);
    if lt(a[u], a[l]) {
      Swap(a, l, u, l, u);
    }
    ghost var s1 := a[..];
    PermutedSelf(s1, l, u);
    LessLe(lt, a[i], a[l]);
    LessLe(lt, a[u], a[i]);
    if lt(a[i], a[l]) {
      Swap(a, i, l, l, u);
    } else if lt(a[u], a[i]) {
      Swap(a, i, u, l, u);
    }
    PermutedTrans(s0, s1, a[..], l, u);
  }

  /** The scans' bounds: what is behind i is at most the pivot, what is from j on at least; the pivot waits before the end. */
  ghost predicate Scanned<T>(lt: (T, T) -> bool, s: seq<T>, l: int, u: int, i: int, j: int, p: T)
  {
    && 0 <= l <= i && j <= u - 1 && 1 <= u < |s| && s[u - 1] == p
    && AllUpTo(lt, s, l, i, p) && AllFrom(lt, s, j, u, p)
  }

  /** The next element that is not before the pivot; the pivot itself stops the scan. */
  method ScanUp<T(!new)>(a: array<T>, lt: (T, T) -> bool, l: int, u: int, i0: int, p: T) returns (i: int)
    requires StrictWeak(lt) && 0 <= l <= i0 < u - 1 && u < a.Length && a[u - 1] == p && AllUpTo(lt, a[..], l, i0, p)
    ensures i0 < i <= u - 1 && AllUpTo(lt, a[..], l, i - 1, p) && Le(lt, p, a[i])
  {
    i := i0 + 1;
    LessLe(lt, p, p);
    while lt(a[i], p)
      invariant i0 < i <= u - 1 && AllUpTo(lt, a[..], l, i - 1, p)
      decreases u - i
    {
      LessLe(lt, a[i], p);
      i := i + 1;
    }
  }

  /** The next element, downwards, that is not behind the pivot; the first element stops the scan. */
  method ScanDown<T(!new)>(a: array<T>, lt: (T, T) -> bool, l: int, u: int, j0: int, p: T) returns (j: int)
    requires StrictWeak(lt) && 0 <= l < j0 <= u < a.Length && Le(lt, a[l], p) && AllFrom(lt, a[..], j0, u, p)
    ensures l <= j < j0 && AllFrom(lt, a[..], j + 1, u, p) && Le(lt, a[j], p)
  {
    j := j0 - 1;
    while lt(p, a[j])
      invariant l <= j < j0 && AllFrom(lt, a[..], j + 1, u, p)
      decreases j
    {
      LessLe(lt, p, a[j]);
      j := j - 1;
    }
  }

  /** Both scans stopped: exchanging the two elements lets both go on. */
  lemma SwappedScans<T>(lt: (T, T) -> bool, s: seq<T>, now: seq<T>, l: int, u: int, i: int, j: int, p: T)
    requires 0 <= l < i <= j <= u - 2 && u < |s| == |now| && s[u - 1] == p && Le(lt, p, s[i]) && Le(lt, s[j], p)
    requires AllUpTo(lt, s, l, i - 1, p) && AllFrom(lt, s, j + 1, u, p)
    requires now[i] == s[j] && now[j] == s[i] && forall k :: 0 <= k < |s| && k != i && k != j ==> now[k] == s[k]
    ensures Scanned(lt, now, l, u, i, j, p)
  {
  }

  /** The scans have crossed: the pivot belongs between. */
  lemma PivotPlaced<T>(lt: (T, T) -> bool, s: seq<T>, now: seq<T>, l: int, u: int, i: int, j: int, p: T)
    requires 0 <= l <= j < i <= u - 1 && u < |s| == |now| && s[u - 1] == p && Le(lt, p, s[i])
    requires AllUpTo(lt, s, l, i - 1, p) && AllFrom(lt, s, j + 1, u, p)
    requires now[i] == s[u - 1] && now[u - 1] == s[i] && forall k :: 0 <= k < |s| && k != i && k != u - 1 ==> now[k] == s[k]
    ensures Split(lt, now, l, u, i)
  {
  }

  /** Splits the part at its pivot. */
  method Partition<T(!new)>(a: array<T>, lt: (T, T) -> bool, l: int, u: int) returns (i: int)
    requires StrictWeak(lt) && 1 <= l && l + 2 < u < a.Length
    requires var m := (l + u) / 2; Le(lt, a[l], a[m]) && Le(lt, a[m], a[u])
    modifies a
    ensures l < i < u && Split(lt, a[..], l, u, i) && Permuted(old(a[..]), a[..], l, u)
  {
    hide StrictWeak, Permuted;
    ghost var s0 := a[..];
    var m := (l + u) / 2;
    var p := a[m];
    LessLe(lt, p, p);
    Swap(a, m, u - 1, l, u);
    i := l;
    var j := u - 1;
    while true
      invariant l <= i <= j <= u - 1 && i < u - 1 && l < j && Scanned(lt, a[..], l, u, i, j, p) && Permuted(s0, a[..], l, u)
      decreases j - i
    {
      i := ScanUp(a, lt, l, u, i, p);
      j := ScanDown(a, lt, l, u, j, p);
      if j < i {
        break;
      }
      ghost var s1 := a[..];
      Swap(a, i, j, l, u);
      PermutedTrans(s0, s1, a[..], l, u);
      SwappedScans(lt, s1, a[..], l, u, i, j, p);
    }
    ghost var s2 := a[..];
    Swap(a, u - 1, i, l, u);
    PermutedTrans(s0, s2, a[..], l, u);
    PivotPlaced(lt, s2, a[..], l, u, i, j, p);
  }

  // ---------------------------------------------------------------- sorting

  /** In order, but for pairs that are both in the part from l to u. */
  ghost predicate SortedBut<T>(lt: (T, T) -> bool, s: seq<T>, l0: int, u0: int, l: int, u: int)
  {
    && 0 <= l0 && u0 < |s|
    && forall i, j :: l0 <= i < j <= u0 && (i < l || j > u) ==> Le(lt, s[i], s[j])
  }

  ghost predicate Sorted<T>(lt: (T, T) -> bool, s: seq<T>, l: int, u: int)
  {
    0 <= l && u < |s| && forall i, j :: l <= i < j <= u ==> Le(lt, s[i], s[j])
  }

  /** What is in order stays in order while the rest is permuted. */
  lemma StaysSorted<T>(lt: (T, T) -> bool, s: seq<T>, now: seq<T>, l0: int, u0: int, l: int, u: int)
    requires SortedBut(lt, s, l0, u0, l, u) && Permuted(s, now, l, u) && l0 <= l && u <= u0
    ensures SortedBut(lt, now, l0, u0, l, u)
  {
    forall i, j | l0 <= i < j <= u0 && (i < l || j > u) ensures Le(lt, now[i], now[j]) {
      var i', j' := i, j;
      if l <= i <= u {
        i' := PermutedFrom(s, now, l, u, i);
      } else {
        PermutedAt(s, now, l, u, i);
      }
      if l <= j <= u {
        j' := PermutedFrom(s, now, l, u, j);
      } else {
        PermutedAt(s, now, l, u, j);
      }
    }
  }

  /** Sorting the part finishes the job. */
  lemma Finished<T>(lt: (T, T) -> bool, s: seq<T>, l0: int, u0: int, l: int, u: int)
    requires SortedBut(lt, s, l0, u0, l, u) && Sorted(lt, s, l, u)
    ensures Sorted(lt, s, l0, u0)
  {
  }

  /** Split and one part sorted: only the other part is left. */
  lemma OneSideLeft<T(!new)>(lt: (T, T) -> bool, s: seq<T>, l0: int, u0: int, l: int, u: int, i: int)
    requires StrictWeak(lt) && l0 <= l <= i <= u <= u0
    requires SortedBut(lt, s, l0, u0, l, u) && Split(lt, s, l, u, i)
    ensures Sorted(lt, s, l, i - 1) ==> SortedBut(lt, s, l0, u0, i + 1, u)
    ensures Sorted(lt, s, i + 1, u) ==> SortedBut(lt, s, l0, u0, l, i - 1)
  {
    forall x, y | l <= x < i < y <= u ensures Le(lt, s[x], s[y]) {
      LeTrans(lt, s[x], s[i], s[y]);
    }
    hide StrictWeak;
  }

  /** Sorting one side keeps the split. */
  lemma SplitStays<T>(lt: (T, T) -> bool, s: seq<T>, now: seq<T>, l: int, u: int, i: int, l1: int, u1: int)
    requires Split(lt, s, l, u, i) && Permuted(s, now, l1, u1) && ((l1 == l && u1 == i - 1) || (l1 == i + 1 && u1 == u))
    ensures Split(lt, now, l, u, i)
  {
    PermutedAt(s, now, l1, u1, i);
    if l1 == l && u1 == i - 1 {
      KeepsUpTo(lt, s, now, l1, u1, s[i]);
    } else {
      KeepsFrom(lt, s, now, l1, u1, s[i]);
    }
    forall k | 0 <= k < |s| && (k < l1 || k > u1) ensures now[k] == s[k] {
      PermutedAt(s, now, l1, u1, k);
    }
    hide Permuted;
  }

  /**
   Sorts the part from l to u.  With fewer than 2^d elements, calls are nested at most d deep:
   each call is for at most half of the elements of the one it comes from.
   */
  method AuxSort<T(!new)>(a: array<T>, lt: (T, T) -> bool, l0: int, u0: int, ghost d: nat)
    requires StrictWeak(lt) && 1 <= l0 <= u0 + 1 <= a.Length && u0 - l0 + 1 < Pow2(d)
    modifies a
    ensures Sorted(lt, a[..], l0, u0) && Permuted(old(a[..]), a[..], l0, u0)
    decreases d
  {
    hide StrictWeak, Permuted, Sorted, SortedBut, Split, Pow2;
    ghost var s0 := a[..];
    PermutedSelf(s0, l0, u0);
    SortedStart(lt, s0, l0, u0);
    var l, u := l0, u0;
    while l < u
      invariant l0 <= l <= u + 1 && u <= u0 && SortedBut(lt, a[..], l0, u0, l, u) && Permuted(s0, a[..], l0, u0)
      decreases u - l
    {
      ghost var s1 := a[..];
      if u - l == 1 {
        SortTwo(a, lt, l);
        Done(lt, s0, s1, a[..], l0, u0, l, u);
        return;
      }
      MedianOfThree(a, lt, l, u);
      if u - l == 2 {
        ThreeSorted(lt, a[..], l);
        Done(lt, s0, s1, a[..], l0, u0, l, u);
        return;
      }
      ghost var s2 := a[..];
      var i := Partition(a, lt, l, u);
      SplitDone(lt, s0, s1, s2, a[..], l0, u0, l, u, i);
      ghost var s3 := a[..];
      if i - l < u - i {
        HalfSize(u0 - l0 + 1, u - l + 1, i - l, d);
        AuxSort(a, lt, l, i - 1, d - 1);
        SideSorted(lt, s0, s3, a[..], l0, u0, l, u, i, l, i - 1);
        l := i + 1;
      } else {
        HalfSize(u0 - l0 + 1, u - l + 1, u - i, d);
        AuxSort(a, lt, i + 1, u, d - 1);
        SideSorted(lt, s0, s3, a[..], l0, u0, l, u, i, i + 1, u);
        u := i - 1;
      }
    }
    NothingLeft(lt, a[..], l0, u0, l, u);
  }

  method SortTwo<T(!new)>(a: array<T>, lt: (T, T) -> bool, l: int)
    requires StrictWeak(lt) && 1 <= l && l + 1 < a.Length
    modifies a
    ensures Sorted(lt, a[..], l, l + 1) && Permuted(old(a[..]), a[..], l, l + 1)
  {
    hide StrictWeak, Permuted, Sorted;
    PermutedSelf(a[..], l, l + 1);
    LessLe(lt, a[l + 1], a[l]);
    if lt(a[l + 1], a[l]) {
      Swap(a, l, l + 1, l, l + 1);
    }
    TwoSorted(lt, a[..], l);
  }

  /** The part has been split. */
  lemma SplitDone<T(!new)>(lt: (T, T) -> bool, s0: seq<T>, s1: seq<T>, s2: seq<T>, s3: seq<T>, l0: int, u0: int, l: int, u: int, i: int)
    requires l0 <= l && u <= u0 && SortedBut(lt, s1, l0, u0, l, u) && Permuted(s0, s1, l0, u0)
    requires Permuted(s1, s2, l, u) && Permuted(s2, s3, l, u) && Split(lt, s3, l, u, i)
    ensures SortedBut(lt, s3, l0, u0, l, u) && Permuted(s0, s3, l0, u0) && l <= i <= u
  {
    hide *;
    Bounds(s0, s1, l0, u0);
    InPart(lt, s3, l, u, i);
    PermutedTrans(s1, s2, s3, l, u);
    StaysSorted(lt, s1, s3, l0, u0, l, u);
    PermutedWider(s1, s3, l, u, l0, u0);
    PermutedTrans(s0, s1, s3, l0, u0);
  }

  lemma InPart<T>(lt: (T, T) -> bool, s: seq<T>, l: int, u: int, i: int)
    requires Split(lt, s, l, u, i)
    ensures l <= i <= u
  {
  }

  /** The smaller part has less than half of the elements. */
  lemma HalfSize(n0: int, n: int, k: int, d: nat)
    requires n0 < Pow2(d) && 2 <= n <= n0 && 2 * k < n
    ensures d >= 1 && k < Pow2(d - 1)
  {
  }

  lemma SortedStart<T>(lt: (T, T) -> bool, s: seq<T>, l: int, u: int)
    requires 0 <= l && u < |s|
    ensures SortedBut(lt, s, l, u, l, u)
  {
  }

  lemma NothingLeft<T>(lt: (T, T) -> bool, s: seq<T>, l0: int, u0: int, l: int, u: int)
    requires SortedBut(lt, s, l0, u0, l, u) && l >= u
    ensures Sorted(lt, s, l0, u0)
  {
  }

  lemma TwoSorted<T>(lt: (T, T) -> bool, s: seq<T>, l: int)
    requires 0 <= l && l + 1 < |s| && Le(lt, s[l], s[l + 1])
    ensures Sorted(lt, s, l, l + 1)
  {
  }

  lemma ThreeSorted<T(!new)>(lt: (T, T) -> bool, s: seq<T>, l: int)
    requires StrictWeak(lt) && 0 <= l && l + 2 < |s| && Le(lt, s[l], s[l + 1]) && Le(lt, s[l + 1], s[l + 2])
    ensures Sorted(lt, s, l, l + 2)
  {
    LeTrans(lt, s[l], s[l + 1], s[l + 2]);
    hide StrictWeak;
  }

  /** The part has been sorted: all is. */
  lemma Done<T>(lt: (T, T) -> bool, s0: seq<T>, s1: seq<T>, now: seq<T>, l0: int, u0: int, l: int, u: int)
    requires l0 <= l && u <= u0 && SortedBut(lt, s1, l0, u0, l, u) && Permuted(s0, s1, l0, u0)
    requires Permuted(s1, now, l, u) && Sorted(lt, now, l, u)
    ensures Sorted(lt, now, l0, u0) && Permuted(s0, now, l0, u0)
  {
    hide *;
    Bounds(s0, s1, l0, u0);
    StaysSorted(lt, s1, now, l0, u0, l, u);
    Finished(lt, now, l0, u0, l, u);
    PermutedWider(s1, now, l, u, l0, u0);
    PermutedTrans(s0, s1, now, l0, u0);
  }

  lemma Bounds<T>(s: seq<T>, now: seq<T>, l: int, u: int)
    requires Permuted(s, now, l, u)
    ensures 0 <= l <= u + 1 <= |s| == |now|
  {
  }

  /** One side has been sorted by itself. */
  lemma SideSorted<T(!new)>(lt: (T, T) -> bool, s0: seq<T>, s: seq<T>, now: seq<T>, l0: int, u0: int, l: int, u: int, i: int, l1: int, u1: int)
    requires StrictWeak(lt) && 0 <= l0 <= l <= i <= u <= u0 && SortedBut(lt, s, l0, u0, l, u) && Split(lt, s, l, u, i) && Permuted(s0, s, l0, u0)
    requires ((l1 == l && u1 == i - 1) || (l1 == i + 1 && u1 == u)) && Permuted(s, now, l1, u1) && Sorted(lt, now, l1, u1)
    ensures SortedBut(lt, now, l0, u0, if l1 == l && u1 == i - 1 then i + 1 else l, if l1 == l && u1 == i - 1 then u else i - 1)
    ensures Permuted(s0, now, l0, u0)
  {
    hide *;
    Bounds(s0, s, l0, u0);
    PermutedWider(s, now, l1, u1, l, u);
    PermutedWider(s, now, l1, u1, l0, u0);
    PermutedTrans(s0, s, now, l0, u0);
    StaysSorted(lt, s, now, l0, u0, l, u);
    SplitStays(lt, s, now, l, u, i, l1, u1);
    OneSideLeft(lt, now, l0, u0, l, u, i);
  }

  /** The depth that n elements need. */
  function Depth(n: nat): nat
  {
    if n == 0 then 0 else 1 + Depth(n / 2)
  }

  /** It is floor(log2 n) + 1. */
  lemma {:induction false} DepthIs(n: nat)
    ensures n < Pow2(Depth(n)) && (n > 0 ==> Depth(n) > 0 && Pow2(Depth(n) - 1) <= n)
  {
    if n > 0 {
      DepthIs(n / 2);
    }
  }

  /** Sorts the whole table. */
  method Sort<T(!new)>(a: array<T>, lt: (T, T) -> bool)
    requires StrictWeak(lt) && a.Length >= 1
    modifies a
    ensures Sorted(lt, a[..], 1, a.Length - 1) && multiset(a[..]) == multiset(old(a[..])) && a[0] == old(a[0])
  {
    ghost var s0 := a[..];
    DepthIs(a.Length - 1);
    AuxSort(a, lt, 1, a.Length - 1, Depth(a.Length - 1));
    PermutedWider(s0, a[..], 1, a.Length - 1, 0, a.Length - 1);
    assert s0[0..a.Length] == s0 && a[..][0..a.Length] == a[..];
    PermutedAt(s0, a[..], 1, a.Length - 1, 0);
  }
}
