/** median.c: the in-place quickselect and the median it yields. The functional
    side is the sorted rearrangement of a sequence; the order-statistics lemma at
    the end is what the measurement relies on. */
module Median {
  import opened Bytes

  // ---- sorted rearrangements ---------------------------------------------------

  ghost predicate Sorted(s: seq<int>) {
    forall i, j :: 0 <= i < j < |s| ==> s[i] <= s[j]
  }

  ghost predicate Rearranges(s: seq<int>, t: seq<int>) {
    multiset(s) == multiset(t)
  }

  function Insert(x: int, s: seq<int>): (r: seq<int>) {
    if s == [] || x <= s[0] then [x] + s else [s[0]] + Insert(x, s[1..])
  }

  function Sort(s: seq<int>): (r: seq<int>) {
    if s == [] then [] else Insert(s[0], Sort(s[1..]))
  }

  lemma SameElements(s: seq<int>, t: seq<int>)
    requires Rearranges(s, t)
    ensures |s| == |t|
    ensures forall y :: y in s <==> y in t
  {
    assert |s| == |multiset(s)| && |t| == |multiset(t)|;
    assert forall y :: y in s <==> y in multiset(s);
    assert forall y :: y in t <==> y in multiset(t);
  }

  lemma SameMiddles(a: seq<int>, u: seq<int>, v: seq<int>, b: seq<int>)
    requires Rearranges(a + u + b, a + v + b)
    ensures Rearranges(u, v)
  {
    assert multiset(u) == multiset(a + u + b) - multiset(a) - multiset(b);
    assert multiset(v) == multiset(a + v + b) - multiset(a) - multiset(b);
  }

  lemma SelfRearranges(s: seq<int>)
    ensures Rearranges(s, s)
  {
  }

  lemma RearrangesTransitive(s: seq<int>, t: seq<int>, u: seq<int>)
    requires Rearranges(s, t) && Rearranges(t, u)
    ensures Rearranges(s, u) && Rearranges(u, s)
  {
  }

  /** Inserting below the head. */
  lemma RearrangesBelowHead(r: seq<int>, x: int, s: seq<int>)
    requires s != [] && Rearranges(r, [x] + s[1..])
    ensures Rearranges([s[0]] + r, [x] + s)
  {
    assert s == [s[0]] + s[1..];
    assert multiset([s[0]] + r) == multiset{s[0]} + multiset(r);
    assert multiset([x] + s) == multiset{x} + multiset{s[0]} + multiset(s[1..]);
  }

  lemma PrependSorted(x: int, s: seq<int>)
    requires Sorted(s) && forall y :: y in s ==> x <= y
    ensures Sorted([x] + s)
  {
    assert forall i :: 0 <= i < |s| ==> s[i] in s;
  }

  lemma {:induction false} InsertSorts(x: int, s: seq<int>)
    requires Sorted(s)
    ensures Sorted(Insert(x, s)) && Rearranges(Insert(x, s), [x] + s)
  {
    if s == [] {
    } else if x <= s[0] {
      PrependSorted(x, s);
    } else {
      var r := Insert(x, s[1..]);
      InsertSorts(x, s[1..]);
      SameElements(r, [x] + s[1..]);
      RearrangesBelowHead(r, x, s);
      hide Rearranges;
      assert forall y :: y in s[1..] ==> s[0] <= y;
      PrependSorted(s[0], r);
    }
  }

  lemma {:induction false} SortSorts(s: seq<int>)
    ensures Sorted(Sort(s)) && Rearranges(Sort(s), s) && |Sort(s)| == |s|
  {
    if s != [] {
      SortSorts(s[1..]);
      InsertSorts(s[0], Sort(s[1..]));
      assert s == [s[0]] + s[1..];
      SameElements(Sort(s), s);
    }
  }

  /** A sequence has only one sorted rearrangement. */
  lemma {:induction false} SortedIsUnique(s: seq<int>, t: seq<int>)
    requires Sorted(s) && Sorted(t) && Rearranges(s, t)
    ensures s == t
    decreases |s|
  {
    SameElements(s, t);
    if s != [] {
      assert s[0] in s && t[0] in t;
      assert s[0] in t && t[0] in s;
      assert s == [s[0]] + s[1..] + [] && t == [s[0]] + t[1..] + [];
      SameMiddles([s[0]], s[1..], t[1..], []);
      hide Rearranges;
      SortedIsUnique(s[1..], t[1..]);
    }
  }

  lemma SortOfRearrangement(s: seq<int>, t: seq<int>)
    requires Rearranges(s, t)
    ensures Sort(s) == Sort(t)
  {
    SortSorts(s);
    SortSorts(t);
    SortedIsUnique(Sort(s), Sort(t));
  }

  // ---- selection -----------------------------------------------------------------

  /** Everything before k is at most s[k], everything after is at least s[k]. */
  ghost predicate Selected(s: seq<int>, k: int) {
    && 0 <= k < |s|
    && (forall i :: 0 <= i < k ==> s[i] <= s[k])
    && (forall i :: k < i < |s| ==> s[k] <= s[i])
  }

  lemma Joined(below: seq<int>, x: int, above: seq<int>)
    requires Sorted(below) && Sorted(above)
    requires forall y :: y in below ==> y <= x
    requires forall y :: y in above ==> x <= y
    ensures Sorted(below + [x] + above)
  {
    assert forall i :: 0 <= i < |below| ==> below[i] in below;
    assert forall i :: 0 <= i < |above| ==> above[i] in above;
  }

  /** A selected position holds the order statistic of that rank. */
  lemma SelectedIsOrderStatistic(s: seq<int>, k: int)
    requires Selected(s, k)
    ensures |Sort(s)| == |s| && s[k] == Sort(s)[k]
  {
    hide Sort;
    var below, above := s[..k], s[k + 1..];
    SortSorts(below);
    SortSorts(above);
    SortSorts(s);
    var t := Sort(below) + [s[k]] + Sort(above);
    SameElements(Sort(below), below);
    SameElements(Sort(above), above);
    Joined(Sort(below), s[k], Sort(above));
    assert Rearranges(t, s) by {
      assert s == below + [s[k]] + above;
    }
    SortedIsUnique(t, Sort(s));
  }

  method Swap(a: array<int>, i: nat, j: nat)
    requires i < a.Length && j < a.Length
    modifies a
    ensures a[..] == old(a[..])[i := old(a[j])][j := old(a[i])]
    ensures Rearranges(a[..], old(a[..]))
  {
    a[i], a[j] := a[j], a[i];
  }

  /** lo..hi is inclusive, as in the firmware; the pivot is the last element. */
  method Partition(a: array<int>, lo: nat, hi: nat) returns (p: nat)
    requires lo <= hi < a.Length
    modifies a
    ensures lo <= p <= hi
    ensures forall i :: lo <= i < p ==> a[i] < a[p]
    ensures forall i :: p <= i <= hi ==> a[p] <= a[i]
    ensures a[..lo] == old(a[..lo]) && a[hi + 1..] == old(a[hi + 1..])
    ensures Rearranges(a[..], old(a[..]))
  {
    var pivot := a[hi];
    var i := lo;
    for j := lo to hi
      invariant lo <= i <= j
      invariant a[hi] == pivot
      invariant forall m :: lo <= m < i ==> a[m] < pivot
      invariant forall m :: i <= m < j ==> pivot <= a[m]
      invariant a[..lo] == old(a[..lo]) && a[hi + 1..] == old(a[hi + 1..])
      invariant Rearranges(a[..], old(a[..]))
    {
      if a[j] < pivot {
        Swap(a, i, j);
        i := i + 1;
      }
    }
    Swap(a, i, hi);
    p := i;
  }

  /** From m up to n, everything left of position c is at most everything from c on. */
  ghost predicate Cut(s: seq<int>, m: nat, n: nat, c: int)
    requires n <= |s|
  {
    forall i, j :: m <= i < c <= j < n ==> s[i] <= s[j]
  }

  ghost predicate Among(s: seq<int>, lo: nat, hi: nat, x: int)
    requires hi < |s|
  {
    exists k :: lo <= k <= hi && s[k] == x
  }

  lemma MovedInside(s: seq<int>, t: seq<int>, lo: nat, hi: nat)
    requires lo <= hi < |s| == |t|
    requires s[..lo] == t[..lo] && s[hi + 1..] == t[hi + 1..] && Rearranges(t, s)
    ensures forall i :: 0 <= i < lo || hi < i < |t| ==> t[i] == s[i]
    ensures forall j :: lo <= j <= hi ==> Among(s, lo, hi, t[j])
  {
    var u, v := s[lo..hi + 1], t[lo..hi + 1];
    assert s == s[..lo] + u + s[hi + 1..];
    assert t == s[..lo] + v + s[hi + 1..];
    SameMiddles(s[..lo], v, u, s[hi + 1..]);
    SameElements(v, u);
    hide Rearranges;
    assert forall i :: 0 <= i < lo ==> t[i] == s[..lo][i] == s[i];
    assert forall i :: hi < i < |t| ==> t[i] == s[hi + 1..][i - hi - 1] == s[i];
    forall j | lo <= j <= hi
      ensures Among(s, lo, hi, t[j])
    {
      assert v[j - lo] in v;
      var k :| 0 <= k < |u| && u[k] == t[j];
      assert s[lo + k] == t[j];
    }
  }

  /** Rearranging only inside lo..hi keeps the cuts at lo and hi + 1. */
  lemma CutsKept(s: seq<int>, t: seq<int>, m: nat, n: nat, lo: nat, hi: nat)
    requires m <= lo <= hi < n <= |s| == |t|
    requires Cut(s, m, n, lo) && Cut(s, m, n, hi + 1)
    requires s[..lo] == t[..lo] && s[hi + 1..] == t[hi + 1..] && Rearranges(t, s)
    ensures Cut(t, m, n, lo) && Cut(t, m, n, hi + 1)
  {
    MovedInside(s, t, lo, hi);
    hide Rearranges;
  }

  /** A pivot in its place cuts on either side. */
  lemma CutsAtPivot(s: seq<int>, m: nat, n: nat, lo: nat, p: nat, hi: nat)
    requires m <= lo <= p <= hi < n <= |s|
    requires Cut(s, m, n, lo) && Cut(s, m, n, hi + 1)
    requires forall i :: lo <= i < p ==> s[i] < s[p]
    requires forall i :: p <= i <= hi ==> s[p] <= s[i]
    ensures Cut(s, m, n, p) && Cut(s, m, n, p + 1)
  {
    forall i, j | m <= i < p <= j < n
      ensures s[i] <= s[p] <= s[j]
    {
    }
  }

  lemma CutsSelect(s: seq<int>, m: nat, n: nat, k: nat)
    requires m <= k < n <= |s| && Cut(s, m, n, k) && Cut(s, m, n, k + 1)
    ensures Selected(s[m..n], k - m)
  {
    var t := s[m..n];
    forall i | 0 <= i < |t|
      ensures (i < k - m ==> t[i] <= t[k - m]) && (k - m < i ==> t[k - m] <= t[i])
    {
      assert t[i] == s[m + i] && t[k - m] == s[k];
    }
  }

  method NthElement(a: array<int>, lo0: nat, hi0: nat, k: nat)
    requires lo0 <= k <= hi0 < a.Length
    modifies a
    ensures Selected(a[lo0..hi0 + 1], k - lo0)
    ensures Rearranges(a[..], old(a[..])) && a[..lo0] == old(a[..lo0]) && a[hi0 + 1..] == old(a[hi0 + 1..])
  {
    hide Rearranges, Selected;
    var lo, hi, n := lo0, hi0, hi0 + 1;
    SelfRearranges(a[..]);
    while lo < hi
      invariant lo0 <= lo <= k <= hi < n
      invariant Cut(a[..], lo0, n, lo) && Cut(a[..], lo0, n, hi + 1)
      invariant Rearranges(a[..], old(a[..])) && a[..lo0] == old(a[..lo0]) && a[n..] == old(a[n..])
      decreases hi - lo
    {
      ghost var was := a[..];
      var p := Partition(a, lo, hi);
      RearrangesTransitive(a[..], was, old(a[..]));
      CutsKept(was, a[..], lo0, n, lo, hi);
      CutsAtPivot(a[..], lo0, n, lo, p, hi);
      assert a[n..] == a[hi + 1..][n - hi - 1..];
      assert a[..lo0] == a[..lo][..lo0];
      hide Cut;
      if p == k {
        CutsSelect(a[..], lo0, n, k);
        assert a[..][lo0..n] == a[lo0..n];
        return;
      }
      if k < p { hi := p - 1; } else { lo := p + 1; }
    }
    CutsSelect(a[..], lo0, n, k);
    assert a[..][lo0..n] == a[lo0..n];
  }

  // ---- the median -------------------------------------------------------------------

  /** The middle of the sorted samples; for an even count the truncated mean of the
      two in the middle; 0 for none. */
  function MedianOf(s: seq<int>): int {
    if s == [] then 0
    else
      SortSorts(s);
      var t, m := Sort(s), |s| / 2;
      if |s| % 2 == 1 then t[m] else CDiv(t[m - 1] + t[m], 2)
  }

  /** m is the middle of the sorted samples t: the element of the middle rank of an odd
      number, and for an even number the mean of the two of middle rank, half a unit of
      which is dropped toward zero. */
  ghost predicate IsMedian(t: seq<int>, m: int)
    requires t != []
  {
    var h := |t| / 2;
    if |t| % 2 == 1 then m == t[h]
    else
      var sum := t[h - 1] + t[h];
      if sum >= 0 then sum - 1 <= 2 * m <= sum else sum <= 2 * m <= sum + 1
  }

  lemma MedianIsMiddle(s: seq<int>)
    requires s != []
    ensures |Sort(s)| == |s| && IsMedian(Sort(s), MedianOf(s))
  {
    SortSorts(s);
    hide Sort;
  }

  /** nth_element over the first n elements: the order statistic of rank k at k. */
  method NthOfFirst(a: array<int>, n: nat, k: nat)
    requires k < n <= a.Length
    modifies a
    ensures |Sort(old(a[..n]))| == n && a[k] == Sort(old(a[..n]))[k]
    ensures Rearranges(a[..n], old(a[..n])) && a[n..] == old(a[n..])
  {
    hide Rearranges, Sort, Selected;
    ghost var s, rest := a[..n], a[n..];
    assert a[..] == s + rest;
    NthElement(a, 0, n - 1, k);
    ghost var t := a[..];
    assert a[0..n] == t[..n] == a[..n] && t[n..] == rest;
    SelectedMeans(t, k, s, rest);
  }

  /** median_i64 over the first n elements, which it rearranges and nothing else.
      For an even count the second selection pass reorders what the first one left. */
  method MedianInPlace(a: array<int>, n: nat) returns (median: int)
    requires n <= a.Length
    modifies a
    ensures median == MedianOf(old(a[..n]))
    ensures n > 0 ==> Sort(old(a[..n])) != [] && IsMedian(Sort(old(a[..n])), median)
    ensures Rearranges(a[..n], old(a[..n])) && a[n..] == old(a[n..])
  {
    if n == 0 {
      SelfRearranges(a[..n]);
      return 0;
    }
    hide Rearranges, Sort;
    ghost var s := a[..n];
    MedianIsMiddle(s);
    NthOfFirst(a, n, n / 2);
    var mid := a[n / 2];
    if n % 2 == 0 {
      ghost var t := a[..n];
      SortOfRearrangement(t, s);
      NthOfFirst(a, n, n / 2 - 1);
      RearrangesTransitive(a[..n], t, s);
      return CDiv(a[n / 2 - 1] + mid, 2);
    }
    return mid;
  }

  lemma SelectedMeans(t: seq<int>, k: nat, s: seq<int>, rest: seq<int>)
    requires Rearranges(t, s + rest) && |t| == |s| + |rest| && t[|s|..] == rest
    requires Selected(t[..|s|], k)
    ensures Rearranges(t[..|s|], s) && |Sort(s)| == |s| && t[k] == Sort(s)[k]
  {
    assert t == [] + t[..|s|] + rest && s + rest == [] + s + rest;
    SameMiddles([], t[..|s|], s, rest);
    SelectedIsOrderStatistic(t[..|s|], k);
    SortOfRearrangement(t[..|s|], s);
  }

  // ---- robustness -----------------------------------------------------------------------

  /** How many samples lie outside lo..hi. */
  function Outliers(s: seq<int>, lo: int, hi: int): (c: nat)
    ensures c <= |s|
  {
    if s == [] then 0
    else (if lo <= s[0] <= hi then 0 else 1) + Outliers(s[1..], lo, hi)
  }

  lemma {:induction false} OutliersAppend(s: seq<int>, t: seq<int>, lo: int, hi: int)
    ensures Outliers(s + t, lo, hi) == Outliers(s, lo, hi) + Outliers(t, lo, hi)
    decreases |s|
  {
    if s == [] {
      assert s + t == t;
    } else {
      OutliersAppend(s[1..], t, lo, hi);
      assert (s + t)[1..] == s[1..] + t;
    }
  }

  lemma {:induction false} OutliersInsert(x: int, s: seq<int>, lo: int, hi: int)
    ensures Outliers(Insert(x, s), lo, hi) == Outliers([x] + s, lo, hi)
    decreases |s|
  {
    if s == [] || x <= s[0] {
    } else {
      OutliersInsert(x, s[1..], lo, hi);
      assert Insert(x, s)[1..] == Insert(x, s[1..]);
    }
  }

  lemma {:induction false} OutliersSort(s: seq<int>, lo: int, hi: int)
    ensures Outliers(Sort(s), lo, hi) == Outliers(s, lo, hi)
  {
    if s != [] {
      OutliersSort(s[1..], lo, hi);
      OutliersInsert(s[0], Sort(s[1..]), lo, hi);
    }
  }

  lemma {:induction false} AllOutliers(s: seq<int>, lo: int, hi: int)
    requires forall i :: 0 <= i < |s| ==> !(lo <= s[i] <= hi)
    ensures Outliers(s, lo, hi) == |s|
  {
    if s != [] {
      AllOutliers(s[1..], lo, hi);
    }
  }

  /** The element of rank k is at most hi unless at least |t| - k lie outside. */
  lemma RankBelow(t: seq<int>, k: nat, lo: int, hi: int)
    requires Sorted(t) && k < |t| && Outliers(t, lo, hi) < |t| - k
    ensures t[k] <= hi
  {
    if t[k] > hi {
      assert t == t[..k] + t[k..];
      OutliersAppend(t[..k], t[k..], lo, hi);
      AllOutliers(t[k..], lo, hi);
    }
  }

  /** The element of rank k of a sorted sequence lies in lo..hi unless at least
      k + 1 or at least |t| - k elements lie outside. */
  lemma RankInside(t: seq<int>, k: nat, lo: int, hi: int)
    requires Sorted(t) && k < |t|
    requires Outliers(t, lo, hi) <= k && Outliers(t, lo, hi) < |t| - k
    ensures lo <= t[k] <= hi
  {
    RankBelow(t, k, lo, hi);
    if t[k] < lo {
      assert t == t[..k + 1] + t[k + 1..];
      OutliersAppend(t[..k + 1], t[k + 1..], lo, hi);
      AllOutliers(t[..k + 1], lo, hi);
    }
  }

  /** The median ignores any minority: while fewer than half the samples lie outside
      an interval, the median lies inside it. */
  lemma MedianIgnoresMinority(s: seq<int>, lo: int, hi: int)
    requires 2 * Outliers(s, lo, hi) < |s|
    ensures lo <= MedianOf(s) <= hi
  {
    var t, m := Sort(s), |s| / 2;
    SortSorts(s);
    OutliersSort(s, lo, hi);
    RankInside(t, m, lo, hi);
    if |s| % 2 == 0 {
      RankInside(t, m - 1, lo, hi);
    }
  }
}
