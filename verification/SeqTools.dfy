/** Counting, finding and removing elements of a sequence. */
module SeqTools {

  function Count<T>(s: seq<T>, p: T -> bool): (c: nat)
    ensures c <= |s|
  {
    if s == [] then 0 else (if p(s[0]) then 1 else 0) + Count(s[1..], p)
  }

  function Remove<T>(s: seq<T>, i: nat): (r: seq<T>)
    requires i < |s|
    ensures |r| == |s| - 1
  {
    s[..i] + s[i + 1..]
  }

  lemma {:induction false} CountAppend<T>(s: seq<T>, t: seq<T>, p: T -> bool)
    ensures Count(s + t, p) == Count(s, p) + Count(t, p)
    decreases |s|
  {
    if s == [] {
      assert s + t == t;
    } else {
      CountAppend(s[1..], t, p);
      assert (s + t)[1..] == s[1..] + t;
    }
  }

  lemma CountOne<T>(x: T, p: T -> bool)
    ensures Count([x], p) == if p(x) then 1 else 0
  {
    assert [x][1..] == [];
  }

  lemma {:induction false} CountRemove<T>(s: seq<T>, i: nat, p: T -> bool)
    requires i < |s|
    ensures Count(s, p) == Count(Remove(s, i), p) + if p(s[i]) then 1 else 0
    decreases i
  {
    if i == 0 {
      assert Remove(s, 0) == s[1..];
    } else {
      var r := Remove(s, i);
      CountRemove(s[1..], i - 1, p);
      assert r[0] == s[0];
      assert r[1..] == Remove(s[1..], i - 1);
    }
  }

  /** The first index from which on p holds at that index; |s| when there is none. */
  function First<T>(s: seq<T>, p: T -> bool, from: nat := 0): (i: nat)
    requires from <= |s|
    ensures from <= i <= |s|
    ensures forall j :: from <= j < i ==> !p(s[j])
    ensures i < |s| ==> p(s[i])
    decreases |s| - from
  {
    if from == |s| || p(s[from]) then from else First(s, p, from + 1)
  }

  /** First is the only index with these properties. */
  lemma FirstIs<T>(s: seq<T>, p: T -> bool, i: nat)
    requires i <= |s|
    requires forall j :: 0 <= j < i ==> !p(s[j])
    requires i < |s| ==> p(s[i])
    ensures First(s, p) == i
  {
  }

  /** p implies q on s, and fails somewhere q holds. */
  lemma {:induction false} CountStrict<T>(s: seq<T>, p: T -> bool, q: T -> bool, k: nat)
    requires k < |s| && q(s[k]) && !p(s[k])
    requires forall i :: 0 <= i < |s| && p(s[i]) ==> q(s[i])
    ensures Count(s, p) < Count(s, q)
    decreases |s|
  {
    if k > 0 {
      CountStrict(s[1..], p, q, k - 1);
    } else {
      CountMonotone(s[1..], p, q);
    }
  }

  lemma {:induction false} CountMonotone<T>(s: seq<T>, p: T -> bool, q: T -> bool)
    requires forall i :: 0 <= i < |s| && p(s[i]) ==> q(s[i])
    ensures Count(s, p) <= Count(s, q)
    decreases |s|
  {
    if s != [] {
      CountMonotone(s[1..], p, q);
    }
  }

  lemma Assoc<T>(a: seq<T>, b: seq<T>, c: seq<T>)
    ensures a + (b + c) == a + b + c
  {
  }
}
