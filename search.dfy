/** The sorted arrays the FDR computation searches: `np.sort` / `sorted` of a
    sequence of reals, and `np.searchsorted` on the result. */
module Search {
  import opened Common

  /** Inserts x into a sorted sequence before the first element larger than x. */
  function Insert(x: real, s: seq<real>): (r: seq<real>)
    requires Sorted(s)
    ensures Sorted(r) && multiset(r) == multiset(s) + multiset{x} && |r| == |s| + 1
    decreases |s|
  {
    if |s| == 0 then [x]
    else if x <= s[0] then
      SortedCons(x, s);
      [x] + s
    else
      var tail := Insert(x, s[1..]);
      assert s == [s[0]] + s[1..];
      BoundedBelow(s[0], tail, s[1..], x);
      SortedCons(s[0], tail);
      [s[0]] + tail
  }

  lemma {:induction false} SortedCons(h: real, t: seq<real>)
    requires Sorted(t) && (|t| == 0 || h <= t[0])
    ensures Sorted([h] + t)
  {
  }

  /** Every element of t, which holds the elements of u and x, is at least lo. */
  lemma {:induction false} BoundedBelow(lo: real, t: seq<real>, u: seq<real>, x: real)
    requires multiset(t) == multiset(u) + multiset{x}
    requires lo <= x && forall j :: 0 <= j < |u| ==> lo <= u[j]
    ensures |t| > 0 && lo <= t[0]
  {
    assert |t| == |multiset(t)| == |u| + 1;
    assert t[0] in multiset(t);
    if t[0] != x {
      assert t[0] in multiset(u);
    }
  }

  /** `np.sort(s)` and `sorted(s)`: the elements of s in non-decreasing order. */
  function SortReals(s: seq<real>): (r: seq<real>)
    ensures Sorted(r) && multiset(r) == multiset(s) && |r| == |s|
    decreases |s|
  {
    if |s| == 0 then []
    else
      assert s == s[..|s| - 1] + [s[|s| - 1]];
      Insert(s[|s| - 1], SortReals(s[..|s| - 1]))
  }

  /** `np.searchsorted(a, x, side="left")`: the first index whose element is at least x,
      which is the number of elements below x. */
  method SearchSortedLeft(a: seq<real>, x: real) returns (i: nat)
    requires Sorted(a)
    ensures i <= |a|
    ensures forall j :: 0 <= j < i ==> a[j] < x
    ensures forall j :: i <= j < |a| ==> a[j] >= x
    ensures i == Count(a, Lt, x)
  {
    var lo, hi := 0, |a|;
    while lo < hi
      invariant 0 <= lo <= hi <= |a|
      invariant forall j :: 0 <= j < lo ==> a[j] < x
      invariant forall j :: hi <= j < |a| ==> a[j] >= x
      decreases hi - lo
    {
      var mid := (lo + hi) / 2;
      if a[mid] < x {
        lo := mid + 1;
      } else {
        hi := mid;
      }
    }
    i := lo;
    CountSplit(a, i, Lt, x);
  }

  /** `np.searchsorted(a, x, side="right")`: the first index whose element exceeds x,
      which is the number of elements at most x. */
  method SearchSortedRight(a: seq<real>, x: real) returns (i: nat)
    requires Sorted(a)
    ensures i <= |a|
    ensures forall j :: 0 <= j < i ==> a[j] <= x
    ensures forall j :: i <= j < |a| ==> a[j] > x
    ensures i == Count(a, Le, x)
  {
    var lo, hi := 0, |a|;
    while lo < hi
      invariant 0 <= lo <= hi <= |a|
      invariant forall j :: 0 <= j < lo ==> a[j] <= x
      invariant forall j :: hi <= j < |a| ==> a[j] > x
      decreases hi - lo
    {
      var mid := (lo + hi) / 2;
      if a[mid] <= x {
        lo := mid + 1;
      } else {
        hi := mid;
      }
    }
    i := lo;
    CountSplit(a, i, Le, x);
  }
}
