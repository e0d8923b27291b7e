/**
 * The top-down merge sort of merge_sort.py: `ms` sorts the segment
 * `nums[low..high]` (both ends included) in place by sorting its two halves
 * and merging them with `merge`; `mergeSort` sorts the prefix of length `n`.
 */
module MergeSort {
  import opened Ordering

  /**
   * The merge of two runs that `merge` computes into `temp`: repeatedly take
   * the smaller head, the left one on a tie, then what is left of either run.
   */
  function Merge<T>(l: seq<T>, r: seq<T>, key: T -> int): (m: seq<T>)
    ensures |m| == |l| + |r|
    decreases |l| + |r|, 1
  {
    if l == [] then r
    else if r == [] then l
    else MergeHeadsOf(l, r, key)
  }

  /** The step of the merge while both runs are non-empty. */
  function MergeHeadsOf<T>(l: seq<T>, r: seq<T>, key: T -> int): (m: seq<T>)
    requires l != [] && r != []
    ensures |m| == |l| + |r|
    decreases |l| + |r|, 0
  {
    if key(l[0]) <= key(r[0]) then [l[0]] + Merge(l[1..], r, key)
    else [r[0]] + Merge(l, r[1..], key)
  }

  /** The multiset of a sequence is the sum of those of its two parts. */
  lemma SplitMultiset<T>(s: seq<T>, h: nat)
    requires h <= |s|
    ensures multiset(s) == multiset(s[..h]) + multiset(s[h..])
  {
    assert s == s[..h] + s[h..];
  }

  /** The ties of a sequence are those of its first part followed by those of the rest. */
  lemma SplitWithKey<T>(s: seq<T>, h: nat, key: T -> int, k: int)
    requires h <= |s|
    ensures WithKey(s, key, k) == WithKey(s[..h], key, k) + WithKey(s[h..], key, k)
  {
    assert s == s[..h] + s[h..];
    WithKeyConcat(s[..h], s[h..], key, k);
  }

  /** Merging rearranges the two runs: it neither loses nor invents an element. */
  lemma {:induction false} MergePermutation<T>(l: seq<T>, r: seq<T>, key: T -> int)
    ensures multiset(Merge(l, r, key)) == multiset(l) + multiset(r)
    decreases |l| + |r|
  {
    if l != [] && r != [] {
      if key(l[0]) <= key(r[0]) {
        MergePermutation(l[1..], r, key);
        SplitMultiset(l, 1);
        assert l[..1] == [l[0]];
      } else {
        MergePermutation(l, r[1..], key);
        SplitMultiset(r, 1);
        assert r[..1] == [r[0]];
      }
    }
  }

  /** A lower bound on both runs is a lower bound on their merge. */
  lemma {:induction false} MergeBound<T>(l: seq<T>, r: seq<T>, key: T -> int, b: int)
    requires forall i :: 0 <= i < |l| ==> b <= key(l[i])
    requires forall i :: 0 <= i < |r| ==> b <= key(r[i])
    ensures forall i :: 0 <= i < |l| + |r| ==> b <= key(Merge(l, r, key)[i])
    decreases |l| + |r|
  {
    if l != [] && r != [] {
      if key(l[0]) <= key(r[0]) {
        MergeBound(l[1..], r, key, b);
        MergeTakeLeft(l, r, key);
      } else {
        MergeBound(l, r[1..], key, b);
        MergeTakeRight(l, r, key);
      }
    }
  }

  /** A sequence whose head is at most everything after it, and whose tail is sorted, is sorted. */
  lemma ConsSorted<T>(x: T, s: seq<T>, key: T -> int)
    requires Sorted(s, key)
    requires forall i :: 0 <= i < |s| ==> key(x) <= key(s[i])
    ensures Sorted([x] + s, key)
  {
    var t := [x] + s;
    forall i, j | 0 <= i < j < |t| ensures key(t[i]) <= key(t[j]) {
      assert t[j] == s[j - 1];
      if i > 0 {
        assert t[i] == s[i - 1];
      }
    }
  }

  /** Merging two sorted runs gives a sorted run. */
  lemma {:induction false} MergeSorted<T>(l: seq<T>, r: seq<T>, key: T -> int)
    requires Sorted(l, key) && Sorted(r, key)
    ensures Sorted(Merge(l, r, key), key)
    decreases |l| + |r|
  {
    if l != [] && r != [] {
      if key(l[0]) <= key(r[0]) {
        MergeSorted(l[1..], r, key);
        MergeBound(l[1..], r, key, key(l[0]));
        ConsSorted(l[0], Merge(l[1..], r, key), key);
      } else {
        MergeSorted(l, r[1..], key);
        MergeBound(l, r[1..], key, key(r[0]));
        ConsSorted(r[0], Merge(l, r[1..], key), key);
      }
    }
  }

  /** One step of `merge`'s first loop, taking the left head `l[0]`. */
  lemma MergeTakeLeft<T>(l: seq<T>, r: seq<T>, key: T -> int)
    requires l != [] && (r == [] || key(l[0]) <= key(r[0]))
    ensures Merge(l, r, key) == [l[0]] + Merge(l[1..], r, key)
  {
    if r == [] {
      assert Merge(l[1..], r, key) == l[1..];
      assert l == [l[0]] + l[1..];
    }
  }

  /** One step of `merge`'s first loop, taking the right head `r[0]`. */
  lemma MergeTakeRight<T>(l: seq<T>, r: seq<T>, key: T -> int)
    requires r != [] && (l == [] || key(l[0]) > key(r[0]))
    ensures Merge(l, r, key) == [r[0]] + Merge(l, r[1..], key)
  {
    if l == [] {
      assert Merge(l, r[1..], key) == r[1..];
      assert r == [r[0]] + r[1..];
    }
  }

  /** The ties of `[x] + s`: `x` itself when its key is `k`, then those of `s`. */
  lemma WithKeyCons<T>(x: T, s: seq<T>, key: T -> int, k: int)
    ensures WithKey([x] + s, key, k) == (if key(x) == k then [x] else []) + WithKey(s, key, k)
  {
    assert ([x] + s)[0] == x;
    assert ([x] + s)[1..] == s;
  }

  /** Every key of a sorted run is at least its first key. */
  lemma SortedAboveHead<T>(l: seq<T>, key: T -> int, k: int)
    requires Sorted(l, key) && l != [] && k < key(l[0])
    ensures forall i :: 0 <= i < |l| ==> k < key(l[i])
  {
    forall i | 0 <= i < |l| ensures k < key(l[i]) {
      if i > 0 {
        assert key(l[0]) <= key(l[i]);
      }
    }
  }

  /**
   * Merging is stable: among elements with equal keys, those of the left run
   * come first, each run's in its own order.  It needs only the left run to
   * be sorted: a right element is taken before a left one only when its key
   * is smaller than every key left in the left run.
   */
  lemma {:induction false} MergeStable<T>(l: seq<T>, r: seq<T>, key: T -> int, k: int)
    requires Sorted(l, key)
    ensures WithKey(Merge(l, r, key), key, k) == WithKey(l, key, k) + WithKey(r, key, k)
    decreases |l| + |r|
  {
    if l == [] || r == [] {
    } else if key(l[0]) <= key(r[0]) {
      MergeTakeLeft(l, r, key);
      MergeStable(l[1..], r, key, k);
      WithKeyCons(l[0], Merge(l[1..], r, key), key, k);
    } else {
      MergeTakeRight(l, r, key);
      MergeStable(l, r[1..], key, k);
      WithKeyCons(r[0], Merge(l, r[1..], key), key, k);
      if key(r[0]) == k {
        SortedAboveHead(l, key, k);
        WithKeyAbove(l, key, k);
      }
    }
  }

  /** The length of the left half `ms` splits a segment of length `n` into: `mid - low + 1`. */
  function LeftHalf(n: nat): (h: nat)
    requires n >= 2
    ensures 1 <= h < n
  {
    (n + 1) / 2
  }

  /**
   * What `ms` leaves in a segment that held `s`: segments of length 0 and 1
   * stay as they are; longer ones go through `MergeHalves`.
   */
  function TopDownSort<T>(s: seq<T>, key: T -> int): (r: seq<T>)
    ensures |r| == |s|
    decreases |s|, 1
  {
    if |s| <= 1 then s else MergeHalves(s, key)
  }

  /**
   * A segment of at least two elements is split after its first `LeftHalf`
   * elements, both halves are sorted by `TopDownSort`, and the results merged.
   */
  function MergeHalves<T>(s: seq<T>, key: T -> int): (r: seq<T>)
    requires |s| >= 2
    ensures |r| == |s|
    decreases |s|, 0
  {
    var h := LeftHalf(|s|);
    Merge(TopDownSort(s[..h], key), TopDownSort(s[h..], key), key)
  }

  lemma {:induction false} TopDownSortSorted<T>(s: seq<T>, key: T -> int)
    ensures Sorted(TopDownSort(s, key), key)
    decreases |s|
  {
    if |s| > 1 {
      var h := LeftHalf(|s|);
      TopDownSortSorted(s[..h], key);
      TopDownSortSorted(s[h..], key);
      MergeSorted(TopDownSort(s[..h], key), TopDownSort(s[h..], key), key);
    }
  }

  lemma {:induction false} TopDownSortPermutation<T>(s: seq<T>, key: T -> int)
    ensures multiset(TopDownSort(s, key)) == multiset(s)
    decreases |s|
  {
    if |s| > 1 {
      var h := LeftHalf(|s|);
      TopDownSortPermutation(s[..h], key);
      TopDownSortPermutation(s[h..], key);
      MergePermutation(TopDownSort(s[..h], key), TopDownSort(s[h..], key), key);
      SplitMultiset(s, h);
    }
  }

  lemma {:induction false} TopDownSortStable<T>(s: seq<T>, key: T -> int)
    ensures Stable(s, TopDownSort(s, key), key)
    decreases |s|
  {
    if |s| > 1 {
      var h := LeftHalf(|s|);
      var left, right := TopDownSort(s[..h], key), TopDownSort(s[h..], key);
      TopDownSortStable(s[..h], key);
      TopDownSortStable(s[h..], key);
      TopDownSortSorted(s[..h], key);
      forall k ensures WithKey(TopDownSort(s, key), key, k) == WithKey(s, key, k) {
        MergeStable(left, right, key, k);
        SplitWithKey(s, h, key, k);
      }
    }
  }

  /**
   * Every sorted, stable rearrangement of `s` is `TopDownSort(s)`: merge sort
   * and any other stable sort, bubble sort among them, agree on every input.
   */
  lemma StableSortIsTopDown<T>(s: seq<T>, t: seq<T>, key: T -> int)
    requires Sorted(t, key) && Stable(s, t, key)
    ensures t == TopDownSort(s, key)
  {
    TopDownSortSorted(s, key);
    TopDownSortStable(s, key);
    assert Stable(t, TopDownSort(s, key), key);
    SortedStableUnique(t, TopDownSort(s, key), key);
  }

  // ---------------------------------------------------------------- the array code

  /** Appending the left head to `temp` keeps `temp + Merge(rest)` the whole merge. */
  lemma AppendLeft<T>(temp: seq<T>, l: seq<T>, r: seq<T>, key: T -> int, m: seq<T>)
    requires l != [] && (r == [] || key(l[0]) <= key(r[0]))
    requires temp + Merge(l, r, key) == m
    ensures (temp + [l[0]]) + Merge(l[1..], r, key) == m
  {
    MergeTakeLeft(l, r, key);
    assert temp + ([l[0]] + Merge(l[1..], r, key)) == (temp + [l[0]]) + Merge(l[1..], r, key);
  }

  /** Appending the right head to `temp` keeps `temp + Merge(rest)` the whole merge. */
  lemma AppendRight<T>(temp: seq<T>, l: seq<T>, r: seq<T>, key: T -> int, m: seq<T>)
    requires r != [] && (l == [] || key(l[0]) > key(r[0]))
    requires temp + Merge(l, r, key) == m
    ensures (temp + [r[0]]) + Merge(l, r[1..], key) == m
  {
    MergeTakeRight(l, r, key);
    assert temp + ([r[0]] + Merge(l, r[1..], key)) == (temp + [r[0]]) + Merge(l, r[1..], key);
  }

  /**
   * The first loop of `merge`: while both runs `nums[i..mid]` and
   * `nums[j..high]` are non-empty, append the smaller head to `temp`, the
   * left one on a tie.  It stops with one run used up.
   */
  method MergeHeads<T>(a: array<T>, key: T -> int, low: int, mid: int, high: int) returns (temp: seq<T>, i: int, j: int)
    requires 0 <= low <= mid + 1 <= high + 1 <= a.Length
    ensures low <= i <= mid + 1 && mid + 1 <= j <= high + 1
    ensures i == mid + 1 || j == high + 1
    ensures temp + Merge(a[i..mid + 1], a[j..high + 1], key) == Merge(a[low..mid + 1], a[mid + 1..high + 1], key)
  {
    ghost var m := Merge(a[low..mid + 1], a[mid + 1..high + 1], key);
    i, j := low, mid + 1;
    temp := [];
    while i <= mid && j <= high
      invariant low <= i <= mid + 1 && mid + 1 <= j <= high + 1
      invariant temp + Merge(a[i..mid + 1], a[j..high + 1], key) == m
    {
      if key(a[i]) <= key(a[j]) {
        AppendLeft(temp, a[i..mid + 1], a[j..high + 1], key, m);
        assert a[i..mid + 1][1..] == a[i + 1..mid + 1];
        temp := temp + [a[i]];
        i := i + 1;
      } else {
        AppendRight(temp, a[i..mid + 1], a[j..high + 1], key, m);
        assert a[j..high + 1][1..] == a[j + 1..high + 1];
        temp := temp + [a[j]];
        j := j + 1;
      }
    }
  }

  /** The second and third loops of `merge`: append `nums[from..to - 1]` to `temp`. */
  method AppendRest<T>(a: array<T>, from: int, to: int, temp: seq<T>) returns (out: seq<T>)
    requires 0 <= from <= to <= a.Length
    ensures out == temp + a[from..to]
  {
    var i := from;
    out := temp;
    while i < to
      invariant from <= i <= to
      invariant out == temp + a[from..i]
    {
      assert a[from..i + 1] == a[from..i] + [a[i]];
      out := out + [a[i]];
      i := i + 1;
    }
  }

  /** Once one run is used up, appending what is left of both completes the merge. */
  lemma MergeRest<T>(temp: seq<T>, l: seq<T>, r: seq<T>, key: T -> int, m: seq<T>)
    requires l == [] || r == []
    requires temp + Merge(l, r, key) == m
    ensures (temp + l) + r == m
  {
    assert Merge(l, r, key) == l + r;
    assert (temp + l) + r == temp + (l + r);
  }

  /** The three loops of `merge`, which build `temp` and only read `nums`. */
  method MergeToTemp<T>(a: array<T>, key: T -> int, low: int, mid: int, high: int) returns (temp: seq<T>)
    requires 0 <= low <= mid + 1 <= high + 1 <= a.Length
    ensures temp == Merge(a[low..mid + 1], a[mid + 1..high + 1], key)
  {
    var i, j;
    temp, i, j := MergeHeads(a, key, low, mid, high);
    MergeRest(temp, a[i..mid + 1], a[j..high + 1], key, Merge(a[low..mid + 1], a[mid + 1..high + 1], key));
    temp := AppendRest(a, i, mid + 1, temp);
    temp := AppendRest(a, j, high + 1, temp);
  }

  /** `s` with its elements `low..high` replaced by `t`, which has as many. */
  ghost function Splice<T>(s: seq<T>, low: int, t: seq<T>, high: int): (r: seq<T>)
    requires 0 <= low <= high + 1 <= |s| && |t| == high - low + 1
    ensures |r| == |s|
  {
    s[..low] + t + s[high + 1..]
  }

  /** What `Splice` puts in, and what it keeps on either side. */
  lemma SpliceParts<T>(s: seq<T>, low: int, t: seq<T>, high: int)
    requires 0 <= low <= high + 1 <= |s| && |t| == high - low + 1
    ensures Splice(s, low, t, high)[low..high + 1] == t
    ensures Splice(s, low, t, high)[..low] == s[..low]
    ensures Splice(s, low, t, high)[high + 1..] == s[high + 1..]
  {
    var r := Splice(s, low, t, high);
    assert r == (s[..low] + t) + s[high + 1..];
    assert r[..high + 1] == s[..low] + t;
  }

  /** Replacing a part of the array that was already itself changes nothing. */
  lemma SpliceSame<T>(s: seq<T>, low: int, high: int)
    requires 0 <= low <= high + 1 <= |s|
    ensures Splice(s, low, s[low..high + 1], high) == s
  {
    assert s == s[..low] + s[low..high + 1] + s[high + 1..];
  }

  /**
   * merge: merge the sorted runs `nums[low..mid]` and `nums[mid+1..high]`
   * into the list `temp`, then copy `temp` back over `nums[low..high]`.
   * Nothing outside `nums[low..high]` changes.
   */
  method MergeRuns<T>(a: array<T>, key: T -> int, low: int, mid: int, high: int)
    requires 0 <= low <= mid + 1 <= high + 1 <= a.Length
    modifies a
    ensures a[..] == Splice(old(a[..]), low, Merge(old(a[low..mid + 1]), old(a[mid + 1..high + 1]), key), high)
  {
    var temp := MergeToTemp(a, key, low, mid, high);
    var n := high - low + 1;
    var i := low;
    for k := 0 to n
      invariant i == low + k
      invariant forall t :: low <= t < low + k ==> a[t] == temp[t - low]
      invariant forall t :: 0 <= t < a.Length && !(low <= t < low + k) ==> a[t] == old(a[t])
    {
      a[i] := temp[k];
      i := i + 1;
    }
    ghost var r := Splice(old(a[..]), low, temp, high);
    SpliceParts(old(a[..]), low, temp, high);
    assert forall t :: 0 <= t < a.Length ==> a[t] == r[t] by {
      forall t | 0 <= t < a.Length ensures a[t] == r[t] {
        if t < low {
          assert r[t] == r[..low][t];
        } else if t <= high {
          assert r[t] == r[low..high + 1][t - low];
        } else {
          assert r[t] == r[high + 1..][t - high - 1];
        }
      }
    }
    assert a[..] == r;
  }

  /** `mid = (low + high) // 2` leaves `LeftHalf` of the segment's elements in the left half. */
  lemma MidSplit(low: int, high: int)
    requires low < high
    ensures low <= (low + high) / 2 < high
    ensures (low + high) / 2 - low + 1 == LeftHalf(high - low + 1)
  {
  }

  /** The two halves of the segment `low..high` of `s` are the halves `TopDownSort` uses. */
  lemma SegmentHalves<T>(s: seq<T>, low: int, mid: int, high: int)
    requires 0 <= low <= mid < high < |s| && mid - low + 1 == LeftHalf(high - low + 1)
    ensures s[low..high + 1][..mid - low + 1] == s[low..mid + 1]
    ensures s[low..high + 1][mid - low + 1..] == s[mid + 1..high + 1]
  {
  }

  /**
   * The three steps of `ms` on a segment of at least two elements, on
   * sequences: sorting the left half, then the right half, then merging the
   * two leaves the array as sorting the whole segment would.
   */
  lemma MsSteps<T>(s0: seq<T>, key: T -> int, low: int, mid: int, high: int)
    requires 0 <= low <= mid < high < |s0| && mid - low + 1 == LeftHalf(high - low + 1)
    ensures
      var s1 := Splice(s0, low, TopDownSort(s0[low..mid + 1], key), mid);
      var s2 := Splice(s1, mid + 1, TopDownSort(s1[mid + 1..high + 1], key), high);
      Splice(s2, low, Merge(s2[low..mid + 1], s2[mid + 1..high + 1], key), high)
        == Splice(s0, low, TopDownSort(s0[low..high + 1], key), high)
  {
    var left := TopDownSort(s0[low..mid + 1], key);
    var s1 := Splice(s0, low, left, mid);
    SpliceParts(s0, low, left, mid);
    assert s1[mid + 1..high + 1] == s0[mid + 1..high + 1] by {
      assert s1[mid + 1..high + 1] == s1[mid + 1..][..high - mid];
      assert s0[mid + 1..high + 1] == s0[mid + 1..][..high - mid];
    }
    var right := TopDownSort(s0[mid + 1..high + 1], key);
    var s2 := Splice(s1, mid + 1, right, high);
    SpliceParts(s1, mid + 1, right, high);
    assert s2[low..mid + 1] == left by {
      assert s2[low..mid + 1] == s2[..mid + 1][low..];
      assert s1[low..mid + 1] == s1[..mid + 1][low..];
    }
    assert s2[..low] == s0[..low] by {
      assert s2[..low] == s2[..mid + 1][..low];
      assert s1[..low] == s1[..mid + 1][..low];
    }
    assert s2[high + 1..] == s0[high + 1..] by {
      assert s1[high + 1..] == s1[mid + 1..][high - mid..];
      assert s0[high + 1..] == s0[mid + 1..][high - mid..];
    }
    SegmentHalves(s0, low, mid, high);
    assert Merge(left, right, key) == TopDownSort(s0[low..high + 1], key);
  }

  /**
   * ms: sort `nums[low..high]` in place.  A segment with `low >= high` is
   * left alone; otherwise `low <= mid < high`, so both halves are strictly
   * shorter and the recursion ends.  Nothing outside the segment changes.
   */
  method Ms<T>(a: array<T>, key: T -> int, low: int, high: int)
    requires low >= high || (0 <= low && high < a.Length)
    modifies a
    ensures 0 <= low <= high < a.Length ==>
      a[..] == Splice(old(a[..]), low, TopDownSort(old(a[low..high + 1]), key), high)
    ensures low >= high ==> a[..] == old(a[..])
    decreases high - low
  {
    if low >= high {
      if 0 <= low == high < a.Length {
        SpliceSame(a[..], low, high);
      }
      return;
    }
    var mid := (low + high) / 2;
    MidSplit(low, high);
    ghost var s0 := a[..];
    MsSteps(s0, key, low, mid, high);
    Ms(a, key, low, mid);
    ghost var s1 := a[..];
    assert s1 == Splice(s0, low, TopDownSort(s0[low..mid + 1], key), mid);
    Ms(a, key, mid + 1, high);
    ghost var s2 := a[..];
    assert s2 == Splice(s1, mid + 1, TopDownSort(s1[mid + 1..high + 1], key), high);
    MergeRuns(a, key, low, mid, high);
    assert a[..] == Splice(s2, low, Merge(s2[low..mid + 1], s2[mid + 1..high + 1], key), high);
  }

  /**
   * mergeSort: sort the prefix of length `n` with `ms(nums, 0, n - 1)` and
   * return the same array.  With `n == nums.Length` the whole array is
   * sorted; with `n <= 1` nothing changes, even on an empty array, where
   * `ms(nums, 0, 0)` returns at once.  A longer `n` makes `merge` index
   * past the end, so callers must not pass one.
   */
  method MergeSortPrefix<T>(a: array<T>, key: T -> int, n: int) returns (r: array<T>)
    requires n <= a.Length || n <= 1
    modifies a
    ensures r == a
    ensures 1 <= n <= a.Length ==> a[..n] == TopDownSort(old(a[..n]), key)
    ensures 0 <= n <= a.Length ==> Sorted(a[..n], key) && Stable(old(a[..n]), a[..n], key)
    ensures 0 <= n <= a.Length ==> multiset(a[..n]) == multiset(old(a[..n]))
    ensures 0 <= n <= a.Length ==> a[n..] == old(a[n..])
    ensures n <= 1 ==> a[..] == old(a[..])
  {
    Ms(a, key, 0, n - 1);
    if 1 <= n <= a.Length {
      SpliceParts(old(a[..]), 0, TopDownSort(old(a[..n]), key), n - 1);
      TopDownSortSorted(old(a[..n]), key);
      TopDownSortStable(old(a[..n]), key);
      TopDownSortPermutation(old(a[..n]), key);
    }
    r := a;
  }
}
