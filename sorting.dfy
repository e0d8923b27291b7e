/**
 * The two in-place comparison sorts of sorting.py: selection sort and bubble
 * sort with early exit.  Both rearrange the array they are given by swaps and
 * hand back the same array.
 */
module Sorting {
  import opened Ordering

  /** `s` with the elements at `i` and `j` exchanged. */
  function Swap<T>(s: seq<T>, i: nat, j: nat): (t: seq<T>)
    requires i < |s| && j < |s|
    ensures |t| == |s| && t[i] == s[j] && t[j] == s[i]
    ensures forall p :: 0 <= p < |s| && p != i && p != j ==> t[p] == s[p]
    ensures multiset(t) == multiset(s)
  {
    s[i := s[j]][j := s[i]]
  }

  /** The first `i` elements of `s` are in order. */
  ghost predicate SortedBelow<T>(s: seq<T>, key: T -> int, i: int) {
    forall p, q :: 0 <= p < q < i && q < |s| ==> key(s[p]) <= key(s[q])
  }

  /** The elements from position `i` on are in order. */
  ghost predicate SortedFrom<T>(s: seq<T>, key: T -> int, i: int) {
    forall p, q :: i <= p < q < |s| && 0 <= p ==> key(s[p]) <= key(s[q])
  }

  /** No element before position `i` is larger than an element from `i` on. */
  ghost predicate Split<T>(s: seq<T>, key: T -> int, i: int) {
    forall p, q :: 0 <= p < i <= q < |s| ==> key(s[p]) <= key(s[q])
  }

  /** The two halves of a split sequence that are each in order make it sorted. */
  lemma SplitSorted<T>(s: seq<T>, key: T -> int, i: int)
    requires 0 <= i <= |s|
    requires SortedBelow(s, key, i) && Split(s, key, i) && SortedFrom(s, key, i)
    ensures Sorted(s, key)
  {
  }

  // ---------------------------------------------------------------- selection sort

  /**
   * The inner loop of selection_sort: the index of the first smallest element
   * of `a[i..]`.  It reads the array and changes nothing.
   */
  method MinIndex<T>(a: array<T>, key: T -> int, i: int) returns (m: int)
    requires 0 <= i < a.Length
    ensures i <= m < a.Length
    ensures forall q :: i <= q < a.Length ==> key(a[m]) <= key(a[q])
    ensures forall q :: i <= q < m ==> key(a[m]) < key(a[q])
  {
    m := i;
    var j := i + 1;
    while j < a.Length
      invariant i + 1 <= j <= a.Length
      invariant i <= m < j
      invariant forall q :: i <= q < j ==> key(a[m]) <= key(a[q])
      invariant forall q :: i <= q < m ==> key(a[m]) < key(a[q])
    {
      if key(a[j]) < key(a[m]) {
        m := j;
      }
      j := j + 1;
    }
  }

  /**
   * One outer step of selection_sort: bringing a smallest element of `s[i..]`
   * to position `i` extends the sorted, split prefix by one.
   */
  lemma SelectionStep<T>(s: seq<T>, key: T -> int, i: nat, m: nat)
    requires i <= m < |s|
    requires SortedBelow(s, key, i) && Split(s, key, i)
    requires forall q :: i <= q < |s| ==> key(s[m]) <= key(s[q])
    ensures SortedBelow(Swap(s, i, m), key, i + 1)
    ensures Split(Swap(s, i, m), key, i + 1)
  {
    var t := Swap(s, i, m);
    forall p, q | 0 <= p < i + 1 <= q < |t|
      ensures key(t[p]) <= key(t[q])
    {
      if p < i {
        assert t[p] == s[p];
        assert t[q] == s[q] || t[q] == s[i];
      }
    }
    forall p, q | 0 <= p < q < i + 1 && q < |t|
      ensures key(t[p]) <= key(t[q])
    {
      assert t[p] == s[p];
    }
  }

  /**
   * The body of selection_sort's outer loop for position `i`: swap a
   * smallest element of `a[i..]` into position `i` unless it is already there.
   */
  method PlaceMin<T>(a: array<T>, key: T -> int, i: int)
    requires 0 <= i < a.Length
    requires SortedBelow(a[..], key, i) && Split(a[..], key, i)
    modifies a
    ensures SortedBelow(a[..], key, i + 1) && Split(a[..], key, i + 1)
    ensures multiset(a[..]) == multiset(old(a[..]))
  {
    var minIndex := MinIndex(a, key, i);
    ghost var s := a[..];
    SelectionStep(s, key, i, minIndex);
    if minIndex != i {
      a[i], a[minIndex] := a[minIndex], a[i];
    }
    assert a[..] == Swap(s, i, minIndex);
  }

  /**
   * selection_sort: for each position `i` but the last, bring a smallest
   * element of `a[i..]` to position `i`.
   */
  method SelectionSort<T>(a: array<T>, key: T -> int) returns (r: array<T>)
    modifies a
    ensures r == a
    ensures Sorted(a[..], key)
    ensures multiset(a[..]) == multiset(old(a[..]))
    ensures a.Length <= 1 ==> a[..] == old(a[..])
  {
    var n := a.Length;
    var i := 0;
    while i < n - 1
      invariant 0 <= i <= n
      invariant n >= 1 ==> i <= n - 1
      invariant SortedBelow(a[..], key, i)
      invariant Split(a[..], key, i)
      invariant multiset(a[..]) == multiset(old(a[..]))
      invariant n <= 1 ==> a[..] == old(a[..])
    {
      PlaceMin(a, key, i);
      i := i + 1;
    }
    assert SortedFrom(a[..], key, i);
    SplitSorted(a[..], key, i);
    r := a;
  }

  // ---------------------------------------------------------------- bubble sort

  /** Stability composes. */
  lemma StableTrans<T>(s: seq<T>, t: seq<T>, u: seq<T>, key: T -> int)
    requires Stable(s, t, key) && Stable(t, u, key)
    ensures Stable(s, u, key)
  {
  }

  /**
   * What holds of a bubble_sort pass ending at `end` once it has compared the
   * neighbours up to position `i`, starting from `s0` and now at `s`.
   */
  ghost predicate PassInv<T>(s0: seq<T>, s: seq<T>, key: T -> int, i: int, end: int, swapped: bool) {
    && 0 <= i <= end < |s| == |s0|
    // the largest element seen so far has been carried along to `i`
    && (forall p :: 0 <= p <= i ==> key(s[p]) <= key(s[i]))
    && (forall q :: end < q < |s| ==> s[q] == s0[q])
    && (Split(s0, key, end + 1) ==> Split(s, key, end + 1))
    && multiset(s) == multiset(s0)
    && Stable(s0, s, key)
    && (!swapped ==> s == s0 && SortedBelow(s, key, i + 1))
    && (SortedBelow(s0, key, end + 1) ==> !swapped)
  }

  lemma PassStart<T>(s0: seq<T>, key: T -> int, end: int)
    requires 0 <= end < |s0|
    ensures PassInv(s0, s0, key, 0, end, false)
  {
  }

  /** Neighbours at `i` and `i + 1` already in order: the pass moves on. */
  lemma PassKeep<T>(s0: seq<T>, s: seq<T>, key: T -> int, i: int, end: int, swapped: bool)
    requires PassInv(s0, s, key, i, end, swapped)
    requires i < end && key(s[i]) <= key(s[i + 1])
    ensures PassInv(s0, s, key, i + 1, end, swapped)
  {
  }

  /**
   * Neighbours at `i` and `i + 1` out of order: exchanging them carries the
   * largest element on, keeps the split at `end + 1` and keeps ties in order.
   */
  lemma PassSwap<T>(s0: seq<T>, s: seq<T>, key: T -> int, i: int, end: int, swapped: bool)
    requires PassInv(s0, s, key, i, end, swapped)
    requires i < end && key(s[i]) > key(s[i + 1])
    ensures PassInv(s0, Swap(s, i, i + 1), key, i + 1, end, true)
  {
    var t := Swap(s, i, i + 1);
    WithKeySwap(s, i, key);
    StableTrans(s0, s, t, key);
    if Split(s0, key, end + 1) {
      SwapSplit(s, key, i, end + 1);
    }
    SwapCarries(s, t, key, i);
  }

  /** Exchanging two neighbours before a split keeps the split. */
  lemma SwapSplit<T>(s: seq<T>, key: T -> int, i: nat, n: int)
    requires i + 1 < n <= |s| && Split(s, key, n)
    ensures Split(Swap(s, i, i + 1), key, n)
  {
    var t := Swap(s, i, i + 1);
    forall p, q | 0 <= p < n <= q < |t|
      ensures key(t[p]) <= key(t[q])
    {
      assert t[q] == s[q];
      assert t[p] == s[p] || t[p] == s[i] || t[p] == s[i + 1];
    }
  }

  /** Exchanging a larger `s[i]` with `s[i + 1]` carries the largest of the prefix on to `i + 1`. */
  lemma SwapCarries<T>(s: seq<T>, t: seq<T>, key: T -> int, i: nat)
    requires i + 1 < |s| && key(s[i]) > key(s[i + 1]) && t == Swap(s, i, i + 1)
    requires forall p :: 0 <= p <= i ==> key(s[p]) <= key(s[i])
    ensures forall p :: 0 <= p <= i + 1 ==> key(t[p]) <= key(t[i + 1])
  {
  }

  /**
   * What a finished pass ending at `end` has done to `s0`, giving `s`:
   * `s[end]` is a largest element of `s[..end+1]`, nothing after `end` has
   * moved, a split at `end + 1` is kept, ties keep their order, and
   * `swapped` is false exactly when the pass found `s0[..end+1]` already in
   * order and left it alone.
   */
  ghost predicate PassDone<T>(s0: seq<T>, s: seq<T>, key: T -> int, end: int, swapped: bool) {
    && 0 <= end < |s| == |s0|
    && (forall p :: 0 <= p <= end ==> key(s[p]) <= key(s[end]))
    && (forall q :: end < q < |s| ==> s[q] == s0[q])
    && (Split(s0, key, end + 1) ==> Split(s, key, end + 1))
    && multiset(s) == multiset(s0)
    && Stable(s0, s, key)
    && (!swapped ==> s == s0 && SortedBelow(s, key, end + 1))
    && (SortedBelow(s0, key, end + 1) ==> !swapped)
  }

  lemma PassEnd<T>(s0: seq<T>, s: seq<T>, key: T -> int, end: int, swapped: bool)
    requires PassInv(s0, s, key, end, end, swapped)
    ensures PassDone(s0, s, key, end, swapped)
  {
  }

  /** The body of bubble_sort's inner loop: exchange `a[i]` and `a[i + 1]` when they are out of order. */
  method CompareSwap<T>(a: array<T>, key: T -> int, i: int) returns (swapped: bool)
    requires 0 <= i < a.Length - 1
    modifies a
    ensures swapped == (key(old(a[i])) > key(old(a[i + 1])))
    ensures a[..] == if swapped then Swap(old(a[..]), i, i + 1) else old(a[..])
  {
    swapped := key(a[i]) > key(a[i + 1]);
    if swapped {
      a[i], a[i + 1] := a[i + 1], a[i];
    }
  }

  /**
   * The inner loop of bubble_sort, the pass ending at `end`, with the
   * effect `PassDone` describes.
   */
  method BubblePass<T>(a: array<T>, key: T -> int, end: int) returns (swapped: bool)
    requires 0 < end < a.Length
    modifies a
    ensures PassDone(old(a[..]), a[..], key, end, swapped)
  {
    swapped := false;
    var i := 0;
    ghost var s0 := a[..];
    PassStart(s0, key, end);
    while i < end
      invariant PassInv(s0, a[..], key, i, end, swapped)
    {
      swapped := PassStep(a, key, i, end, swapped, s0);
      i := i + 1;
    }
    PassEnd(s0, a[..], key, end, swapped);
  }

  /** One step of the pass: compare and maybe exchange `a[i]` and `a[i + 1]`, keeping the pass invariant. */
  method PassStep<T>(a: array<T>, key: T -> int, i: int, end: int, swapped: bool, ghost s0: seq<T>) returns (now: bool)
    requires PassInv(s0, a[..], key, i, end, swapped) && i < end
    modifies a
    ensures PassInv(s0, a[..], key, i + 1, end, now)
  {
    ghost var s := a[..];
    var did := CompareSwap(a, key, i);
    if did {
      PassSwap(s0, s, key, i, end, swapped);
    } else {
      PassKeep(s0, s, key, i, end, swapped);
    }
    now := swapped || did;
  }

  /** What holds of bubble_sort's array `s`, started from `s0`, before the pass ending at `end`. */
  ghost predicate SortInv<T>(s0: seq<T>, s: seq<T>, key: T -> int, end: int) {
    && -1 <= end < |s| == |s0|
    && (|s| >= 1 ==> end >= 0)
    // the suffix after `end` is in order and holds the largest elements
    && SortedFrom(s, key, end + 1)
    && Split(s, key, end + 1)
    && multiset(s) == multiset(s0)
    && Stable(s0, s, key)
    && (Sorted(s0, key) ==> s == s0)
  }

  /**
   * One pass of bubble_sort from `s` to `t`: the suffix grows by one, and a
   * pass without swaps leaves the whole sequence sorted, so stopping early
   * is sound.
   */
  lemma SortStep<T>(s0: seq<T>, s: seq<T>, t: seq<T>, key: T -> int, end: int, swapped: bool)
    requires SortInv(s0, s, key, end) && end > 0
    requires PassDone(s, t, key, end, swapped)
    ensures SortInv(s0, t, key, end - 1)
    ensures !swapped ==> Sorted(t, key)
  {
    StableTrans(s0, s, t, key);
    if !swapped {
      SplitSorted(t, key, end + 1);
    }
    if Sorted(s0, key) {
      assert SortedBelow(s, key, end + 1);
    }
  }

  /** Once the passes reach the front, the whole sequence is sorted. */
  lemma SortDone<T>(s0: seq<T>, s: seq<T>, key: T -> int, end: int)
    requires SortInv(s0, s, key, end) && end <= 0
    ensures Sorted(s, key)
  {
    SplitSorted(s, key, end + 1);
  }

  /**
   * bubble_sort: passes ending at `end = n-1, n-2, ..., 1`; each pass swaps
   * neighbours that are out of order.  A pass that swaps nothing ends the sort.
   */
  method BubbleSort<T>(a: array<T>, key: T -> int) returns (r: array<T>)
    modifies a
    ensures r == a
    ensures Sorted(a[..], key)
    ensures multiset(a[..]) == multiset(old(a[..]))
    ensures Stable(old(a[..]), a[..], key)
    ensures Sorted(old(a[..]), key) ==> a[..] == old(a[..])
  {
    var n := a.Length;
    var end := n - 1;
    while end > 0
      invariant SortInv(old(a[..]), a[..], key, end)
    {
      ghost var s := a[..];
      var swapped := BubblePass(a, key, end);
      SortStep(old(a[..]), s, a[..], key, end, swapped);
      if !swapped {
        break;
      }
      end := end - 1;
    }
    if end <= 0 {
      SortDone(old(a[..]), a[..], key, end);
    }
    r := a;
  }
}
