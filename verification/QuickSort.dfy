/** algorithm/algo_sort.h: quick_sort_v1, in place, with elements modelled as integers. */
module QuickSort {

  predicate Sorted(s: seq<int>) {
    forall i, j :: 0 <= i < j < |s| ==> s[i] <= s[j]
  }

  predicate AllAtMost(s: seq<int>, v: int) {
    forall i :: 0 <= i < |s| ==> s[i] <= v
  }

  predicate AllAtLeast(s: seq<int>, v: int) {
    forall i :: 0 <= i < |s| ==> s[i] >= v
  }

  /** What makes the recursion end: a call on the whole range again has its maximum at the end. */
  function Rank(s: seq<int>): nat
    requires s != []
  {
    if AllAtMost(s, s[|s| - 1]) then 0 else 1
  }

  lemma PermutedBounds(s: seq<int>, t: seq<int>, v: int)
    requires multiset(s) == multiset(t)
    ensures AllAtMost(s, v) ==> AllAtMost(t, v)
    ensures AllAtLeast(s, v) ==> AllAtLeast(t, v)
  {
    forall i | 0 <= i < |t| ensures exists j :: 0 <= j < |s| && s[j] == t[i] {
      assert t[i] in multiset(t);
      assert t[i] in s;
    }
  }

  lemma SortedConcat(s: seq<int>, t: seq<int>, v: int)
    requires Sorted(s) && Sorted(t) && AllAtMost(s, v) && AllAtLeast(t, v)
    ensures Sorted(s + t)
  {
  }

  /** The `len` elements from lo on. */
  function Part(s: seq<int>, lo: nat, len: nat): (r: seq<int>)
    requires lo + len <= |s|
    ensures |r| == len
  {
    s[lo..lo + len]
  }

  /** t is s with its elements from lo on, len of them, rearranged. */
  predicate Rearranged(s: seq<int>, t: seq<int>, lo: nat, len: nat) {
    && lo + len <= |s| == |t|
    && s[..lo] == t[..lo] && s[lo + len..] == t[lo + len..]
    && multiset(Part(s, lo, len)) == multiset(Part(t, lo, len))
  }

  /** Rearranging a part of a range rearranges the range. */
  lemma PartRearranged(s: seq<int>, t: seq<int>, lo: nat, len: nat, lo': nat, len': nat)
    requires Rearranged(s, t, lo', len') && lo <= lo' && lo' + len' <= lo + len <= |s|
    ensures Rearranged(s, t, lo, len)
    ensures s[lo..lo'] == t[lo..lo'] && s[lo' + len'..lo + len] == t[lo' + len'..lo + len]
  {
    var left, right := s[lo..lo'], s[lo' + len'..lo + len];
    assert left == s[..lo'][lo..] == t[..lo'][lo..] == t[lo..lo'];
    var k := lo + len - lo' - len';
    assert right == s[lo' + len'..][..k] == t[lo' + len'..][..k] == t[lo' + len'..lo + len];
    assert Part(s, lo, len) == left + s[lo'..lo' + len'] + right;
    assert Part(t, lo, len) == left + t[lo'..lo' + len'] + right;
    assert s[..lo] == s[..lo'][..lo] == t[..lo'][..lo] == t[..lo];
    assert s[lo + len..] == s[lo' + len'..][k..] == t[lo' + len'..][k..] == t[lo + len..];
  }

  lemma RearrangedTwice(s: seq<int>, t: seq<int>, u: seq<int>, lo: nat, len: nat)
    requires Rearranged(s, t, lo, len) && Rearranged(t, u, lo, len)
    ensures Rearranged(s, u, lo, len)
  {
  }

  /** Sorting both sides of the pivot sorts the range. */
  lemma Assemble(s: seq<int>, t: seq<int>, u: seq<int>, lo: nat, mid: nat, len: nat, pivot: int)
    requires mid < len && lo + len <= |s|
    requires AllAtMost(Part(s, lo, mid + 1), pivot) && AllAtLeast(Part(s, lo + mid + 1, len - mid - 1), pivot)
    requires Rearranged(s, t, lo, mid + 1) && Sorted(Part(t, lo, mid + 1))
    requires Rearranged(t, u, lo + mid + 1, len - mid - 1) && Sorted(Part(u, lo + mid + 1, len - mid - 1))
    ensures Rearranged(s, u, lo, len) && Sorted(Part(u, lo, len))
  {
    hide Sorted, AllAtMost, AllAtLeast, Part, Rearranged;
    var k := mid + 1;
    PartRearranged(s, t, lo, len, lo, k);
    PartRearranged(t, u, lo, len, lo + k, len - k);
    RearrangedTwice(s, t, u, lo, len);
    SidesOf(s, t, lo, k, len);
    SidesOf(t, u, lo, k, len);
    PermutedBounds(Part(s, lo, k), Part(t, lo, k), pivot);
    PermutedBounds(Part(t, lo + k, len - k), Part(u, lo + k, len - k), pivot);
    SortedConcat(Part(u, lo, k), Part(u, lo + k, len - k), pivot);
    PartSplit(u, lo, k, len);
  }

  /** Rearranging one side of a range leaves the other side alone. */
  lemma SidesOf(s: seq<int>, t: seq<int>, lo: nat, k: nat, len: nat)
    requires k <= len && lo + len <= |s|
    ensures Rearranged(s, t, lo, k) ==>
              |t| == |s| && multiset(Part(s, lo, k)) == multiset(Part(t, lo, k))
              && Part(s, lo + k, len - k) == Part(t, lo + k, len - k)
    ensures Rearranged(s, t, lo + k, len - k) ==>
              |t| == |s| && multiset(Part(s, lo + k, len - k)) == multiset(Part(t, lo + k, len - k))
              && Part(s, lo, k) == Part(t, lo, k)
  {
    if Rearranged(s, t, lo, k) {
      assert s[lo + k..lo + len] == s[lo + k..][..len - k] == t[lo + k..][..len - k] == t[lo + k..lo + len];
    }
    if Rearranged(s, t, lo + k, len - k) {
      assert s[lo..lo + k] == s[..lo + k][lo..] == t[..lo + k][lo..] == t[lo..lo + k];
    }
  }

  lemma PartSplit(s: seq<int>, lo: nat, k: nat, len: nat)
    requires k <= len && lo + len <= |s|
    ensures Part(s, lo, len) == Part(s, lo, k) + Part(s, lo + k, len - k)
  {
  }

  /** With the pivot put into the hole, s holds the elements of start. */
  ghost predicate SameWithPivot(s: seq<int>, start: seq<int>, hole: nat)
    requires start != [] && hole < |s|
  {
    multiset(s[hole := start[0]]) == multiset(start)
  }

  /** Moving an element into the hole moves the hole. */
  lemma HoleMoves(s: seq<int>, start: seq<int>, hole: nat, hole': nat)
    requires start != [] && hole < |s| && hole' < |s| && hole != hole' && SameWithPivot(s, start, hole)
    ensures SameWithPivot(s[hole := s[hole']], start, hole')
  {
    var pivot := start[0];
    assert multiset(s[hole := s[hole']][hole' := pivot]) == multiset(s[hole := pivot]);
  }

  function Hole(low: nat, high: nat, onHigh: bool): nat {
    if onHigh then low else high
  }

  /** Between the two indices is what the loop has not looked at; outside, what belongs there. */
  ghost predicate Parted(s: seq<int>, start: seq<int>, low: nat, high: nat, onHigh: bool)
    requires start != []
  {
    && |s| == |start| && low < high <= |s| && (high == |s| ==> onHigh)
    && (forall k :: 0 <= k < low + (if onHigh then 0 else 1) ==> s[k] <= start[0])
    && (forall k :: high + (if onHigh then 0 else 1) <= k < |s| ==> s[k] >= start[0])
    && (forall k :: low < k < high ==> s[k] == start[k])
    && SameWithPivot(s, start, Hole(low, high, onHigh))
  }

  lemma HighStays(s: seq<int>, start: seq<int>, low: nat, high: nat)
    requires start != [] && Parted(s, start, low, high + 1, true) && low < high && s[high] >= start[0]
    ensures Parted(s, start, low, high, true)
  {
    hide SameWithPivot;
  }

  lemma HighMoves(s: seq<int>, start: seq<int>, low: nat, high: nat)
    requires start != [] && Parted(s, start, low, high + 1, true) && low < high && s[high] < start[0]
    ensures Parted(s[low := s[high]], start, low, high, false)
  {
    HoleMoves(s, start, low, high);
    hide SameWithPivot;
    FilledOnly(s, low, s[high]);
  }

  lemma LowStays(s: seq<int>, start: seq<int>, low: nat, high: nat)
    requires start != [] && Parted(s, start, low, high, false) && low + 1 < high && s[low + 1] <= start[0]
    ensures Parted(s, start, low + 1, high, false)
  {
    hide SameWithPivot;
  }

  lemma LowMoves(s: seq<int>, start: seq<int>, low: nat, high: nat)
    requires start != [] && Parted(s, start, low, high, false) && low + 1 < high && s[low + 1] > start[0]
    ensures Parted(s[high := s[low + 1]], start, low + 1, high, true)
  {
    HoleMoves(s, start, high, low + 1);
    hide SameWithPivot;
    FilledOnly(s, high, s[low + 1]);
  }

  /** Filling the hole leaves the other elements alone. */
  lemma FilledOnly(s: seq<int>, hole: nat, v: int)
    requires hole < |s|
    ensures var s' := s[hole := v];
            |s'| == |s| && s'[hole] == v && forall k :: 0 <= k < |s| && k != hole ==> s'[k] == s[k]
  {
  }

  lemma HighSteps(s: seq<int>, start: seq<int>, low: nat, high: nat)
    requires start != [] && Parted(s, start, low, high + 1, true) && low < high
    ensures s[high] == start[high]
    ensures s[high] >= start[0] ==> Parted(s, start, low, high, true)
    ensures s[high] < start[0] ==> Parted(s[low := s[high]], start, low, high, false)
  {
    assert s[high] == start[high];
    hide Parted;
    if s[high] >= start[0] {
      HighStays(s, start, low, high);
    } else {
      HighMoves(s, start, low, high);
    }
  }

  lemma LowSteps(s: seq<int>, start: seq<int>, low: nat, high: nat)
    requires start != [] && Parted(s, start, low, high, false) && low + 1 < high
    ensures s[low + 1] == start[low + 1]
    ensures s[low + 1] <= start[0] ==> Parted(s, start, low + 1, high, false)
    ensures s[low + 1] > start[0] ==> Parted(s[high := s[low + 1]], start, low + 1, high, true)
  {
    assert s[low + 1] == start[low + 1];
    hide Parted;
    if s[low + 1] <= start[0] {
      LowStays(s, start, low, high);
    } else {
      LowMoves(s, start, low, high);
    }
  }

  /** The indices have met: filling the hole with the pivot parts the range. */
  lemma Met(s: seq<int>, start: seq<int>, low: nat, onHigh: bool, mid: nat)
    requires start != [] && Parted(s, start, low, low + 1, onHigh) && mid == Hole(low, low + 1, onHigh)
    ensures mid < |s|
    ensures var r := s[mid := start[0]];
            && multiset(r) == multiset(start)
            && AllAtMost(r[..mid + 1], start[0]) && AllAtLeast(r[mid + 1..], start[0])
  {
  }

  /** The state of the loop over a whole array that was a0 before it. */
  ghost predicate InLoop(a0: seq<int>, a: seq<int>, lo: nat, len: nat, low: nat, high: nat, onHigh: bool) {
    && lo + len <= |a0| == |a| && len != 0 && low < high <= len
    && a[..lo] == a0[..lo] && a[lo + len..] == a0[lo + len..]
    && Parted(Part(a, lo, len), Part(a0, lo, len), low, high, onHigh)
    && (Rank(Part(a0, lo, len)) == 0 && high - low < len ==> high < len && (!onHigh ==> high + 1 < len))
  }

  lemma PartUpdate(a: seq<int>, lo: nat, len: nat, k: nat, v: int)
    requires lo + len <= |a| && k < len
    ensures Part(a, lo, len)[k] == a[lo + k]
    ensures Part(a[lo + k := v], lo, len) == Part(a, lo, len)[k := v]
    ensures a[lo + k := v][..lo] == a[..lo] && a[lo + k := v][lo + len..] == a[lo + len..]
  {
  }

  lemma Enter(a: seq<int>, lo: nat, len: nat)
    requires len != 0 && lo + len <= |a|
    ensures InLoop(a, a, lo, len, 0, len, true)
  {
    var start := Part(a, lo, len);
    assert start[0 := start[0]] == start;
  }

  /** The iteration that looks down from high. */
  lemma LookHigh(a0: seq<int>, a: seq<int>, lo: nat, len: nat, low: nat, high: nat)
    requires InLoop(a0, a, lo, len, low, high + 1, true) && low < high
    ensures a[lo + high] >= a0[lo] ==> InLoop(a0, a, lo, len, low, high, true)
    ensures a[lo + high] < a0[lo] ==> InLoop(a0, a[lo + low := a[lo + high]], lo, len, low, high, false)
  {
    var s, start := Part(a, lo, len), Part(a0, lo, len);
    HighSteps(s, start, low, high);
    PartUpdate(a, lo, len, low, a[lo + high]);
    PartUpdate(a, lo, len, high, 0);
    PartUpdate(a0, lo, len, 0, 0);
    LastIsHigh(start);
    hide Parted, Part, Rank;
  }

  /** The iteration that looks up from low. */
  lemma LookLow(a0: seq<int>, a: seq<int>, lo: nat, len: nat, low: nat, high: nat)
    requires InLoop(a0, a, lo, len, low, high, false) && low + 1 < high && high < len
    ensures a[lo + low + 1] <= a0[lo] ==> InLoop(a0, a, lo, len, low + 1, high, false)
    ensures a[lo + low + 1] > a0[lo] ==> InLoop(a0, a[lo + high := a[lo + low + 1]], lo, len, low + 1, high, true)
  {
    var s, start := Part(a, lo, len), Part(a0, lo, len);
    LowSteps(s, start, low, high);
    PartUpdate(a, lo, len, high, a[lo + low + 1]);
    PartUpdate(a, lo, len, low + 1, 0);
    PartUpdate(a0, lo, len, 0, 0);
    hide Parted, Part, Rank;
  }

  lemma OffHigh(a0: seq<int>, a: seq<int>, lo: nat, len: nat, low: nat, high: nat)
    requires InLoop(a0, a, lo, len, low, high, false)
    ensures high < len
  {
  }

  /** Filling the hole at the end. */
  lemma Leave(a0: seq<int>, a: seq<int>, lo: nat, len: nat, low: nat, onHigh: bool, mid: nat)
    requires InLoop(a0, a, lo, len, low, low + 1, onHigh) && mid == Hole(low, low + 1, onHigh)
    ensures mid < len && lo + len <= |a0| == |a|
    ensures len >= 2 && Rank(Part(a0, lo, len)) == 0 ==> mid + 1 < len
    ensures var t := a[lo + mid := a0[lo]];
            && Rearranged(a0, t, lo, len)
            && AllAtMost(Part(t, lo, mid + 1), a0[lo]) && AllAtLeast(Part(t, lo + mid + 1, len - mid - 1), a0[lo])
  {
    var s, start, t := Part(a, lo, len), Part(a0, lo, len), a[lo + mid := a0[lo]];
    Met(s, start, low, onHigh, mid);
    PartUpdate(a, lo, len, mid, a0[lo]);
    PartUpdate(a0, lo, len, 0, 0);
    var r := s[mid := start[0]];
    assert Part(t, lo, mid + 1) == r[..mid + 1];
    assert Part(t, lo + mid + 1, len - mid - 1) == r[mid + 1..];
    hide Parted, Part, Rank, AllAtMost, AllAtLeast;
  }

  lemma LastIsHigh(s: seq<int>)
    requires s != []
    ensures Rank(s) == 0 ==> s[|s| - 1] >= s[0]
  {
  }

  /** The loop of quick_sort_v1.  The hole left by the pivot travels between the two indices. */
  method Partition(ar: array<int>, lo: nat, len: nat) returns (mid: nat)
    requires len >= 1 && lo + len <= ar.Length
    modifies ar
    ensures mid < len && Rearranged(old(ar[..]), ar[..], lo, len)
    ensures AllAtMost(Part(ar[..], lo, mid + 1), ar[lo + mid])
    ensures AllAtLeast(Part(ar[..], lo + mid + 1, len - mid - 1), ar[lo + mid])
    ensures ar[lo + mid] == old(ar[lo])
    ensures len >= 2 && Rank(Part(old(ar[..]), lo, len)) == 0 ==> mid + 1 < len
  {
    hide InLoop, Rearranged, AllAtMost, AllAtLeast, Part, Rank;
    ghost var a0 := ar[..];
    var pivot := ar[lo];
    Enter(a0, lo, len);
    var low, high, onHigh := 0, len, true;
    var i := 0;
    while i < len - 1
      invariant i <= len - 1 && high == low + len - i <= len
      invariant InLoop(a0, ar[..], lo, len, low, high, onHigh)
    {
      ghost var a := ar[..];
      if onHigh {
        high := high - 1;
        LookHigh(a0, a, lo, len, low, high);
        if ar[lo + high] < pivot {
          ar[lo + low] := ar[lo + high];
          assert ar[..] == a[lo + low := a[lo + high]];
          onHigh := false;
        }
      } else {
        OffHigh(a0, a, lo, len, low, high);
        LookLow(a0, a, lo, len, low, high);
        low := low + 1;
        if ar[lo + low] > pivot {
          ar[lo + high] := ar[lo + low];
          assert ar[..] == a[lo + high := a[lo + low]];
          onHigh := true;
        }
      }
      i := i + 1;
    }
    mid := if onHigh then low else high;
    Leave(a0, ar[..], lo, len, low, onHigh, mid);
    ghost var a := ar[..];
    ar[lo + mid] := pivot;
    assert ar[..] == a[lo + mid := pivot];
  }

  /** ar + lo and len are what the source passes as pointer and length. */
  method QuickSortV1(ar: array<int>, lo: nat, len: nat)
    requires len >= 1 && lo + len <= ar.Length
    modifies ar
    ensures Rearranged(old(ar[..]), ar[..], lo, len) && Sorted(Part(ar[..], lo, len))
    decreases len, Rank(Part(ar[..], lo, len))
  {
    hide Rearranged, Sorted, AllAtMost, AllAtLeast, Part;
    ghost var before := ar[..];
    var mid := Partition(ar, lo, len);
    ghost var pivot, parted := ar[lo + mid], ar[..];
    if mid + 1 > 1 {
      FullRangeRank(parted, lo, mid);
      QuickSortV1(ar, lo, mid + 1);
    } else {
      Short(ar[..], lo, 1);
    }
    ghost var half := ar[..];
    if len - mid - 1 > 1 {
      QuickSortV1(ar, lo + mid + 1, len - mid - 1);
    } else {
      Short(ar[..], lo + mid + 1, len - mid - 1);
    }
    Assemble(parted, half, ar[..], lo, mid, len, pivot);
    RearrangedTwice(before, parted, ar[..], lo, len);
  }

  lemma Short(s: seq<int>, lo: nat, len: nat)
    requires lo + len <= |s| && len <= 1
    ensures Rearranged(s, s, lo, len) && Sorted(Part(s, lo, len))
  {
  }

  lemma FullRangeRank(s: seq<int>, lo: nat, mid: nat)
    requires lo + mid < |s| && AllAtMost(Part(s, lo, mid + 1), s[lo + mid])
    ensures Rank(Part(s, lo, mid + 1)) == 0
  {
  }
}
