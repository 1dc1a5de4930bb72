/** container/sequence_recorder.h: the last LEN values of a sequence, in a circular buffer. */
module SequenceRecorder {
  const INT_MAX: int := 0x7FFF_FFFF

  /** n in a 32-bit int.  Going beyond INT_MAX is undefined in C++; this assumes that the int wraps around to
      -INT_MAX - 1, as it does on x86. */
  function Wrapped(n: int): int {
    (n + INT_MAX + 1) % 0x1_0000_0000 - INT_MAX - 1
  }

  lemma WrappedFacts(n: nat)
    ensures Wrapped(n) <= n && (n <= INT_MAX ==> Wrapped(n) == n)
    ensures Wrapped(Wrapped(n) + 1) == Wrapped(n + 1)
  {
  }

  lemma WrappedNegative(n: nat)
    requires n % 0x1_0000_0000 > INT_MAX
    ensures Wrapped(n) < 0 && n > 0
  {
  }

  /** The last n values of a history, or all of it. */
  function Window(hist: seq<int>, n: nat): seq<int> {
    if |hist| <= n then hist else hist[|hist| - n..]
  }

  function Total(s: seq<int>): int {
    if s == [] then 0 else Total(s[..|s| - 1]) + s[|s| - 1]
  }

  function Occurrences(s: seq<int>, e: int): nat {
    multiset(s)[e]
  }

  /** An append slides the window by one. */
  lemma WindowSlides(hist: seq<int>, x: int, n: nat)
    requires n > 0
    ensures Window(hist + [x], n) == (if |hist| < n then Window(hist, n) else Window(hist, n)[1..]) + [x]
  {
  }

  function Slot(beg: nat, k: nat, n: nat): (slot: nat)
    requires n > 0
    ensures slot < n
  {
    (beg + k) % n
  }

  lemma SubtractOnce(x: nat, n: nat)
    requires n <= x < 2 * n
    ensures x % n == x - n
  {
    assert x == x / n * n + x % n;
  }

  lemma SmallMod(x: nat, n: nat)
    requires x < n
    ensures x % n == x
  {
  }

  lemma SlotIs(beg: nat, k: nat, n: nat)
    requires beg < n && k <= n
    ensures Slot(beg, k, n) == if beg + k < n then beg + k else beg + k - n
  {
    SlotIsMod(beg, k, n);
    hide Slot;
    if beg + k >= n {
      SubtractOnce(beg + k, n);
    } else {
      SmallMod(beg + k, n);
    }
  }

  lemma SlotIsMod(beg: nat, k: nat, n: nat)
    requires n > 0
    ensures Slot(beg, k, n) == (beg + k) % n
  {
  }

  lemma NextSlot(beg: nat, k: nat, n: nat)
    requires beg < n && k < n
    ensures Slot(Slot(beg, k, n), 1, n) == Slot(beg, k + 1, n)
    ensures Slot(beg, k + 1, n) == beg <==> k + 1 == n
    ensures Slot(Slot(beg, 1, n), k, n) == Slot(beg, k + 1, n)
  {
    SlotIs(beg, k, n);
    SlotIs(Slot(beg, k, n), 1, n);
    SlotIs(beg, k + 1, n);
    SlotIs(beg, 1, n);
    SlotIs(Slot(beg, 1, n), k, n);
    hide Slot;
  }

  /** From beg on, going round, the buffer holds w. */
  ghost predicate Shows(buf: seq<int>, beg: nat, w: seq<int>) {
    beg < |buf| && |w| <= |buf| && forall k :: 0 <= k < |w| ==> buf[Slot(beg, k, |buf|)] == w[k]
  }

  lemma Grows(buf: seq<int>, beg: nat, w: seq<int>, x: int)
    requires Shows(buf, beg, w) && |w| < |buf|
    ensures Shows(buf[Slot(beg, |w|, |buf|) := x], beg, w + [x])
  {
    var buf' := buf[Slot(beg, |w|, |buf|) := x];
    SlotIs(beg, |w|, |buf|);
    forall k | 0 <= k < |w| ensures buf'[Slot(beg, k, |buf|)] == w[k] {
      SlotIs(beg, k, |buf|);
      hide Slot;
    }
    hide Slot;
  }

  lemma Slides(buf: seq<int>, beg: nat, w: seq<int>, x: int)
    requires Shows(buf, beg, w) && |w| == |buf|
    ensures Shows(buf[beg := x], Slot(beg, 1, |buf|), w[1..] + [x])
  {
    var buf', beg', n := buf[beg := x], Slot(beg, 1, |buf|), |buf|;
    forall k | 0 <= k < n ensures buf'[Slot(beg', k, n)] == (w[1..] + [x])[k] {
      NextSlot(beg, k, n);
      hide Slot;
    }
    hide Slot;
  }

  /** What append does to the two indices and the buffer slides the window by one. */
  lemma Appended(buf: seq<int>, beg: nat, cur: nat, w: seq<int>, x: int)
    requires Shows(buf, beg, w) && cur == if w == [] then beg else Slot(beg, |w| - 1, |buf|)
    ensures var n := |buf|;
            var cur' := if w == [] then cur else (cur + 1) % n;
            var beg' := if w != [] && beg == cur' then (beg + 1) % n else beg;
            var w' := (if |w| < n then w else w[1..]) + [x];
            cur' < n && Shows(buf[cur' := x], beg', w') && cur' == Slot(beg', |w'| - 1, n)
  {
    var n := |buf|;
    SlotIs(beg, 0, n);
    SlotIsMod(cur, 1, n);
    SlotIsMod(beg, 1, n);
    NextSlot(beg, n - 1, n);
    if w != [] {
      NextSlot(beg, |w| - 1, n);
    }
    if |w| < n {
      Grows(buf, beg, w, x);
    } else {
      Slides(buf, beg, w, x);
    }
    hide Slot;
  }

  lemma WindowSize(hist: seq<int>, n: nat)
    ensures |Window(hist, n)| == if |hist| < n then |hist| else n
  {
  }

  class SequenceRecorder {
    const buf: array<int>
    var beg: nat
    var cur: nat
    var len: int
    var started: bool
    ghost var hist: seq<int>  // the values appended since the last clear

    /** From beg round to cur the buffer holds the last LEN values appended. */
    ghost predicate Valid()
      reads this, buf
    {
      && buf.Length > 0
      && len == Wrapped(|hist|) && (started <==> hist != [])
      && Shows(buf[..], beg, Window(hist, buf.Length))
      && cur == if started then Slot(beg, |Window(hist, buf.Length)| - 1, buf.Length) else beg
    }

    constructor (LEN: nat)
      requires LEN >= 1
      ensures Valid() && hist == [] && buf.Length == LEN && fresh(buf)
    {
      buf := new int[LEN];
      beg, cur, len, started := 0, 0, 0, false;
      hist := [];
    }

    method Append(x: int)
      requires Valid()
      modifies this, buf
      ensures Valid() && hist == old(hist) + [x]
    {
      hide Slot, Shows, Window;
      ghost var slots := buf[..];
      WindowSlides(hist, x, buf.Length);
      WindowSize(hist, buf.Length);
      Appended(slots, beg, cur, Window(hist, buf.Length), x);
      if started {
        cur := (cur + 1) % buf.Length;
        buf[cur] := x;
        if beg == cur {
          beg := (beg + 1) % buf.Length;
        }
      } else {
        buf[cur] := x;
        started := true;
      }
      assert buf[..] == slots[cur := x];
      WrappedFacts(|hist|);
      len := Wrapped(len + 1);
      hist := hist + [x];
    }

    method Clear()
      requires Valid()
      modifies this
      ensures Valid() && hist == []
    {
      beg := cur;
      len := 0;
      started := false;
      hist := [];
    }

    lemma Holds(k: nat)
      requires Valid() && k < |Window(hist, buf.Length)|
      ensures buf[(beg + k) % buf.Length] == Window(hist, buf.Length)[k]
    {
      assert buf[..][Slot(beg, k, buf.Length)] == Window(hist, buf.Length)[k];
    }

    /** get_len: the size of the window until _len has wrapped around, and exactly as long as it does not
        fall below that size. */
    function Len(): (n: int)
      reads this, buf
      requires Valid()
      ensures n <= |Window(hist, buf.Length)|
      ensures n == |Window(hist, buf.Length)| <==> Wrapped(|hist|) >= |Window(hist, buf.Length)|
      ensures |hist| <= INT_MAX ==> n == |Window(hist, buf.Length)|
    {
      WrappedFacts(|hist|);
      if len >= buf.Length then buf.Length else len
    }

    /** The part of the window that get_len lets the getters see. */
    ghost function Seen(): (w: seq<int>)
      reads this, buf
      requires Valid()
      ensures w == Window(hist, buf.Length) <==> Wrapped(|hist|) >= |Window(hist, buf.Length)|
      ensures |hist| <= INT_MAX ==> w == Window(hist, buf.Length)
    {
      Window(hist, buf.Length)[..if Len() < 0 then 0 else Len()]
    }

    /** From 2^31 appends on, until the count has wrapped all the way round, the getters see nothing. */
    lemma NothingSeen()
      requires Valid() && |hist| % 0x1_0000_0000 > INT_MAX
      ensures Len() < 0 && Seen() == [] && Window(hist, buf.Length) != []
    {
      WrappedNegative(|hist|);
      WindowSize(hist, buf.Length);
      hide Wrapped, Window, Shows;
    }

    /** out receives the oldest values first, as many as fit in the n slots offered. */
    method GetEvery(out: array<int>, n: int) returns (r: int)
      requires Valid() && n <= out.Length && out != buf
      modifies out
      ensures Valid() && r == Len()
      ensures forall k :: 0 <= k < out.Length ==> out[k] == if k < n && k < |Seen()| then Seen()[k] else old(out[k])
    {
      hide Slot, Shows, Window, Wrapped;
      ghost var w := Seen();
      var i, j := 0, beg;
      while i < n && i < Len()
        invariant 0 <= i <= |w| && (i <= n || i == 0) && j == beg + i && Valid() && w == Seen()
        invariant forall k :: 0 <= k < out.Length ==> out[k] == if k < i then w[k] else old(out[k])
      {
        Holds(i);
        out[i] := buf[j % buf.Length];
        i, j := i + 1, j + 1;
      }
      return Len();
    }

    method GetSum() returns (sum: int)
      requires Valid()
      ensures sum == Total(Seen())
    {
      hide Slot, Shows, Window, Wrapped;
      ghost var w := Seen();
      sum := 0;
      var i, j := 0, beg;
      while i < Len()
        invariant 0 <= i <= |w| && j == beg + i && sum == Total(w[..i])
      {
        Holds(i);
        assert w[..i + 1][..i] == w[..i];
        sum := sum + buf[j % buf.Length];
        i, j := i + 1, j + 1;
      }
      assert w[..|w|] == w;
    }

    method GetCount(e: int) returns (count: nat)
      requires Valid()
      ensures count == Occurrences(Seen(), e)
    {
      hide Slot, Shows, Window, Wrapped;
      ghost var w := Seen();
      count := 0;
      var i, j := 0, beg;
      while i < Len()
        invariant 0 <= i <= |w| && j == beg + i && count == Occurrences(w[..i], e)
      {
        Holds(i);
        assert w[..i + 1] == w[..i] + [w[i]];
        if e == buf[j % buf.Length] {
          count := count + 1;
        }
        i, j := i + 1, j + 1;
      }
      assert w[..|w|] == w;
    }
  }
}
