/** The circular doubly linked list that container/circle_cache.h embeds in its slot array, and the two
    tables that point into each other. */
module LruRing {
  import opened LruSpec

  const INVALID: nat := 0xFFFF_FFFF

  datatype HashNode = HashNode(key: nat, index: nat, raw: string)
  datatype ListNode = ListNode(key: nat, next: nat, last: nat, bucket: nat, v: nat)

  const FREE_BUCKET := HashNode(0, INVALID, "")

  // ---------------------------------------------------------------------------------------------
  // One cycle

  function After(ring: seq<nat>, i: nat): nat
    requires i < |ring|
  {
    if i + 1 == |ring| then ring[0] else ring[i + 1]
  }

  function Before(ring: seq<nat>, i: nat): nat
    requires i < |ring|
  {
    if i == 0 then ring[|ring| - 1] else ring[i - 1]
  }

  ghost predicate Distinct(s: seq<nat>) {
    forall i, j :: 0 <= i < j < |s| ==> s[i] != s[j]
  }

  /** Slot ring[i] is linked to its neighbours in the ring. */
  ghost predicate LinkedAt(l: seq<ListNode>, ring: seq<nat>, i: nat)
    requires i < |ring|
  {
    ring[i] < |l| && l[ring[i]].next == After(ring, i) && l[ring[i]].last == Before(ring, i)
  }

  /** The links of the slots in `ring` run through it once around, next and last inverse to each other. */
  ghost predicate Cycle(l: seq<ListNode>, ring: seq<nat>) {
    && ring != []
    && Distinct(ring)
    && (forall i :: 0 <= i < |ring| ==> LinkedAt(l, ring, i))
  }

  /** In a ring without duplicates a slot identifies its place. */
  lemma PlaceOf(s: seq<nat>, i: nat, j: nat)
    requires Distinct(s) && i < |s| && j < |s|
    ensures s[i] == s[j] <==> i == j
  {
  }

  function NextPlace(n: nat, i: nat): nat
    requires i < n
  {
    if i + 1 == n then 0 else i + 1
  }

  function LastPlace(n: nat, i: nat): nat
    requires i < n
  {
    if i == 0 then n - 1 else i - 1
  }

  lemma RotateAt(l: seq<ListNode>, a: nat, r: seq<nat>, i: nat)
    requires i <= |r| && LinkedAt(l, [a] + r, if i == |r| then 0 else i + 1)
    ensures LinkedAt(l, r + [a], i)
  {
    var s, t, n := [a] + r, r + [a], |r| + 1;
    var i' := if i == |r| then 0 else i + 1;
    assert t[i] == s[i'];
    assert t[NextPlace(n, i)] == s[NextPlace(n, i')];
    assert t[LastPlace(n, i)] == s[LastPlace(n, i')];
  }

  lemma Rotate(l: seq<ListNode>, a: nat, r: seq<nat>)
    requires Cycle(l, [a] + r)
    ensures Cycle(l, r + [a])
  {
    hide LinkedAt;
    var s, t := [a] + r, r + [a];
    forall i | 0 <= i < |t| ensures LinkedAt(l, t, i) {
      RotateAt(l, a, r, i);
    }
    forall i, j | 0 <= i < j < |t| ensures t[i] != t[j] {
      var j' := if j == |r| then 0 else j + 1;
      assert t[i] == s[i + 1] && t[j] == s[j'];
      PlaceOf(s, i + 1, j');
    }
  }

  /** Slot ring[j] is taken out: its neighbours are linked to each other. */
  ghost predicate Unlinked(l: seq<ListNode>, ring: seq<nat>, j: nat, l': seq<ListNode>)
    requires j < |ring|
  {
    && |l'| == |l|
    && forall s :: 0 <= s < |l| ==>
         && l'[s].next == (if s == Before(ring, j) then After(ring, j) else l[s].next)
         && l'[s].last == (if s == After(ring, j) then Before(ring, j) else l[s].last)
  }

  /** Slot x is put in before ring[j]. */
  ghost predicate Linked(l: seq<ListNode>, ring: seq<nat>, j: nat, x: nat, l': seq<ListNode>)
    requires j < |ring|
  {
    && |l'| == |l|
    && forall s :: 0 <= s < |l| ==>
         && l'[s].next == (if s == x then ring[j] else if s == Before(ring, j) then x else l[s].next)
         && l'[s].last == (if s == x then Before(ring, j) else if s == ring[j] then x else l[s].last)
  }

  function Without(ring: seq<nat>, j: nat): seq<nat>
    requires j < |ring|
  {
    ring[..j] + ring[j + 1..]
  }

  function With(ring: seq<nat>, j: nat, x: nat): seq<nat>
    requires j < |ring|
  {
    ring[..j] + [x] + ring[j..]
  }

  lemma WithoutPlaces(ring: seq<nat>, j: nat, i: nat)
    requires j < |ring| && i + 1 < |ring|
    ensures Without(ring, j)[i] == ring[if i < j then i else i + 1]
  {
  }

  lemma UnlinkAt(l: seq<ListNode>, ring: seq<nat>, j: nat, l': seq<ListNode>, i: nat)
    requires Distinct(ring) && j < |ring| && i + 1 < |ring| && Unlinked(l, ring, j, l')
    requires LinkedAt(l, ring, if i < j then i else i + 1)
    ensures LinkedAt(l', Without(ring, j), i)
  {
    var n, i' := |ring|, if i < j then i else i + 1;
    WithoutPlaces(ring, j, i);
    WithoutPlaces(ring, j, NextPlace(n - 1, i));
    WithoutPlaces(ring, j, LastPlace(n - 1, i));
    PlaceOf(ring, i', LastPlace(n, j));
    PlaceOf(ring, i', NextPlace(n, j));
  }

  lemma Unlink(l: seq<ListNode>, ring: seq<nat>, j: nat, l': seq<ListNode>)
    requires Cycle(l, ring) && 2 <= |ring| && j < |ring| && Unlinked(l, ring, j, l')
    ensures Cycle(l', Without(ring, j)) && ring[j] !in Without(ring, j)
  {
    hide LinkedAt, Unlinked;
    var r := Without(ring, j);
    forall i | 0 <= i < |r| ensures LinkedAt(l', r, i) && r[i] != ring[j] {
      UnlinkAt(l, ring, j, l', i);
      WithoutPlaces(ring, j, i);
      PlaceOf(ring, j, if i < j then i else i + 1);
    }
    forall i, k | 0 <= i < k < |r| ensures r[i] != r[k] {
      WithoutPlaces(ring, j, i);
      WithoutPlaces(ring, j, k);
      PlaceOf(ring, if i < j then i else i + 1, if k < j then k else k + 1);
    }
  }

  lemma WithPlaces(ring: seq<nat>, j: nat, x: nat, i: nat)
    requires j < |ring| && i <= |ring|
    ensures |With(ring, j, x)| == |ring| + 1
    ensures With(ring, j, x)[i] == if i == j then x else ring[if i < j then i else i - 1]
  {
  }

  lemma LinkAt(l: seq<ListNode>, ring: seq<nat>, j: nat, x: nat, l': seq<ListNode>, i: nat)
    requires Distinct(ring) && j < |ring| && i <= |ring| && x < |l| && x !in ring && Linked(l, ring, j, x, l')
    requires i != j ==> LinkedAt(l, ring, if i < j then i else i - 1)
    ensures LinkedAt(l', With(ring, j, x), i)
  {
    var n := |ring|;
    WithPlaces(ring, j, x, i);
    WithPlaces(ring, j, x, NextPlace(n + 1, i));
    WithPlaces(ring, j, x, LastPlace(n + 1, i));
    if i != j {
      var i' := if i < j then i else i - 1;
      PlaceOf(ring, i', LastPlace(n, j));
      PlaceOf(ring, i', j);
      assert ring[i'] in ring;
    }
  }

  lemma Link(l: seq<ListNode>, ring: seq<nat>, j: nat, x: nat, l': seq<ListNode>)
    requires Cycle(l, ring) && j < |ring| && x < |l| && x !in ring && Linked(l, ring, j, x, l')
    ensures Cycle(l', With(ring, j, x))
  {
    hide LinkedAt, Linked;
    var r := With(ring, j, x);
    forall i | 0 <= i < |r| ensures LinkedAt(l', r, i) {
      LinkAt(l, ring, j, x, l', i);
    }
    forall i, k | 0 <= i < k < |r| ensures r[i] != r[k] {
      WithPlaces(ring, j, x, i);
      WithPlaces(ring, j, x, k);
      if i != j && k != j {
        PlaceOf(ring, if i < j then i else i - 1, if k < j then k else k - 1);
      }
    }
  }

  // ---------------------------------------------------------------------------------------------
  // Buckets and slots

  /** Live slots and occupied buckets point at each other; every other bucket is free. */
  ghost predicate Tables(h: seq<HashNode>, l: seq<ListNode>, live: seq<nat>) {
    && Distinct(live)
    && (forall j :: 0 <= j < |live| ==>
          && live[j] < |l|
          && l[live[j]].bucket < |h|
          && l[live[j]].key != 0
          && h[l[live[j]].bucket].key == l[live[j]].key
          && h[l[live[j]].bucket].index == live[j])
    && (forall b :: 0 <= b < |h| ==>
          if h[b].key == 0 then h[b] == FREE_BUCKET
          else h[b].index in live && h[b].index < |l| && l[h[b].index].bucket == b)
  }

  function EntryOf(h: seq<HashNode>, l: seq<ListNode>, s: nat): Entry
    requires s < |l| && l[s].bucket < |h|
  {
    Entry(l[s].key, h[l[s].bucket].raw, l[s].bucket, l[s].v)
  }

  /** The live entries, least recently used first. */
  ghost function ViewOf(h: seq<HashNode>, l: seq<ListNode>, live: seq<nat>): (es: seq<Entry>)
    requires Tables(h, l, live)
    ensures |es| == |live|
    ensures forall j :: 0 <= j < |live| ==> es[j] == EntryOf(h, l, live[j])
  {
    seq(|live|, j requires 0 <= j < |live| => EntryOf(h, l, live[j]))
  }

  /** Looking a bucket up in the table finds the live entry in it. */
  lemma BucketLookup(h: seq<HashNode>, l: seq<ListNode>, live: seq<nat>, b: nat)
    requires Tables(h, l, live) && b < |h|
    ensures var es := ViewOf(h, l, live);
            var j := AtBucket(es, b);
            && (h[b].key == 0 <==> j == |es|)
            && (j < |es| ==> live[j] == h[b].index && es[j].key == h[b].key && es[j].raw == h[b].raw)
    ensures h[b].key != 0 ==> h[b].index != INVALID || INVALID < |l|
  {
    var es := ViewOf(h, l, live);
    var j := AtBucket(es, b);
    if h[b].key != 0 {
      var i :| 0 <= i < |live| && live[i] == h[b].index;
      assert es[i].bucket == b;
      if j == |es| {
        AtBucketNone(es, b);
      }
    }
  }

  /** Links are not data: relinking leaves the tables and what they show alone. */
  lemma DataFrame(h: seq<HashNode>, l: seq<ListNode>, l': seq<ListNode>, live: seq<nat>)
    requires Tables(h, l, live) && |l'| == |l|
    requires forall s :: 0 <= s < |l| ==> l'[s].key == l[s].key && l'[s].bucket == l[s].bucket && l'[s].v == l[s].v
    ensures Tables(h, l', live) && ViewOf(h, l', live) == ViewOf(h, l, live)
  {
  }

  /** Data is not links. */
  lemma LinkFrame(l: seq<ListNode>, l': seq<ListNode>, ring: seq<nat>)
    requires Cycle(l, ring) && |l'| == |l|
    requires forall s :: 0 <= s < |l| ==> l'[s].next == l[s].next && l'[s].last == l[s].last
    ensures Cycle(l', ring)
  {
    forall i | 0 <= i < |ring| ensures LinkedAt(l', ring, i) {
      assert LinkedAt(l, ring, i);
    }
  }

  /** Slot live[j] goes to the end; the others keep their order. */
  function ToEnd(live: seq<nat>, j: nat): (r: seq<nat>)
    requires j < |live|
    ensures |r| == |live|
  {
    live[..j] + live[j + 1..] + [live[j]]
  }

  function PlaceBefore(n: nat, j: nat, i: nat): nat
    requires i < n && j < n
  {
    if i < j then i else if i + 1 == n then j else i + 1
  }

  lemma ToEndAt(live: seq<nat>, j: nat, i: nat)
    requires j < |live| && i < |live|
    ensures ToEnd(live, j)[i] == live[PlaceBefore(|live|, j, i)]
  {
  }

  lemma ToEndHas(live: seq<nat>, j: nat, s: nat)
    requires j < |live| && s in live
    ensures s in ToEnd(live, j)
  {
    var i :| 0 <= i < |live| && live[i] == s;
    var i' := if i < j then i else if i == j then |live| - 1 else i - 1;
    ToEndAt(live, j, i');
  }

  lemma ToEndTables(h: seq<HashNode>, l: seq<ListNode>, live: seq<nat>, j: nat)
    requires Tables(h, l, live) && j < |live|
    ensures Tables(h, l, ToEnd(live, j))
  {
    var r := ToEnd(live, j);
    forall i, k | 0 <= i < k < |r| ensures r[i] != r[k] {
      ToEndAt(live, j, i);
      ToEndAt(live, j, k);
      PlaceOf(live, PlaceBefore(|live|, j, i), PlaceBefore(|live|, j, k));
    }
    forall i | 0 <= i < |r| ensures r[i] in live {
      ToEndAt(live, j, i);
    }
    forall b | 0 <= b < |h| && h[b].key != 0 ensures h[b].index in r {
      ToEndHas(live, j, h[b].index);
    }
    hide ToEnd;
  }

  /** The order of the live slots matters only for the order of the entries. */
  lemma Reorder(h: seq<HashNode>, l: seq<ListNode>, live: seq<nat>, j: nat)
    requires Tables(h, l, live) && j < |live|
    ensures Tables(h, l, ToEnd(live, j))
    ensures ViewOf(h, l, ToEnd(live, j)) == Refresh(ViewOf(h, l, live), j, ViewOf(h, l, live)[j])
  {
    ToEndTables(h, l, live, j);
    SlotsInRange(h, l, live);
    SlotsInRange(h, l, ToEnd(live, j));
    hide Tables, ToEnd;
    var es, fs := ViewOf(h, l, live), ViewOf(h, l, ToEnd(live, j));
    forall i | 0 <= i < |es| ensures fs[i] == Refresh(es, j, es[j])[i] {
      ToEndAt(live, j, i);
      assert fs[i] == es[PlaceBefore(|live|, j, i)];
    }
    assert fs == Refresh(es, j, es[j]);
  }

  lemma SlotsInRange(h: seq<HashNode>, l: seq<ListNode>, live: seq<nat>)
    requires Tables(h, l, live)
    ensures forall j :: 0 <= j < |live| ==> live[j] < |l| && l[live[j]].bucket < |h|
  {
  }

  /** Overwriting the value of a live entry. */
  lemma Overwrite(h: seq<HashNode>, l: seq<ListNode>, live: seq<nat>, j: nat, v: nat)
    requires Tables(h, l, live) && j < |live|
    ensures var l' := l[live[j] := l[live[j]].(v := v)];
            && Tables(h, l', live)
            && ViewOf(h, l', live) == ViewOf(h, l, live)[j := ViewOf(h, l, live)[j].(v := v)]
  {
  }

  /** A free slot and a free bucket become an entry. */
  lemma Occupy(h: seq<HashNode>, l: seq<ListNode>, live: seq<nat>, s: nat, b: nat, k: nat, raw: string, v: nat)
    requires Tables(h, l, live) && s < |l| && s !in live && b < |h| && h[b].key == 0 && k != 0
    ensures var h', l' := h[b := HashNode(k, s, raw)], l[s := l[s].(key := k, v := v, bucket := b)];
            && Tables(h', l', live + [s])
            && ViewOf(h', l', live + [s]) == ViewOf(h, l, live) + [Entry(k, raw, b, v)]
  {
    var h', l' := h[b := HashNode(k, s, raw)], l[s := l[s].(key := k, v := v, bucket := b)];
    var live' := live + [s];
    forall j | 0 <= j < |live|
      ensures live'[j] == live[j] && l'[live[j]] == l[live[j]] && h'[l[live[j]].bucket] == h[l[live[j]].bucket]
    {
      assert live[j] in live;
    }
    assert live'[|live|] == s;
    assert Distinct(live');
    assert Tables(h', l', live');
    assert ViewOf(h', l', live') == ViewOf(h, l, live) + [Entry(k, raw, b, v)];
  }

  function Cleared(h: seq<HashNode>, l: seq<ListNode>, s: nat): (seq<HashNode>, seq<ListNode>)
    requires s < |l| && l[s].bucket < |h|
  {
    (h[l[s].bucket := FREE_BUCKET], l[s := l[s].(key := 0, v := 0)])
  }

  /** A live slot other than the first keeps its data and its bucket. */
  lemma EvictSlot(h: seq<HashNode>, l: seq<ListNode>, live: seq<nat>, j: nat)
    requires Tables(h, l, live) && 0 < j < |live|
    ensures var t, s := live[0], live[j];
            && t < |l| && l[t].bucket < |h| && s < |l| && l[s].bucket < |h|
            && (var (h', l') := Cleared(h, l, t); l'[s] == l[s] && h'[l[s].bucket] == h[l[s].bucket])
  {
    assert live[j] != live[0];
    assert h[l[live[0]].bucket].index == live[0] && h[l[live[j]].bucket].index == live[j];
  }

  /** A bucket still in use names a live slot other than the first. */
  lemma EvictBucket(h: seq<HashNode>, l: seq<ListNode>, live: seq<nat>, b: nat)
    requires Tables(h, l, live) && live != [] && b < |h|
    ensures var t := live[0];
            && t < |l| && l[t].bucket < |h|
            && (var (h', l') := Cleared(h, l, t);
                if h'[b].key == 0 then h'[b] == FREE_BUCKET
                else h'[b] == h[b] && h[b].index in live[1..] && h[b].index < |l| && l'[h[b].index].bucket == b)
  {
    var t := live[0];
    assert t < |l| && l[t].bucket < |h|;
    if b != l[t].bucket && h[b].key != 0 {
      assert h[b].index in live && l[h[b].index].bucket == b;
      var i :| 0 <= i < |live| && live[i] == h[b].index;
      assert live[1..][i - 1] == h[b].index;
    }
  }

  /** The least recently used entry is dropped and its bucket freed. */
  lemma Evict(h: seq<HashNode>, l: seq<ListNode>, live: seq<nat>)
    requires Tables(h, l, live) && live != []
    ensures var t := live[0];
            var h', l' := h[l[t].bucket := FREE_BUCKET], l[t := l[t].(key := 0, v := 0)];
            && Tables(h', l', live[1..])
            && ViewOf(h', l', live[1..]) == ViewOf(h, l, live)[1..]
  {
    var t, live' := live[0], live[1..];
    assert t < |l| && l[t].bucket < |h|;
    var (h', l') := Cleared(h, l, t);
    assert Distinct(live') by {
      hide Tables;
    }
    forall j | 0 <= j < |live'|
      ensures live'[j] == live[j + 1] && live'[j] < |l| && l[live'[j]].bucket < |h|
      ensures l'[live'[j]] == l[live'[j]] && h'[l[live'[j]].bucket] == h[l[live'[j]].bucket]
    {
      EvictSlot(h, l, live, j + 1);
    }
    EvictTables(h, l, live);
    hide Tables, Distinct;
    assert ViewOf(h', l', live') == ViewOf(h, l, live)[1..];
  }

  lemma EvictTables(h: seq<HashNode>, l: seq<ListNode>, live: seq<nat>)
    requires Tables(h, l, live) && live != []
    ensures live[0] < |l| && l[live[0]].bucket < |h|
    ensures var (h', l') := Cleared(h, l, live[0]); Tables(h', l', live[1..])
  {
    var live' := live[1..];
    assert live[0] < |l| && l[live[0]].bucket < |h|;
    var (h', l') := Cleared(h, l, live[0]);
    forall j | 0 <= j < |live'|
      ensures live'[j] == live[j + 1]
      ensures live'[j] < |l| && l[live'[j]].bucket < |h|
      ensures l'[live'[j]] == l[live'[j]] && h'[l[live'[j]].bucket] == h[l[live'[j]].bucket]
    {
      EvictSlot(h, l, live, j + 1);
    }
    forall b | 0 <= b < |h'|
      ensures if h'[b].key == 0 then h'[b] == FREE_BUCKET
              else h'[b].index in live' && h'[b].index < |l'| && l'[h'[b].index].bucket == b
    {
      EvictBucket(h, l, live, b);
    }
    hide Cleared;
  }
}
