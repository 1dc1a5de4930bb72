/** container/circle_cache.h: LruCache on its two arrays, with overwriting puts. */
module LruCache {
  import opened LruRing
  import opened Probing
  import S = LruSpec

  const MAX_CAPACITY: nat := 0x7FFF  // the table stays within 2^16 buckets, where the offset cast is exact

  class LruCache {
    var hash: array<HashNode>
    var list: array<ListNode>
    var head: nat        // the slot to use next
    var tail: nat        // the least recently used slot
    var hashSize: nat
    var capacity: nat
    var maxProbing: nat

    ghost var live: seq<nat>                           // live slots, least recently used first
    ghost var free: seq<nat>                           // the other slots, in link order from head
    ghost var latest: map<(nat, string), nat>          // the most recent successful put of each pair

    ghost function Cfg(): S.Config
      reads this
    {
      S.Config(capacity, hashSize, maxProbing, Probes(hashSize))
    }

    ghost predicate Shaped()
      reads this, hash, list
    {
      && hash.Length == hashSize && list.Length == capacity <= MAX_CAPACITY
      && hashSize <= 0x1_0000
      && S.ConfigOk(Cfg())
      && RingOk(hash[..], list[..], live, free, head, tail)
    }

    /** The live entries, least recently used first. */
    ghost function View(): seq<S.Entry>
      reads this, hash, list
      requires Shaped()
    {
      ViewOf(hash[..], list[..], live)
    }

    ghost predicate Valid()
      reads this, hash, list
    {
      Shaped() && S.Inv(Cfg(), View(), latest)
    }

    /** Floor of the base-two logarithm. */
    static method GetBitPos(v: nat) returns (r: nat)
      requires 0 < v
      ensures Pow2(r) <= v < Pow2(r + 1)
    {
      r := 0;
      var w := v;
      while w / 2 > 0
        invariant 0 < w && w * Pow2(r) <= v < (w + 1) * Pow2(r)
      {
        PowStep(v, w, r);
        w := w / 2;
        r := r + 1;
      }
    }

    constructor Init(cap: nat, probes: nat)
      requires 2 <= cap <= MAX_CAPACITY
      ensures Valid() && fresh(hash) && fresh(list)
      ensures View() == [] && latest == map[]
      ensures capacity == cap && maxProbing == probes
      ensures IsPow2(hashSize) && cap * 2 < hashSize <= cap * 4
    {
      maxProbing := probes;
      var pos := GetBitPos(cap * 2);
      var size := Pow2(pos + 1);
      Pow2Laws(pos + 1);
      TableBound(cap * 2, pos);
      assert size == 2 * Pow2(pos) <= 2 * (cap * 2);
      TriangularIsOnePass(size);
      hashSize := size;
      hash := new HashNode[size](_ => FREE_BUCKET);
      capacity := cap;
      list := new ListNode[cap](_ => ListNode(0, INVALID, INVALID, INVALID, 0));
      head := 0;
      tail := 0;
      live := [];
      free := seq(cap, i => i);
      latest := map[];
      new;
      MakeRing(list, free);
      assert live + free == free;
      assert View() == [];
    }

    /** quadratic_probing */
    function QuadraticProbing(key: nat, i: nat): nat
      reads this
      requires 0 < hashSize
    {
      Probe(hashSize, key, i)
    }

    lemma InTable(key: nat, i: nat)
      requires Shaped()
      ensures QuadraticProbing(key, i) == S.Bucket(Cfg(), key, i) < hashSize
    {
    }

    /** get_probing_bucket: the bucket where the pair is found first, INVALID if probing does not find it. */
    method GetProbingBucket(key: nat, raw: string) returns (p: nat)
      requires Shaped() && key != 0
      ensures var i := S.GetScan(Cfg(), View(), key, raw, 0);
              if i == S.Limit(Cfg()) then p == INVALID else p == S.Bucket(Cfg(), key, i) < hashSize
    {
      hide Cycle, Tables, LinkedAt, OnePass, Probes, Probe, S.AtBucket;
      var i := 0;
      while i < hashSize && i < maxProbing
        invariant i <= S.Limit(Cfg())
        invariant S.GetScan(Cfg(), View(), key, raw, 0) == S.GetScan(Cfg(), View(), key, raw, i)
      {
        InTable(key, i);
        p := QuadraticProbing(key, i);
        BucketLookup(hash[..], list[..], live, p);
        if hash[p].key == key && hash[p].raw == raw {
          return p;
        }
        i := i + 1;
      }
      return INVALID;
    }

    /** put_probing_bucket: the first bucket that is free or holds the pair, INVALID if there is none. */
    method PutProbingBucket(key: nat, raw: string) returns (p: nat)
      requires Shaped() && key != 0
      ensures var i := S.PutScan(Cfg(), View(), key, raw, 0);
              if i == S.Limit(Cfg()) then p == INVALID else p == S.Bucket(Cfg(), key, i) < hashSize
      ensures p == INVALID <==> NoRoom(hash[..], maxProbing, key, raw)
    {
      NoRoomIff(Cfg(), hash[..], list[..], live, key, raw);
      hide Cycle, Tables, LinkedAt, OnePass, Probes, Probe, NoRoom, S.AtBucket;
      var i := 0;
      while i < hashSize && i < maxProbing
        invariant i <= S.Limit(Cfg())
        invariant S.PutScan(Cfg(), View(), key, raw, 0) == S.PutScan(Cfg(), View(), key, raw, i)
      {
        InTable(key, i);
        p := QuadraticProbing(key, i);
        BucketLookup(hash[..], list[..], live, p);
        if hash[p].key == 0 {
          return p;
        }
        if hash[p].key == key && hash[p].raw == raw {
          return p;
        }
        i := i + 1;
      }
      return INVALID;
    }

    /** First half of read_adjust: the slot is taken out of the circle. */
    method DeleteSlot(index: nat)
      requires LinksInRange(list[..], index)
      modifies list
      ensures list[..] == Detach(old(list[..]), index)
    {
      list[list[index].last] := list[list[index].last].(next := list[index].next);
      list[list[index].next] := list[list[index].next].(last := list[index].last);
    }

    /** Second half of read_adjust: the slot is put in before head, and tail steps over it. */
    method InsertBeforeHead(index: nat)
      requires LinksInRange(list[..], head) && index < list.Length && list[head].last != index && head != index
      modifies this`tail, list
      ensures list[..] == Attach(old(list[..]), head, index)
      ensures tail == if old(tail) == index && head != old(list[index].next) then old(list[index].next) else old(tail)
    {
      list[list[head].last] := list[list[head].last].(next := index);
      list[index] := list[index].(last := list[head].last);
      if tail == index && head != list[index].next {
        tail := list[index].next;
      }
      list[index] := list[index].(next := head);
      list[head] := list[head].(last := index);
    }

    /** A live slot moves to the recent end, through every aliasing of its neighbours, head and tail. */
    method ReadAdjust(index: nat, ghost j: nat)
      requires free != [] && |live| + |free| == list.Length && 2 <= list.Length
      requires head == free[0] && tail == (live + free)[0]
      requires Cycle(list[..], live + free)
      requires j < |live| && live[j] == index
      modifies this`tail, list
      ensures var live' := Without(live, j) + [index];
              Cycle(list[..], live' + free) && tail == (live' + free)[0]
      ensures SameData(old(list[..]), list[..])
    {
      hide Cycle, Detach, Attach;
      ghost var l0 := list[..];
      RelinkFacts(l0, live, free, j);
      DeleteSlot(index);
      InsertBeforeHead(index);
      RelinkData(l0, index, head);
    }

    /** The slot just written joins the live ones; a full circle gives up its tail. */
    method WriteAdjust()
      requires head < list.Length && tail < list.Length
      requires tail == list[head].next ==> list[tail].bucket < hash.Length
      modifies this`head, this`tail, hash, list
      ensures if old(tail == list[head].next)
              then head == old(tail) && tail == old(list[tail].next)
                   && list[..] == old(list[..])[old(tail) := old(list[tail]).(key := 0, v := 0)]
                   && hash[..] == old(hash[..])[old(list[tail]).bucket := FREE_BUCKET]
              else head == old(list[head].next) && tail == old(tail)
                   && list[..] == old(list[..]) && hash[..] == old(hash[..])
    {
      if tail == list[head].next {
        list[tail] := list[tail].(key := 0);
        list[tail] := list[tail].(v := 0);
        var tailBucket := list[tail].bucket;
        hash[tailBucket] := hash[tailBucket].(key := 0);
        hash[tailBucket] := hash[tailBucket].(index := INVALID);
        hash[tailBucket] := hash[tailBucket].(raw := "");
        head := tail;
        tail := list[tail].next;
      } else {
        head := list[head].next;
      }
    }

    /** The writes of put: the bucket and the slot it names, a reused slot or the one at head. */
    method WriteEntry(bucket: nat, k: nat, raw: string, v: nat) returns (index: nat)
      requires bucket < hash.Length && head < list.Length
      requires hash[bucket].index != INVALID ==> hash[bucket].index < list.Length
      modifies hash, list
      ensures index == if old(hash[bucket].index) != INVALID && old(list[hash[bucket].index].key) == k
                       then old(hash[bucket].index) else head
      ensures hash[..] == old(hash[..])[bucket := HashNode(k, index, raw)]
      ensures list[..] == Filled(old(list[..]), index, k, v, bucket)
    {
      index := 0;
      hash[bucket] := hash[bucket].(key := k);
      hash[bucket] := hash[bucket].(raw := raw);
      if hash[bucket].index != INVALID && list[hash[bucket].index].key == k {
        index := hash[bucket].index;
      } else {
        index := head;
      }
      hash[bucket] := hash[bucket].(index := index);
      list[index] := list[index].(key := k);
      list[index] := list[index].(v := v);
      list[index] := list[index].(bucket := bucket);
    }

    /** write_adjust after a new entry, with the ghost view brought up to date. */
    method AdjustNew(ghost es: seq<S.Entry>, ghost e: S.Entry)
      requires free != [] && |live| + |free| == list.Length && 2 <= list.Length <= MAX_CAPACITY
      requires list.Length == capacity && hash.Length == hashSize <= 0x1_0000 && S.ConfigOk(Cfg())
      requires head == free[0] && tail == (live + free)[0]
      requires Cycle(list[..], live + free) && Tables(hash[..], list[..], live + [head])
      requires ViewOf(hash[..], list[..], live + [head]) == es + [e] && |es| == |live|
      modifies this`head, this`tail, this`live, this`free, hash, list
      ensures Shaped() && View() == S.Admit(Cfg(), es, e)
    {
      ghost var c, h, l := Cfg(), hash[..], list[..];
      NextOfHead(l, live, free);
      if |free| == 1 {
        assert live + free == live + [head];
        FullAdmits(c, h, l, live, head, tail, es, e);
      } else {
        RoomAdmits(c, h, l, live, free, head, tail, es, e);
      }
      hide Cycle, Tables, RingOk, S.Admit, S.Inv, S.ConfigOk;
      WriteAdjust();
      if |free| == 1 {
        live, free := live[1..] + [free[0]], [live[0]];
      } else {
        live, free := live + [free[0]], free[1..];
      }
    }

    /** read_adjust after an entry got a new value, with the ghost view brought up to date. */
    method AdjustOld(index: nat, ghost j: nat, ghost l0: seq<ListNode>, ghost v: nat)
      requires free != [] && |live| + |free| == list.Length && 2 <= list.Length <= MAX_CAPACITY
      requires list.Length == capacity && hash.Length == hashSize <= 0x1_0000 && S.ConfigOk(Cfg())
      requires head == free[0] && tail == (live + free)[0]
      requires Cycle(list[..], live + free) && Tables(hash[..], l0, live)
      requires j < |live| && live[j] == index < |l0| && list[..] == l0[index := l0[index].(v := v)]
      modifies this`tail, this`live, list
      ensures Shaped()
      ensures var es := ViewOf(hash[..], l0, old(live));
              View() == S.Refresh(es, j, es[j].(v := v))
    {
      hide Cycle, Tables, S.Inv;
      ReadAdjust(index, j);
      RefreshedFacts(hash[..], l0, live, j, v, list[..]);
      live := Without(live, j) + [index];
    }

    /** The rest of put, once a bucket has been found: the writes, and the adjustment that index == head or not
        calls for. */
    method PutEntry(bucket: nat, k: nat, raw: string, v: nat)
      requires Shaped() && k != 0 && S.PutOk(Cfg(), View(), k, raw)
      requires bucket == S.Bucket(Cfg(), k, S.PutScan(Cfg(), View(), k, raw, 0)) < hashSize
      modifies this`head, this`tail, this`live, this`free, hash, list
      ensures Shaped() && Cfg() == old(Cfg()) && View() == S.Put(Cfg(), old(View()), k, raw, v)
    {
      ghost var c, es, h0, l0 := Cfg(), View(), hash[..], list[..];
      assert 0 < c.size && 2 <= list.Length;
      if h0[bucket].key == 0 {
        InsertFacts(c, h0, l0, live, free, head, tail, bucket, k, raw, v);
      } else {
        OverwriteFacts(c, h0, l0, live, free, head, tail, bucket, k, raw, v);
      }
      hide Cycle, Tables, S.Put, S.Admit, S.Refresh, S.AtBucket, S.ConfigOk, S.PutOk, S.PutScan, Probes, Filled, RingOk;
      var index := WriteEntry(bucket, k, raw, v);
      if index == head {
        AdjustNew(es, S.Entry(k, raw, bucket, v));
      } else {
        AdjustOld(index, S.AtBucket(es, bucket), l0, v);
      }
    }

    /** put: -1 and nothing changed if no probed bucket can take the pair; otherwise the pair is the most
        recently used entry, in the bucket where probing stopped. */
    method Put(k: nat, v: nat, raw: string) returns (rc: int)
      requires Valid() && k != 0
      modifies this`head, this`tail, this`live, this`free, this`latest, hash, list
      ensures Valid() && Cfg() == old(Cfg())
      ensures rc == if S.PutOk(Cfg(), old(View()), k, raw) then 0 else -1
      ensures rc == -1 <==> NoRoom(old(hash[..]), maxProbing, k, raw)
      ensures View() == S.Put(Cfg(), old(View()), k, raw, v)
      ensures latest == if rc == 0 then old(latest)[(k, raw) := v] else old(latest)
    {
      hide S.Inv, S.Put, S.PutScan, Probes, OnePass, Cycle, Tables;
      ghost var c, es := Cfg(), View();
      S.PutKeepsInv(c, es, latest, k, raw, v);
      var bucket := PutProbingBucket(k, raw);
      if bucket == INVALID || bucket >= hashSize {
        PutFails(c, es, k, raw, v);
        return -1;
      }
      PutEntry(bucket, k, raw, v);
      latest := latest[(k, raw) := v];
      return 0;
    }

    /** get: the value of the most recent successful put of the pair if it is cached, and then the entry is
        the most recently used; otherwise null, and nothing changed. */
    method Get(k: nat, raw: string) returns (v: nat)
      requires Valid() && k != 0
      modifies this`tail, this`live, list
      ensures Valid() && Cfg() == old(Cfg())
      ensures View() == S.Get(Cfg(), old(View()), k, raw).0
      ensures if exists j :: 0 <= j < |old(View())| && S.Is(old(View())[j], k, raw)
              then (k, raw) in latest && v == latest[(k, raw)]
              else v == 0 && View() == old(View())
    {
      hide Cycle, Tables, S.Inv, LinkedAt, S.AtBucket, OnePass, Probes;
      ghost var es, h0, l0 := View(), hash[..], list[..];
      S.GetKeepsInv(Cfg(), es, latest, k, raw);
      var bucket := GetProbingBucket(k, raw);
      if bucket == INVALID || bucket >= hashSize {
        return 0;
      }
      BucketLookup(h0, l0, live, bucket);
      ghost var j := S.AtBucket(es, bucket);
      SlotInRange(h0, l0, live, j);
      v := list[hash[bucket].index].v;
      AdjustOld(hash[bucket].index, j, l0, v);
    }
  }

  /** The bucket of probe i belongs to another pair. */
  predicate TakenAt(h: seq<HashNode>, key: nat, raw: string, i: nat)
    requires 0 < |h|
  {
    var b := Probe(|h|, key, i);
    h[b].key != 0 && !(h[b].key == key && h[b].raw == raw)
  }

  /** Every bucket that may be probed, within the table size and max_probing, belongs to another pair. */
  ghost predicate NoRoom(h: seq<HashNode>, probes: nat, key: nat, raw: string)
    requires 0 < |h|
  {
    forall i :: 0 <= i < |h| && i < probes ==> TakenAt(h, key, raw, i)
  }

  lemma TakenIff(c: S.Config, h: seq<HashNode>, l: seq<ListNode>, live: seq<nat>, key: nat, raw: string, i: nat)
    requires Tables(h, l, live) && 0 < |h| && c.size == |h| && c.probe == Probes(|h|)
    ensures TakenAt(h, key, raw, i) <==>
            !S.EmptyAt(c, ViewOf(h, l, live), key, i) && !S.MatchAt(c, ViewOf(h, l, live), key, raw, i)
  {
    hide S.AtBucket, Tables, Probe, ViewOf;
    BucketLookup(h, l, live, Probe(|h|, key, i));
  }

  /** put finds no room on the list of entries exactly when it finds none in the table. */
  lemma NoRoomIff(c: S.Config, h: seq<HashNode>, l: seq<ListNode>, live: seq<nat>, key: nat, raw: string)
    requires Tables(h, l, live) && 0 < |h| && c.size == |h| && c.probe == Probes(|h|)
    ensures NoRoom(h, c.maxProbing, key, raw) <==> !S.PutOk(c, ViewOf(h, l, live), key, raw)
  {
    hide TakenAt, S.EmptyAt, S.MatchAt, Tables, ViewOf;
    forall i: nat | i < |h|
      ensures TakenAt(h, key, raw, i)
              <==> !S.EmptyAt(c, ViewOf(h, l, live), key, i) && !S.MatchAt(c, ViewOf(h, l, live), key, raw, i)
    {
      TakenIff(c, h, l, live, key, raw, i);
    }
  }

  lemma NextOfHead(l: seq<ListNode>, live: seq<nat>, free: seq<nat>)
    requires Cycle(l, live + free) && free != [] && |live| + |free| >= 2
    ensures free[0] < |l| && (live + free)[0] < |l|
    ensures l[free[0]].next == if |free| == 1 then (live + free)[0] else free[1]
    ensures |free| > 1 ==> free[1] != (live + free)[0]
    ensures l[(live + free)[0]].next == (live + free)[1]
  {
    hide LinkedAt;
    var ring := live + free;
    SlotOf(l, ring, |live|);
    SlotOf(l, ring, 0);
    assert ring[|live|] == free[0];
    if |free| > 1 {
      PlaceOf(ring, 0, |live| + 1);
    }
  }

  lemma HeadIsFree(h: seq<HashNode>, l: seq<ListNode>, live: seq<nat>, free: seq<nat>, head: nat, tail: nat)
    requires RingOk(h, l, live, free, head, tail)
    ensures head < |l| && head !in live
  {
    SlotOf(l, live + free, |live|);
    assert (live + free)[|live|] == head;
    forall i | 0 <= i < |live| ensures live[i] != head {
      PlaceOf(live + free, i, |live|);
    }
  }

  lemma SlotInRange(h: seq<HashNode>, l: seq<ListNode>, live: seq<nat>, j: nat)
    requires Tables(h, l, live) && j < |live|
    ensures live[j] < |l| && l[live[j]].bucket < |h| && live[j] == h[l[live[j]].bucket].index
  {
  }

  lemma BucketIndex(h: seq<HashNode>, l: seq<ListNode>, live: seq<nat>, b: nat)
    requires Tables(h, l, live) && b < |h| && |l| <= MAX_CAPACITY
    ensures if h[b].key == 0 then h[b].index == INVALID
            else h[b].index < |l| && h[b].index != INVALID && h[b].index in live && l[h[b].index].key == h[b].key
  {
  }

  /** The bucket where put stops is empty or holds the pair. */
  lemma PutStops(c: S.Config, es: seq<S.Entry>, k: nat, raw: string)
    requires 0 < c.size && S.PutOk(c, es, k, raw)
    ensures var j := S.AtBucket(es, S.Bucket(c, k, S.PutScan(c, es, k, raw, 0)));
            j == |es| || S.Is(es[j], k, raw)
  {
  }

  lemma PutFails(c: S.Config, es: seq<S.Entry>, k: nat, raw: string, v: nat)
    requires 0 < c.size && !S.PutOk(c, es, k, raw)
    ensures S.Put(c, es, k, raw, v) == es
  {
  }

  /** put stops at a free bucket: it fills the slot at head. */
  lemma InsertFacts(c: S.Config, h: seq<HashNode>, l: seq<ListNode>, live: seq<nat>, free: seq<nat>,
                    head: nat, tail: nat, b: nat, k: nat, raw: string, v: nat)
    requires RingOk(h, l, live, free, head, tail) && 2 <= |l| <= MAX_CAPACITY && 0 < c.size
    requires b < |h| && h[b].key == 0 && k != 0
    requires S.PutOk(c, ViewOf(h, l, live), k, raw)
    requires b == S.Bucket(c, k, S.PutScan(c, ViewOf(h, l, live), k, raw, 0))
    ensures h[b].index == INVALID && head < |l| && tail < |l|
    ensures S.Put(c, ViewOf(h, l, live), k, raw, v) == S.Admit(c, ViewOf(h, l, live), S.Entry(k, raw, b, v))
    ensures var h1, l1 := h[b := HashNode(k, head, raw)], Filled(l, head, k, v, b);
            && Cycle(l1, live + free) && Tables(h1, l1, live + [head])
            && ViewOf(h1, l1, live + [head]) == ViewOf(h, l, live) + [S.Entry(k, raw, b, v)]
    ensures free != [] && |live| + |free| == |l| && head == free[0] && tail == (live + free)[0]
  {
    BucketLookup(h, l, live, b);
    BucketIndex(h, l, live, b);
    FilledFacts(h, l, live, free, head, tail, b, k, raw, v);
    hide Cycle, Tables, S.AtBucket, S.PutScan;
  }

  /** put stops at the bucket of the pair: it overwrites the value in the slot there. */
  lemma OverwriteFacts(c: S.Config, h: seq<HashNode>, l: seq<ListNode>, live: seq<nat>, free: seq<nat>,
                       head: nat, tail: nat, b: nat, k: nat, raw: string, v: nat)
    requires RingOk(h, l, live, free, head, tail) && 2 <= |l| <= MAX_CAPACITY && 0 < c.size
    requires b < |h| && h[b].key != 0 && k != 0
    requires S.PutOk(c, ViewOf(h, l, live), k, raw)
    requires b == S.Bucket(c, k, S.PutScan(c, ViewOf(h, l, live), k, raw, 0))
    ensures var s, es := h[b].index, ViewOf(h, l, live);
            var j := S.AtBucket(es, b);
            && s != INVALID && s < |l| && head < |l| && s != head && l[s].key == k
            && j < |live| && live[j] == s
            && S.Put(c, es, k, raw, v) == S.Refresh(es, j, es[j].(v := v))
            && h[b := HashNode(k, s, raw)] == h
            && Filled(l, s, k, v, b) == l[s := l[s].(v := v)] && Cycle(Filled(l, s, k, v, b), live + free)
    ensures free != [] && |live| + |free| == |l| && head == free[0] && tail == (live + free)[0] && Tables(h, l, live)
  {
    BucketLookup(h, l, live, b);
    BucketIndex(h, l, live, b);
    HeadIsFree(h, l, live, free, head, tail);
    var es := ViewOf(h, l, live);
    PutStops(c, es, k, raw);
    ReuseFacts(h, l, live, free, head, tail, b, k, raw, v);
    var j := S.AtBucket(es, b);
    assert es[j].(v := v) == S.Entry(k, raw, b, v);
    hide Cycle, Tables, S.AtBucket, S.PutScan, Filled;
  }

  /** Writing over an entry that holds the pair changes its value and nothing else. */
  lemma ReuseFacts(h: seq<HashNode>, l: seq<ListNode>, live: seq<nat>, free: seq<nat>, head: nat, tail: nat,
                   b: nat, k: nat, raw: string, v: nat)
    requires RingOk(h, l, live, free, head, tail) && b < |h| && k != 0
    requires h[b].key == k && h[b].raw == raw
    ensures h[b].index < |l|
    ensures h[b := HashNode(k, h[b].index, raw)] == h
    ensures Filled(l, h[b].index, k, v, b) == l[h[b].index := l[h[b].index].(v := v)]
    ensures Cycle(Filled(l, h[b].index, k, v, b), live + free)
  {
    hide LinkedAt;
    var s := h[b].index;
    var i :| 0 <= i < |live| && live[i] == s;
    assert l[s].bucket == b && l[s].key == k;
    LinkFrame(l, Filled(l, s, k, v, b), live + free);
  }

  /** One slot of a cycle. */
  lemma SlotOf(l: seq<ListNode>, ring: seq<nat>, i: nat)
    requires Cycle(l, ring) && i < |ring|
    ensures Distinct(ring) && ring[i] < |l|
    ensures l[ring[i]].next == After(ring, i) < |l| && l[ring[i]].last == Before(ring, i) < |l|
  {
    assert LinkedAt(l, ring, i) && LinkedAt(l, ring, NextPlace(|ring|, i)) && LinkedAt(l, ring, LastPlace(|ring|, i));
  }

  /** The slot read_adjust moves is the tail exactly when it is the least recently used one. */
  lemma TailPlace(live: seq<nat>, free: seq<nat>, j: nat)
    requires Distinct(live + free) && j < |live| && free != []
    ensures (live + free)[0] == live[j] <==> j == 0
    ensures After(live + free, j) == free[0] <==> j == |live| - 1
  {
    var ring := live + free;
    PlaceOf(ring, 0, j);
    PlaceOf(ring, NextPlace(|ring|, j), |live|);
    assert ring[|live|] == free[0];
  }

  /** The part of init that links the slots into a circle in index order. */
  method MakeRing(list: array<ListNode>, ghost order: seq<nat>)
    requires 2 <= list.Length && order == seq(list.Length, i => i)
    modifies list
    ensures Cycle(list[..], order)
  {
    var cap := list.Length;
    list[0] := list[0].(next := 1);
    list[0] := list[0].(last := cap - 1);
    var i := 1;
    while i < cap - 1
      invariant 1 <= i <= cap - 1
      invariant list[0].next == 1 && list[0].last == cap - 1
      invariant forall k :: 1 <= k < i ==> list[k].next == k + 1 && list[k].last == k - 1
    {
      list[i] := list[i].(next := i + 1);
      list[i] := list[i].(last := i - 1);
      i := i + 1;
    }
    list[cap - 1] := list[cap - 1].(next := 0);
    list[cap - 1] := list[cap - 1].(last := cap - 2);
    forall k | 0 <= k < cap ensures LinkedAt(list[..], order, k) {
    }
  }

  function Pow2(k: nat): nat {
    if k == 0 then 1 else 2 * Pow2(k - 1)
  }

  lemma {:induction false} Pow2Laws(k: nat)
    ensures IsPow2(Pow2(k)) && 0 < Pow2(k)
  {
    if k > 0 {
      Pow2Laws(k - 1);
    }
  }

  lemma PowStep(v: nat, w: nat, r: nat)
    requires 2 <= w && w * Pow2(r) <= v < (w + 1) * Pow2(r)
    ensures w / 2 * Pow2(r + 1) <= v < (w / 2 + 1) * Pow2(r + 1)
  {
    var p, h := Pow2(r), w / 2;
    MulAssoc(h, 2, p);
    MulAssoc(h + 1, 2, p);
    Pow2Laws(r);
    MulMonotone(p, 2 * h, w);
    MulMonotone(p, w + 1, 2 * h + 2);
  }

  lemma MulMonotone(p: nat, a: nat, b: nat)
    requires a <= b
    ensures a * p <= b * p
  {
    MulAdd(p, a, b - a);
  }

  lemma {:induction false} Pow2Less(i: nat, j: nat)
    requires Pow2(i) < Pow2(j)
    ensures i < j
    decreases i
  {
    if i > 0 {
      if j > 0 {
        Pow2Less(i - 1, j - 1);
      } else {
        Pow2Laws(i);
      }
    }
  }

  /** 2 * capacity below 2^16 keeps the table within 2^16 buckets. */
  lemma TableBound(v: nat, r: nat)
    requires Pow2(r) <= v < Pow2(r + 1) && v < 0x1_0000
    ensures Pow2(r + 1) <= 0x1_0000
  {
    assert Pow2(16) == 0x1_0000 by {
      assert Pow2(4) == 16;
      assert Pow2(8) == 256;
      assert Pow2(12) == 4096;
    }
    Pow2Less(r, 16);
    Pow2Monotone(r + 1, 16);
  }

  lemma {:induction false} Pow2Monotone(i: nat, j: nat)
    requires i <= j
    ensures Pow2(i) <= Pow2(j)
  {
    if i < j {
      Pow2Monotone(i, j - 1);
    }
  }

  // ---------------------------------------------------------------------------------------------
  // What the six link writes of read_adjust amount to

  predicate LinksInRange(l: seq<ListNode>, s: nat) {
    s < |l| && l[s].next < |l| && l[s].last < |l|
  }

  /** The two writes that take slot s out. */
  function Detach(l: seq<ListNode>, s: nat): (l': seq<ListNode>)
    requires LinksInRange(l, s)
    ensures |l'| == |l|
  {
    var p := l[s].last;
    var l1 := l[p := l[p].(next := l[s].next)];
    var n := l1[s].next;
    if n < |l| then l1[n := l1[n].(last := l1[s].last)] else l1
  }

  /** The two writes that hang slot s behind the slot before head. */
  function AttachLast(l: seq<ListNode>, head: nat, s: nat): (l': seq<ListNode>)
    requires LinksInRange(l, head) && s < |l|
    ensures |l'| == |l|
  {
    var q := l[head].last;
    var l1 := l[q := l[q].(next := s)];
    l1[s := l1[s].(last := l1[head].last)]
  }

  /** The four writes that put slot s in before head. */
  function Attach(l: seq<ListNode>, head: nat, s: nat): (l': seq<ListNode>)
    requires LinksInRange(l, head) && s < |l|
    ensures |l'| == |l|
  {
    var l1 := AttachLast(l, head, s);
    var l2 := l1[s := l1[s].(next := head)];
    l2[head := l2[head].(last := s)]
  }

  lemma DetachUnlinks(l: seq<ListNode>, ring: seq<nat>, j: nat)
    requires j < |ring| && ring[j] < |l|
    requires l[ring[j]].next == After(ring, j) < |l| && l[ring[j]].last == Before(ring, j) < |l|
    requires Before(ring, j) != ring[j] && After(ring, j) != ring[j]
    ensures Unlinked(l, ring, j, Detach(l, ring[j]))
    ensures Detach(l, ring[j])[ring[j]].next == After(ring, j)
  {
  }

  lemma DetachCycle(l: seq<ListNode>, ring: seq<nat>, j: nat)
    requires Cycle(l, ring) && 2 <= |ring| && j < |ring|
    ensures LinksInRange(l, ring[j])
    ensures Cycle(Detach(l, ring[j]), Without(ring, j)) && ring[j] !in Without(ring, j)
    ensures Detach(l, ring[j])[ring[j]].next == After(ring, j)
  {
    hide Cycle, LinkedAt;
    SlotOf(l, ring, j);
    PlaceOf(ring, j, LastPlace(|ring|, j));
    PlaceOf(ring, j, NextPlace(|ring|, j));
    DetachUnlinks(l, ring, j);
    Unlink(l, ring, j, Detach(l, ring[j]));
  }

  lemma AttachLinks(l: seq<ListNode>, ring: seq<nat>, j: nat, x: nat)
    requires j < |ring| && ring[j] < |l| && x < |l|
    requires l[ring[j]].last == Before(ring, j) < |l| && l[ring[j]].next < |l|
    requires Before(ring, j) != x && ring[j] != x
    ensures Linked(l, ring, j, x, Attach(l, ring[j], x))
  {
  }

  lemma AttachCycle(l: seq<ListNode>, ring: seq<nat>, j: nat, x: nat)
    requires Cycle(l, ring) && j < |ring| && x < |l| && x !in ring
    ensures LinksInRange(l, ring[j]) && l[ring[j]].last != x && ring[j] != x
    ensures Cycle(Attach(l, ring[j], x), With(ring, j, x))
  {
    hide Cycle, LinkedAt;
    SlotOf(l, ring, j);
    assert Before(ring, j) in ring && ring[j] in ring;
    AttachLinks(l, ring, j, x);
    Link(l, ring, j, x, Attach(l, ring[j], x));
  }

  /** Taking live slot j out and putting it in before head: the live slots in their new order. */
  lemma RelinkFacts(l: seq<ListNode>, live: seq<nat>, free: seq<nat>, j: nat)
    requires Cycle(l, live + free) && free != [] && j < |live| && |live| + |free| == |l| && 2 <= |l|
    ensures LinksInRange(l, live[j])
    ensures var d := Detach(l, live[j]);
            var live' := Without(live, j) + [live[j]];
            && LinksInRange(d, free[0]) && d[free[0]].last != live[j] && free[0] != live[j]
            && Cycle(Attach(d, free[0], live[j]), live' + free)
            && d[live[j]].next == After(live + free, j)
            && (live + free)[0] == (if j == 0 then live[j] else (live' + free)[0])
            && ((live + free)[0] == live[j] <==> j == 0)
            && (After(live + free, j) == free[0] <==> j == |live| - 1)
            && (j == 0 && |live| > 1 ==> After(live + free, j) == (live' + free)[0])
  {
    hide LinkedAt;
    var ring := live + free;
    DetachCycle(l, ring, j);
    assert Distinct(ring);
    hide Cycle;
    var d, r := Detach(l, live[j]), Without(ring, j);
    RelinkRing(live, free, j);
    AttachCycle(d, r, |live| - 1, live[j]);
    TailPlace(live, free, j);
    hide With, Without;
  }

  lemma RelinkRing(live: seq<nat>, free: seq<nat>, j: nat)
    requires j < |live| && free != []
    ensures var r := Without(live + free, j);
            && r == Without(live, j) + free && |r| == |live| - 1 + |free| && r[|live| - 1] == free[0]
            && With(r, |live| - 1, live[j]) == Without(live, j) + [live[j]] + free
  {
  }

  ghost predicate SameData(l: seq<ListNode>, l': seq<ListNode>) {
    && |l'| == |l|
    && forall s :: 0 <= s < |l| ==> l'[s].key == l[s].key && l'[s].bucket == l[s].bucket && l'[s].v == l[s].v
  }

  lemma DetachData(l: seq<ListNode>, s: nat)
    requires LinksInRange(l, s)
    ensures SameData(l, Detach(l, s))
  {
  }

  lemma AttachLastData(l: seq<ListNode>, head: nat, s: nat)
    requires LinksInRange(l, head) && s < |l|
    ensures SameData(l, AttachLast(l, head, s))
  {
  }

  lemma AttachData(l: seq<ListNode>, head: nat, s: nat)
    requires LinksInRange(l, head) && s < |l|
    ensures SameData(l, Attach(l, head, s))
  {
    hide AttachLast;
    AttachLastData(l, head, s);
  }

  lemma RelinkData(l: seq<ListNode>, s: nat, head: nat)
    requires LinksInRange(l, s) && LinksInRange(Detach(l, s), head)
    ensures SameData(l, Attach(Detach(l, s), head, s))
  {
    hide Detach, Attach;
    DetachData(l, s);
    AttachData(Detach(l, s), head, s);
  }

  // ---------------------------------------------------------------------------------------------
  // The state after a put

  ghost predicate RingOk(h: seq<HashNode>, l: seq<ListNode>, live: seq<nat>, free: seq<nat>, head: nat, tail: nat) {
    && free != [] && |live| + |free| == |l|
    && head == free[0] && tail == (live + free)[0]
    && Cycle(l, live + free)
    && Tables(h, l, live)
  }

  function Filled(l: seq<ListNode>, s: nat, k: nat, v: nat, b: nat): seq<ListNode>
    requires s < |l|
  {
    l[s := l[s].(key := k, v := v, bucket := b)]
  }

  /** The free slot at head has become an entry in bucket b; head has not moved yet. */
  lemma FilledFacts(h: seq<HashNode>, l: seq<ListNode>, live: seq<nat>, free: seq<nat>, head: nat, tail: nat,
                    b: nat, k: nat, raw: string, v: nat)
    requires RingOk(h, l, live, free, head, tail) && 2 <= |l| && b < |h| && h[b].key == 0 && k != 0
    ensures head < |l| && tail < |l|
    ensures var h1, l1 := h[b := HashNode(k, head, raw)], Filled(l, head, k, v, b);
            && Cycle(l1, live + free) && Tables(h1, l1, live + [head])
            && ViewOf(h1, l1, live + [head]) == ViewOf(h, l, live) + [S.Entry(k, raw, b, v)]
            && (tail == l1[head].next <==> |free| == 1)
            && l1[head].next == (if |free| == 1 then tail else free[1])
            && (live != [] ==> l1[tail].next == (live + free)[1] && l1[tail].bucket < |h1|)
  {
    hide LinkedAt;
    var ring := live + free;
    SlotOf(l, ring, |live|);
    SlotOf(l, ring, 0);
    var l1 := Filled(l, head, k, v, b);
    assert ring[|live|] == head;
    PlaceOf(ring, 0, NextPlace(|ring|, |live|));
    LinkFrame(l, l1, ring);
    assert head !in live by {
      forall i | 0 <= i < |live| ensures live[i] != head {
        PlaceOf(ring, i, |live|);
        assert ring[i] == live[i];
      }
    }
    Occupy(h, l, live, head, b, k, raw, v);
    hide Cycle;
    if live != [] {
      assert (live + [head])[0] == tail;
    }
  }

  /** A circle with room: head moves on. */
  lemma RoomFacts(h: seq<HashNode>, l: seq<ListNode>, live: seq<nat>, free: seq<nat>, head: nat, tail: nat)
    requires free != [] && |live| + |free| == |l| && |free| > 1
    requires head == free[0] && tail == (live + free)[0] && Cycle(l, live + free) && Tables(h, l, live + [head])
    ensures RingOk(h, l, live + [head], free[1..], free[1], tail)
  {
    assert live + [head] + free[1..] == live + free;
  }

  /** A full circle: the least recently used entry goes, and its slot becomes the free one. */
  lemma FullFacts(h: seq<HashNode>, l: seq<ListNode>, live: seq<nat>, head: nat, tail: nat)
    requires live != [] && |live| + 1 == |l|
    requires tail == live[0] && Cycle(l, live + [head]) && Tables(h, l, live + [head])
    ensures tail < |l| && l[tail].bucket < |h|
    ensures var h2, l2 := h[l[tail].bucket := FREE_BUCKET], l[tail := l[tail].(key := 0, v := 0)];
            && RingOk(h2, l2, live[1..] + [head], [tail], tail, (live + [head])[1])
            && ViewOf(h2, l2, live[1..] + [head]) == ViewOf(h, l, live + [head])[1..]
  {
    hide LinkedAt;
    var ring := live + [head];
    assert ring[0] == tail && ring[1..] == live[1..] + [head] && ring == [tail] + ring[1..];
    var h2, l2 := h[l[tail].bucket := FREE_BUCKET], l[tail := l[tail].(key := 0, v := 0)];
    Evict(h, l, ring);
    Rotate(l, tail, ring[1..]);
    LinkFrame(l, l2, ring[1..] + [tail]);
    hide Cycle, Tables;
    assert (ring[1..] + [tail])[0] == ring[1];
  }

  lemma FullAdmits(c: S.Config, h: seq<HashNode>, l: seq<ListNode>, live: seq<nat>, head: nat, tail: nat,
                   es: seq<S.Entry>, e: S.Entry)
    requires 2 <= |l| == c.capacity && |live| + 1 == |l|
    requires tail == live[0] && Cycle(l, live + [head]) && Tables(h, l, live + [head])
    requires ViewOf(h, l, live + [head]) == es + [e] && |es| == |live|
    ensures tail < |l| && l[tail].bucket < |h|
    ensures var h2, l2 := h[l[tail].bucket := FREE_BUCKET], l[tail := l[tail].(key := 0, v := 0)];
            && RingOk(h2, l2, live[1..] + [head], [tail], tail, (live + [head])[1])
            && ViewOf(h2, l2, live[1..] + [head]) == S.Admit(c, es, e)
  {
    FullFacts(h, l, live, head, tail);
    assert (es + [e])[1..] == es[1..] + [e];
    hide Cycle, RingOk;
  }

  lemma RoomAdmits(c: S.Config, h: seq<HashNode>, l: seq<ListNode>, live: seq<nat>, free: seq<nat>,
                   head: nat, tail: nat, es: seq<S.Entry>, e: S.Entry)
    requires free != [] && |live| + |free| == |l| == c.capacity && |free| > 1
    requires head == free[0] && tail == (live + free)[0] && Cycle(l, live + free) && Tables(h, l, live + [head])
    requires ViewOf(h, l, live + [head]) == es + [e] && |es| == |live|
    ensures RingOk(h, l, live + [head], free[1..], free[1], tail)
    ensures ViewOf(h, l, live + [head]) == S.Admit(c, es, e)
  {
    RoomFacts(h, l, live, free, head, tail);
    hide Cycle, RingOk;
  }

  /** The entry of live slot j has a new value and has moved to the recent end. */
  lemma RefreshedFacts(h: seq<HashNode>, l: seq<ListNode>, live: seq<nat>, j: nat, v: nat, l2: seq<ListNode>)
    requires Tables(h, l, live) && j < |live| && SameData(l[live[j] := l[live[j]].(v := v)], l2)
    ensures var live' := Without(live, j) + [live[j]];
            && Tables(h, l2, live')
            && ViewOf(h, l2, live') == S.Refresh(ViewOf(h, l, live), j, ViewOf(h, l, live)[j].(v := v))
  {
    var l1 := l[live[j] := l[live[j]].(v := v)];
    Overwrite(h, l, live, j, v);
    DataFrame(h, l1, l2, live);
    Reorder(h, l2, live, j);
    hide Tables;
    assert ToEnd(live, j) == Without(live, j) + [live[j]];
    assert ViewOf(h, l2, live)[j] == ViewOf(h, l, live)[j].(v := v);
  }
}
