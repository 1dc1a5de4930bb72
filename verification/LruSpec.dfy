/** What container/circle_cache.h does, on a list of live entries ordered from least to most recently used.
    LruCache.dfy ties the arrays of the source to these functions. */
module LruSpec {
  import opened Probing

  /** The bucket of an entry is where its key and raw_key stand in the hash table; v is the value pointer. */
  datatype Entry = Entry(key: nat, raw: string, bucket: nat, v: nat)

  /** probe gives the bucket of each key and probe number. */
  datatype Config = Config(capacity: nat, size: nat, maxProbing: nat, probe: (nat, nat) -> nat)

  datatype Lookup = Miss | Hit(v: nat)

  ghost predicate ConfigOk(c: Config) {
    2 <= c.capacity && c.capacity < c.size && OnePass(c.probe, c.size)
  }

  /** The probing loops stop at the table size or at max_probing. */
  function Limit(c: Config): nat {
    if c.size <= c.maxProbing then c.size else c.maxProbing
  }

  /** The index of the live entry in bucket b, the length of the list if the bucket is empty. */
  function AtBucket(es: seq<Entry>, b: nat): (j: nat)
    ensures j <= |es|
    ensures j < |es| ==> es[j].bucket == b
  {
    if es == [] then 0 else if es[0].bucket == b then 0 else 1 + AtBucket(es[1..], b)
  }

  predicate Is(e: Entry, k: nat, raw: string) {
    e.key == k && e.raw == raw
  }

  function Bucket(c: Config, k: nat, i: nat): nat
    requires 0 < c.size
  {
    c.probe(k, i)
  }

  predicate EmptyAt(c: Config, es: seq<Entry>, k: nat, i: nat)
    requires 0 < c.size
  {
    AtBucket(es, Bucket(c, k, i)) == |es|
  }

  predicate MatchAt(c: Config, es: seq<Entry>, k: nat, raw: string, i: nat)
    requires 0 < c.size
  {
    var j := AtBucket(es, Bucket(c, k, i));
    j < |es| && Is(es[j], k, raw)
  }

  /** get_probing_bucket: the first probe from i on whose bucket holds the pair; Limit if there is none. */
  function GetScan(c: Config, es: seq<Entry>, k: nat, raw: string, i: nat): (p: nat)
    requires 0 < c.size && i <= Limit(c)
    ensures i <= p <= Limit(c)
    ensures p < Limit(c) ==> MatchAt(c, es, k, raw, p)
    ensures forall q :: i <= q < p ==> !MatchAt(c, es, k, raw, q)
    decreases Limit(c) - i
  {
    if i == Limit(c) || MatchAt(c, es, k, raw, i) then i else GetScan(c, es, k, raw, i + 1)
  }

  /** put_probing_bucket: the first probe from i on whose bucket is empty or holds the pair. */
  function PutScan(c: Config, es: seq<Entry>, k: nat, raw: string, i: nat): (p: nat)
    requires 0 < c.size && i <= Limit(c)
    ensures i <= p <= Limit(c)
    ensures p < Limit(c) ==> EmptyAt(c, es, k, p) || MatchAt(c, es, k, raw, p)
    ensures forall q :: i <= q < p ==> !EmptyAt(c, es, k, q) && !MatchAt(c, es, k, raw, q)
    decreases Limit(c) - i
  {
    if i == Limit(c) || EmptyAt(c, es, k, i) || MatchAt(c, es, k, raw, i) then i else PutScan(c, es, k, raw, i + 1)
  }

  /** Entry j becomes the most recently used, as e. */
  function Refresh(es: seq<Entry>, j: nat, e: Entry): seq<Entry>
    requires j < |es|
  {
    es[..j] + es[j + 1..] + [e]
  }

  /** A new entry becomes the most recently used; a full cache gives up the least recently used. */
  function Admit(c: Config, es: seq<Entry>, e: Entry): seq<Entry> {
    (if es != [] && |es| + 1 >= c.capacity then es[1..] else es) + [e]
  }

  function PutOk(c: Config, es: seq<Entry>, k: nat, raw: string): bool
    requires 0 < c.size
  {
    PutScan(c, es, k, raw, 0) < Limit(c)
  }

  function Put(c: Config, es: seq<Entry>, k: nat, raw: string, v: nat): seq<Entry>
    requires 0 < c.size
  {
    if !PutOk(c, es, k, raw) then es else
      var b := Bucket(c, k, PutScan(c, es, k, raw, 0));
      var j := AtBucket(es, b);
      if j < |es| then Refresh(es, j, Entry(k, raw, b, v)) else Admit(c, es, Entry(k, raw, b, v))
  }

  function GetIndex(c: Config, es: seq<Entry>, k: nat, raw: string): (j: nat)
    requires 0 < c.size
    ensures j <= |es|
    ensures j < |es| ==> Is(es[j], k, raw)
  {
    var p := GetScan(c, es, k, raw, 0);
    if p == Limit(c) then |es| else AtBucket(es, Bucket(c, k, p))
  }

  function Get(c: Config, es: seq<Entry>, k: nat, raw: string): (seq<Entry>, Lookup)
    requires 0 < c.size
  {
    var j := GetIndex(c, es, k, raw);
    if j == |es| then (es, Miss) else (Refresh(es, j, es[j]), Hit(es[j].v))
  }

  // ---------------------------------------------------------------------------------------------
  // The invariant

  /** The entry can be reached by probing for its key. */
  ghost predicate Reachable(c: Config, e: Entry)
    requires 0 < c.size
  {
    e.bucket < c.size && exists p :: 0 <= p < Limit(c) && Bucket(c, e.key, p) == e.bucket
  }

  /** Live entries occupy distinct reachable buckets and leave at least one slot free. */
  ghost predicate Shape(c: Config, es: seq<Entry>) {
    && ConfigOk(c)
    && |es| < c.capacity
    && (forall j :: 0 <= j < |es| ==> Reachable(c, es[j]))
    && (forall i, j :: 0 <= i < j < |es| ==> es[i].bucket != es[j].bucket)
  }

  /** e comes before f in the probe order of their common key. */
  ghost predicate ProbedBefore(c: Config, e: Entry, f: Entry)
    requires 0 < c.size
  {
    forall p, q ::
      0 <= p < Limit(c) && 0 <= q < Limit(c) && Bucket(c, e.key, p) == e.bucket && Bucket(c, f.key, q) == f.bucket ==>
        p < q
  }

  ghost predicate SamePair(e: Entry, f: Entry) {
    e.key == f.key && e.raw == f.raw
  }

  /** Entries for one pair: the more recently used is earlier in probe order. */
  ghost predicate Aligned(c: Config, es: seq<Entry>)
    requires 0 < c.size
  {
    forall i, j :: 0 <= i < j < |es| && SamePair(es[i], es[j]) ==> ProbedBefore(c, es[j], es[i])
  }

  /** No more recently used entry has the same pair. */
  ghost predicate Newest(es: seq<Entry>, j: nat)
    requires j < |es|
  {
    forall i :: j < i < |es| ==> !SamePair(es[i], es[j])
  }

  /** The newest entry of every pair carries the latest value put for it. */
  ghost predicate Fresh(es: seq<Entry>, latest: map<(nat, string), nat>) {
    forall j :: 0 <= j < |es| && Newest(es, j) ==>
                  (es[j].key, es[j].raw) in latest && latest[(es[j].key, es[j].raw)] == es[j].v
  }

  ghost predicate Inv(c: Config, es: seq<Entry>, latest: map<(nat, string), nat>) {
    Shape(c, es) && Aligned(c, es) && Fresh(es, latest)
  }

  lemma {:induction false} AtBucketFinds(es: seq<Entry>, j: nat)
    requires j < |es| && forall i, j :: 0 <= i < j < |es| ==> es[i].bucket != es[j].bucket
    ensures AtBucket(es, es[j].bucket) == j
  {
    if j > 0 {
      AtBucketFinds(es[1..], j - 1);
    }
  }

  lemma {:induction false} AtBucketNone(es: seq<Entry>, b: nat)
    requires AtBucket(es, b) == |es|
    ensures forall j :: 0 <= j < |es| ==> es[j].bucket != b
  {
    if es != [] {
      AtBucketNone(es[1..], b);
      forall j | 0 <= j < |es| ensures es[j].bucket != b {
        if j > 0 {
          assert es[j] == es[1..][j - 1];
        }
      }
    }
  }

  /** The scan of get stops at the newest entry of the pair, and finds one whenever there is one. */
  lemma GetFindsNewest(c: Config, es: seq<Entry>, k: nat, raw: string)
    requires Shape(c, es) && Aligned(c, es)
    ensures var j := GetIndex(c, es, k, raw);
            if j < |es| then Is(es[j], k, raw) && Newest(es, j)
            else forall i :: 0 <= i < |es| ==> !Is(es[i], k, raw)
  {
    var p := GetScan(c, es, k, raw, 0);
    var j := GetIndex(c, es, k, raw);
    forall i | 0 <= i < |es| && Is(es[i], k, raw) ensures j < |es| && i <= j {
      var q :| 0 <= q < Limit(c) && Bucket(c, es[i].key, q) == es[i].bucket;
      assert j < i ==> ProbedBefore(c, es[i], es[j]);
      AtBucketFinds(es, i);
      assert MatchAt(c, es, k, raw, q);
    }
  }

  lemma SameProbe(c: Config, k: nat, i: nat, j: nat)
    requires ConfigOk(c) && i < c.size && j < c.size
    ensures c.probe(k, i) == c.probe(k, j) <==> i == j
  {
  }

  /** An entry written at the probe where put stops precedes every other entry of its pair. */
  lemma PutAligns(c: Config, es: seq<Entry>, k: nat, raw: string, v: nat, i: nat)
    requires Shape(c, es) && PutOk(c, es, k, raw) && i < |es| && Is(es[i], k, raw)
    ensures var b := Bucket(c, k, PutScan(c, es, k, raw, 0));
            es[i].bucket == b || ProbedBefore(c, Entry(k, raw, b, v), es[i])
  {
    var p := PutScan(c, es, k, raw, 0);
    var b := Bucket(c, k, p);
    forall p', q | 0 <= p' < Limit(c) && 0 <= q < Limit(c) && Bucket(c, k, p') == b && Bucket(c, k, q) == es[i].bucket
                   && es[i].bucket != b
      ensures p' < q
    {
      SameProbe(c, k, p, p');
      AtBucketFinds(es, i);
      assert MatchAt(c, es, k, raw, q);
    }
  }

  // ---------------------------------------------------------------------------------------------
  // put and get keep it

  /** Moving an entry to the recent end, with its pair and bucket. */
  lemma RefreshShape(c: Config, es: seq<Entry>, j: nat, e: Entry)
    requires Shape(c, es) && j < |es| && SamePair(e, es[j]) && e.bucket == es[j].bucket
    ensures Shape(c, Refresh(es, j, e))
  {
    var fs := Refresh(es, j, e);
    forall i | 0 <= i < |fs| ensures Reachable(c, fs[i]) {
      assert Reachable(c, if i < j then es[i] else if i + 1 < |es| then es[i + 1] else es[j]);
    }
  }

  lemma RefreshAligned(c: Config, es: seq<Entry>, j: nat, e: Entry)
    requires Shape(c, es) && Aligned(c, es) && j < |es| && SamePair(e, es[j]) && e.bucket == es[j].bucket
    requires Newest(es, j)
    ensures Aligned(c, Refresh(es, j, e))
  {
    var fs := Refresh(es, j, e);
    forall a, b | 0 <= a < b < |fs| && SamePair(fs[a], fs[b]) ensures ProbedBefore(c, fs[b], fs[a]) {
      var a', b' := if a < j then a else a + 1, if b < j then b else if b + 1 < |es| then b + 1 else j;
      assert fs[a] == es[a'] && SamePair(es[a'], es[b']);
      if b == |fs| - 1 {
        assert a' < j;
        assert ProbedBefore(c, es[j], es[a']);
      } else {
        assert ProbedBefore(c, es[b'], es[a']);
      }
    }
  }

  /** Entries of other pairs are as new after the move as before. */
  lemma RefreshNewest(es: seq<Entry>, j: nat, e: Entry, a: nat)
    requires j < |es| && SamePair(e, es[j]) && a + 1 < |es| && Newest(Refresh(es, j, e), a)
    ensures var a' := if a < j then a else a + 1;
            Refresh(es, j, e)[a] == es[a'] && Newest(es, a') && !SamePair(e, es[a'])
  {
    var fs, a' := Refresh(es, j, e), if a < j then a else a + 1;
    assert fs[|fs| - 1] == e;
    forall i | a' < i < |es| ensures !SamePair(es[i], es[a']) {
      if i != j {
        var i' := if i < j then i else i - 1;
        assert es[i] == fs[i'] && a < i';
      }
    }
  }

  lemma RefreshFresh(es: seq<Entry>, j: nat, e: Entry, latest: map<(nat, string), nat>)
    requires j < |es| && Newest(es, j) && SamePair(e, es[j]) && Fresh(es, latest)
    ensures Fresh(Refresh(es, j, e), latest[(e.key, e.raw) := e.v])
  {
    hide Newest;
    var fs, l := Refresh(es, j, e), latest[(e.key, e.raw) := e.v];
    forall a | 0 <= a < |fs| && Newest(fs, a)
      ensures (fs[a].key, fs[a].raw) in l && l[(fs[a].key, fs[a].raw)] == fs[a].v
    {
      if a < |fs| - 1 {
        RefreshNewest(es, j, e, a);
      }
    }
  }

  lemma AdmitShape(c: Config, es: seq<Entry>, e: Entry)
    requires Shape(c, es) && Reachable(c, e) && forall i :: 0 <= i < |es| ==> es[i].bucket != e.bucket
    ensures Shape(c, Admit(c, es, e))
  {
    var fs := Admit(c, es, e);
    var d := |es| + 1 - |fs|;
    forall i | 0 <= i < |fs| ensures Reachable(c, fs[i]) {
      assert i + d < |es| ==> Reachable(c, es[i + d]);
    }
  }

  lemma AdmitAligned(c: Config, es: seq<Entry>, e: Entry)
    requires 0 < c.size && Aligned(c, es)
    requires forall i :: 0 <= i < |es| && SamePair(es[i], e) ==> ProbedBefore(c, e, es[i])
    ensures Aligned(c, Admit(c, es, e))
  {
    var fs := Admit(c, es, e);
    var d := |es| + 1 - |fs|;
    forall a, b | 0 <= a < b < |fs| && SamePair(fs[a], fs[b]) ensures ProbedBefore(c, fs[b], fs[a]) {
      assert fs[a] == es[a + d];
      if b < |fs| - 1 {
        assert fs[b] == es[b + d];
      }
    }
  }

  lemma EvictFresh(es: seq<Entry>, latest: map<(nat, string), nat>)
    requires Fresh(es, latest) && es != []
    ensures Fresh(es[1..], latest)
  {
    var fs := es[1..];
    forall a | 0 <= a < |fs| && Newest(fs, a)
      ensures (fs[a].key, fs[a].raw) in latest && latest[(fs[a].key, fs[a].raw)] == fs[a].v
    {
      assert Newest(es, a + 1) by {
        forall i | a + 1 < i < |es| ensures !SamePair(es[i], es[a + 1]) {
          assert es[i] == fs[i - 1];
        }
      }
    }
  }

  lemma AppendFresh(es: seq<Entry>, e: Entry, latest: map<(nat, string), nat>)
    requires Fresh(es, latest)
    ensures Fresh(es + [e], latest[(e.key, e.raw) := e.v])
  {
    var fs, l := es + [e], latest[(e.key, e.raw) := e.v];
    forall a | 0 <= a < |fs| && Newest(fs, a)
      ensures (fs[a].key, fs[a].raw) in l && l[(fs[a].key, fs[a].raw)] == fs[a].v
    {
      if a < |es| {
        assert !SamePair(fs[|es|], fs[a]);
        assert Newest(es, a) by {
          forall i | a < i < |es| ensures !SamePair(es[i], es[a]) {
            assert es[i] == fs[i];
          }
        }
      }
    }
  }

  lemma AdmitFresh(c: Config, es: seq<Entry>, e: Entry, latest: map<(nat, string), nat>)
    requires Fresh(es, latest)
    ensures Fresh(Admit(c, es, e), latest[(e.key, e.raw) := e.v])
  {
    if es != [] && |es| + 1 >= c.capacity {
      EvictFresh(es, latest);
      AppendFresh(es[1..], e, latest);
    } else {
      AppendFresh(es, e, latest);
    }
  }

  /** Where put overwrites, it overwrites the newest entry of the pair. */
  lemma PutOverwritesNewest(c: Config, es: seq<Entry>, k: nat, raw: string)
    requires Shape(c, es) && Aligned(c, es) && PutOk(c, es, k, raw)
    ensures var j := AtBucket(es, Bucket(c, k, PutScan(c, es, k, raw, 0)));
            j < |es| ==> Is(es[j], k, raw) && Newest(es, j)
  {
    var p := PutScan(c, es, k, raw, 0);
    var j := AtBucket(es, Bucket(c, k, p));
    if j < |es| {
      assert MatchAt(c, es, k, raw, p);
      forall i | 0 <= i < |es| && Is(es[i], k, raw) ensures i <= j {
        var q :| 0 <= q < Limit(c) && Bucket(c, es[i].key, q) == es[i].bucket;
        assert j < i ==> ProbedBefore(c, es[i], es[j]);
        AtBucketFinds(es, i);
        assert MatchAt(c, es, k, raw, q);
      }
    }
  }

  lemma PutKeepsInv(c: Config, es: seq<Entry>, latest: map<(nat, string), nat>, k: nat, raw: string, v: nat)
    requires Inv(c, es, latest)
    ensures Inv(c, Put(c, es, k, raw, v), if PutOk(c, es, k, raw) then latest[(k, raw) := v] else latest)
  {
    if PutOk(c, es, k, raw) {
      var p := PutScan(c, es, k, raw, 0);
      var b := Bucket(c, k, p);
      var j, e := AtBucket(es, b), Entry(k, raw, b, v);
      if j < |es| {
        PutOverwritesNewest(c, es, k, raw);
        RefreshShape(c, es, j, e);
        RefreshAligned(c, es, j, e);
        RefreshFresh(es, j, e, latest);
      } else {
        AtBucketNone(es, b);
        assert Reachable(c, e);
        AdmitShape(c, es, e);
        forall i | 0 <= i < |es| && SamePair(es[i], e) ensures ProbedBefore(c, e, es[i]) {
          PutAligns(c, es, k, raw, v, i);
        }
        AdmitAligned(c, es, e);
        AdmitFresh(c, es, e, latest);
      }
    }
  }

  lemma GetKeepsInv(c: Config, es: seq<Entry>, latest: map<(nat, string), nat>, k: nat, raw: string)
    requires Inv(c, es, latest)
    ensures Inv(c, Get(c, es, k, raw).0, latest)
    ensures Get(c, es, k, raw).1.Hit? ==> (k, raw) in latest && latest[(k, raw)] == Get(c, es, k, raw).1.v
    ensures Get(c, es, k, raw).1.Hit? <==> exists j :: 0 <= j < |es| && Is(es[j], k, raw)
  {
    GetFindsNewest(c, es, k, raw);
    var j := GetIndex(c, es, k, raw);
    if j < |es| {
      RefreshShape(c, es, j, es[j]);
      RefreshAligned(c, es, j, es[j]);
      RefreshFresh(es, j, es[j], latest);
      assert latest[(k, raw) := es[j].v] == latest;
    }
  }

  // ---------------------------------------------------------------------------------------------
  // Whole runs

  datatype Op = PutOp(k: nat, raw: string, v: nat) | GetOp(k: nat, raw: string)

  function Do(c: Config, es: seq<Entry>, op: Op): seq<Entry>
    requires 0 < c.size
  {
    match op
    case PutOp(k, raw, v) => Put(c, es, k, raw, v)
    case GetOp(k, raw) => Get(c, es, k, raw).0
  }

  function Run(c: Config, es: seq<Entry>, ops: seq<Op>): seq<Entry>
    requires 0 < c.size
    decreases |ops|
  {
    if ops == [] then es else Run(c, Do(c, es, ops[0]), ops[1..])
  }

  /** The most recent successful put of every pair over a run. */
  function LatestPuts(c: Config, es: seq<Entry>, latest: map<(nat, string), nat>, ops: seq<Op>): map<(nat, string), nat>
    requires 0 < c.size
    decreases |ops|
  {
    if ops == [] then latest else
      var op := ops[0];
      LatestPuts(c, Do(c, es, op),
                 if op.PutOp? && PutOk(c, es, op.k, op.raw) then latest[(op.k, op.raw) := op.v] else latest,
                 ops[1..])
  }

  lemma {:induction false} RunKeepsInv(c: Config, es: seq<Entry>, latest: map<(nat, string), nat>, ops: seq<Op>)
    requires Inv(c, es, latest)
    ensures Inv(c, Run(c, es, ops), LatestPuts(c, es, latest, ops))
    decreases |ops|
  {
    if ops != [] {
      match ops[0] {
        case PutOp(k, raw, v) => PutKeepsInv(c, es, latest, k, raw, v);
        case GetOp(k, raw) => GetKeepsInv(c, es, latest, k, raw);
      }
      hide Inv;
      var op := ops[0];
      RunKeepsInv(c, Do(c, es, op),
                  if op.PutOp? && PutOk(c, es, op.k, op.raw) then latest[(op.k, op.raw) := op.v] else latest,
                  ops[1..]);
    }
  }

  /** After any run, with all its evictions and the duplicate entries they make possible, a get that hits
      returns the value of the most recent successful put for its key and raw key. */
  lemma GetReturnsLatestPut(c: Config, ops: seq<Op>, k: nat, raw: string)
    requires ConfigOk(c)
    ensures var r := Get(c, Run(c, [], ops), k, raw).1;
            r.Hit? ==> (k, raw) in LatestPuts(c, [], map[], ops) && LatestPuts(c, [], map[], ops)[(k, raw)] == r.v
  {
    RunKeepsInv(c, [], map[], ops);
    GetKeepsInv(c, Run(c, [], ops), LatestPuts(c, [], map[], ops), k, raw);
  }

  // ---------------------------------------------------------------------------------------------
  // put finds a bucket

  ghost function Buckets(es: seq<Entry>): (bs: set<nat>)
    ensures |bs| <= |es|
    ensures forall j :: 0 <= j < |es| ==> es[j].bucket in bs
  {
    if es == [] then {} else
      assert es == [es[0]] + es[1..];
      {es[0].bucket} + Buckets(es[1..])
  }

  /** Probing as many times as the cache has slots is enough: put cannot fail. */
  lemma PutNeverFails(c: Config, es: seq<Entry>, k: nat, raw: string)
    requires Shape(c, es) && c.maxProbing >= c.capacity
    ensures PutOk(c, es, k, raw)
  {
    if !PutOk(c, es, k, raw) {
      var probed := ProbeSet(c.probe, k, c.capacity);
      ProbeSetSize(c.probe, c.size, k, c.capacity);
      forall b | b in probed ensures b in Buckets(es) {
        ProbeSetHas(c.probe, k, c.capacity, b);
        var i :| 0 <= i < c.capacity && c.probe(k, i) == b;
        assert !EmptyAt(c, es, k, i);
        assert es[AtBucket(es, b)].bucket in Buckets(es);
      }
      SubsetSize(probed, Buckets(es));
    }
  }

  /** put fails exactly when every bucket it may probe, within the table size and max_probing, is taken by another
      pair. */
  lemma PutFailsIff(c: Config, es: seq<Entry>, k: nat, raw: string)
    requires Shape(c, es)
    ensures !PutOk(c, es, k, raw) <==>
            forall i :: 0 <= i < c.size && i < c.maxProbing ==>
                          exists j :: 0 <= j < |es| && es[j].bucket == Bucket(c, k, i) && !Is(es[j], k, raw)
  {
    if PutOk(c, es, k, raw) {
      var p := PutScan(c, es, k, raw, 0);
      var b := Bucket(c, k, p);
      if EmptyAt(c, es, k, p) {
        AtBucketNone(es, b);
      }
      forall j | 0 <= j < |es| && es[j].bucket == b ensures Is(es[j], k, raw) {
        AtBucketFinds(es, j);
      }
      assert !exists j :: 0 <= j < |es| && es[j].bucket == Bucket(c, k, p) && !Is(es[j], k, raw);
    } else {
      forall i | 0 <= i < c.size && i < c.maxProbing
        ensures exists j :: 0 <= j < |es| && es[j].bucket == Bucket(c, k, i) && !Is(es[j], k, raw)
      {
        assert !EmptyAt(c, es, k, i) && !MatchAt(c, es, k, raw, i);
        var j := AtBucket(es, Bucket(c, k, i));
        assert es[j].bucket == Bucket(c, k, i);
      }
    }
  }

  /** Every live entry sits at a probe of its key within the table size and max_probing. */
  lemma LiveWithinProbes(c: Config, es: seq<Entry>, j: nat)
    requires Shape(c, es) && j < |es|
    ensures exists i :: 0 <= i < c.size && i < c.maxProbing && Bucket(c, es[j].key, i) == es[j].bucket
  {
    assert Reachable(c, es[j]);
    var p :| 0 <= p < Limit(c) && Bucket(c, es[j].key, p) == es[j].bucket;
    assert p < c.size && p < c.maxProbing;
  }

  /** A pair takes the first probe that is free or its own; probes before it belong to other pairs. */
  lemma PutTakesFirst(c: Config, es: seq<Entry>, k: nat, raw: string, v: nat, i: nat)
    requires Shape(c, es) && i < c.size && i < c.maxProbing
    requires forall j :: 0 <= j < |es| && es[j].bucket == Bucket(c, k, i) ==> Is(es[j], k, raw)
    requires forall q :: 0 <= q < i ==>
                           exists j :: 0 <= j < |es| && es[j].bucket == Bucket(c, k, q) && !Is(es[j], k, raw)
    ensures PutOk(c, es, k, raw)
    ensures var fs := Put(c, es, k, raw, v);
            fs != [] && fs[|fs| - 1] == Entry(k, raw, Bucket(c, k, i), v)
  {
    var p := PutScan(c, es, k, raw, 0);
    PutFailsIff(c, es, k, raw);
    assert EmptyAt(c, es, k, i) || MatchAt(c, es, k, raw, i) by {
      var j := AtBucket(es, Bucket(c, k, i));
      if j < |es| {
        assert es[j].bucket == Bucket(c, k, i);
      }
    }
    assert p <= i;
    if p < i {
      var j :| 0 <= j < |es| && es[j].bucket == Bucket(c, k, p) && !Is(es[j], k, raw);
      AtBucketFinds(es, j);
    }
  }

  // ---------------------------------------------------------------------------------------------
  // Recency

  /** The bucket an operation uses, the table size if it uses none. */
  function Used(c: Config, es: seq<Entry>, op: Op): nat
    requires 0 < c.size
  {
    match op
    case PutOp(k, raw, v) => if PutOk(c, es, k, raw) then Bucket(c, k, PutScan(c, es, k, raw, 0)) else c.size
    case GetOp(k, raw) =>
      var j := GetIndex(c, es, k, raw);
      if j < |es| then es[j].bucket else c.size
  }

  /** When each bucket was last used, if operations are numbered from `now`. */
  ghost function LastUse(c: Config, es: seq<Entry>, last: map<nat, nat>, now: nat, ops: seq<Op>): map<nat, nat>
    requires 0 < c.size
    decreases |ops|
  {
    if ops == [] then last else
      LastUse(c, Do(c, es, ops[0]), last[Used(c, es, ops[0]) := now], now + 1, ops[1..])
  }

  /** Live entries are in order of their last use. */
  ghost predicate ByLastUse(es: seq<Entry>, last: map<nat, nat>, now: nat) {
    && (forall j :: 0 <= j < |es| ==> es[j].bucket in last && last[es[j].bucket] < now)
    && (forall i, j :: 0 <= i < j < |es| ==> last[es[i].bucket] < last[es[j].bucket])
  }

  /** One operation: either nothing changes, or one entry goes to the recent end, the rest keep their order,
      and at most the least recently used one goes. */
  ghost predicate Moved(c: Config, es: seq<Entry>, fs: seq<Entry>, b: nat) {
    || (fs == es && b == c.size)
    || (exists j, e: Entry :: 0 <= j < |es| && es[j].bucket == b == e.bucket && fs == Refresh(es, j, e))
    || (exists e: Entry :: e.bucket == b && (forall j :: 0 <= j < |es| ==> es[j].bucket != b) && fs == Admit(c, es, e))
  }

  lemma OpMoves(c: Config, es: seq<Entry>, op: Op)
    requires 0 < c.size
    ensures Moved(c, es, Do(c, es, op), Used(c, es, op))
  {
    match op
    case PutOp(k, raw, v) =>
      if PutOk(c, es, k, raw) {
        var b := Used(c, es, op);
        var j, e := AtBucket(es, b), Entry(k, raw, b, v);
        if j < |es| {
          assert Do(c, es, op) == Refresh(es, j, e);
        } else {
          AtBucketNone(es, b);
          assert Do(c, es, op) == Admit(c, es, e);
        }
      }
    case GetOp(k, raw) =>
      var j := GetIndex(c, es, k, raw);
      if j < |es| {
        assert Do(c, es, op) == Refresh(es, j, es[j]);
      }
  }

  lemma RefreshByLastUse(es: seq<Entry>, j: nat, e: Entry, last: map<nat, nat>, now: nat)
    requires ByLastUse(es, last, now) && j < |es| && e.bucket == es[j].bucket
    requires forall i :: 0 <= i < |es| && i != j ==> es[i].bucket != e.bucket
    ensures ByLastUse(Refresh(es, j, e), last[e.bucket := now], now + 1)
  {
    var fs := Refresh(es, j, e);
    assert forall a :: 0 <= a < |fs| - 1 ==> fs[a] == es[if a < j then a else a + 1];
  }

  lemma AdmitByLastUse(c: Config, es: seq<Entry>, e: Entry, last: map<nat, nat>, now: nat)
    requires ByLastUse(es, last, now) && forall i :: 0 <= i < |es| ==> es[i].bucket != e.bucket
    ensures ByLastUse(Admit(c, es, e), last[e.bucket := now], now + 1)
  {
    var fs := Admit(c, es, e);
    var d := |es| + 1 - |fs|;
    assert forall a :: 0 <= a < |fs| - 1 ==> fs[a] == es[a + d];
  }

  lemma StepByLastUse(c: Config, es: seq<Entry>, fs: seq<Entry>, b: nat, last: map<nat, nat>, now: nat)
    requires Shape(c, es) && ByLastUse(es, last, now) && Moved(c, es, fs, b)
    ensures ByLastUse(fs, last[b := now], now + 1)
  {
    forall j | 0 <= j < |es| ensures es[j].bucket < c.size {
      assert Reachable(c, es[j]);
    }
    if j, e: Entry :| 0 <= j < |es| && es[j].bucket == b == e.bucket && fs == Refresh(es, j, e) {
      RefreshByLastUse(es, j, e, last, now);
    } else if e: Entry :| e.bucket == b && (forall j :: 0 <= j < |es| ==> es[j].bucket != b) && fs == Admit(c, es, e) {
      AdmitByLastUse(c, es, e, last, now);
    }
  }

  /** Live entries stay in order of last use, so the entry at the front, the only one eviction ever
      removes, is the least recently used one. */
  lemma {:induction false} RunByLastUse(c: Config, es: seq<Entry>, latest: map<(nat, string), nat>, last: map<nat, nat>,
                                        now: nat, ops: seq<Op>)
    requires Inv(c, es, latest) && ByLastUse(es, last, now)
    ensures ByLastUse(Run(c, es, ops), LastUse(c, es, last, now, ops), now + |ops|)
    decreases |ops|
  {
    if ops != [] {
      var op := ops[0];
      RunKeepsInv(c, es, latest, [op]);
      assert [op][1..] == [];
      assert Run(c, es, [op]) == Do(c, es, op) by {
        assert Run(c, Do(c, es, op), []) == Do(c, es, op);
      }
      OpMoves(c, es, op);
      StepByLastUse(c, es, Do(c, es, op), Used(c, es, op), last, now);
      RunByLastUse(c, Do(c, es, op), LatestPuts(c, es, latest, [op]), last[Used(c, es, op) := now], now + 1, ops[1..]);
    }
  }

  /** e's pair is live, with at most d entries used more recently. */
  ghost predicate Recent(es: seq<Entry>, k: nat, raw: string, d: nat) {
    exists j :: 0 <= j < |es| && j + d + 1 >= |es| && Is(es[j], k, raw)
  }

  lemma RefreshRecent(es: seq<Entry>, j: nat, e: Entry, k: nat, raw: string, d: nat)
    requires j < |es| && SamePair(e, es[j]) && Recent(es, k, raw, d)
    ensures Recent(Refresh(es, j, e), k, raw, d + 1)
  {
    var fs := Refresh(es, j, e);
    var i :| 0 <= i < |es| && i + d + 1 >= |es| && Is(es[i], k, raw);
    var i' := if i < j then i else if i == j then |es| - 1 else i - 1;
    assert Is(fs[i'], k, raw) && i' + d + 2 >= |fs|;
  }

  lemma AdmitRecent(c: Config, es: seq<Entry>, e: Entry, k: nat, raw: string, d: nat)
    requires |es| < c.capacity && Recent(es, k, raw, d) && d + 3 <= c.capacity
    ensures Recent(Admit(c, es, e), k, raw, d + 1)
  {
    var fs := Admit(c, es, e);
    var i :| 0 <= i < |es| && i + d + 1 >= |es| && Is(es[i], k, raw);
    var dropped := |es| + 1 - |fs|;
    assert fs[i - dropped] == es[i];
  }

  lemma StepRecent(c: Config, es: seq<Entry>, op: Op, k: nat, raw: string, d: nat)
    requires Shape(c, es) && Aligned(c, es) && Recent(es, k, raw, d) && d + 3 <= c.capacity
    ensures Recent(Do(c, es, op), k, raw, d + 1)
  {
    hide Recent;
    match op {
      case PutOp(k', raw', v) =>
        if PutOk(c, es, k', raw') {
          var b := Used(c, es, op);
          var j := AtBucket(es, b);
          if j < |es| {
            PutOverwritesNewest(c, es, k', raw');
            RefreshRecent(es, j, Entry(k', raw', b, v), k, raw, d);
          } else {
            AdmitRecent(c, es, Entry(k', raw', b, v), k, raw, d);
          }
        } else {
          RecentLonger(es, k, raw, d);
        }
      case GetOp(k', raw') =>
        var j := GetIndex(c, es, k', raw');
        if j < |es| {
          RefreshRecent(es, j, es[j], k, raw, d);
        } else {
          RecentLonger(es, k, raw, d);
        }
    }
  }

  lemma RecentLonger(es: seq<Entry>, k: nat, raw: string, d: nat)
    requires Recent(es, k, raw, d)
    ensures Recent(es, k, raw, d + 1)
  {
  }

  /** An entry just put or hit survives any capacity - 2 further operations: a get for it then hits. */
  lemma {:induction false} RecentSurvives(c: Config, es: seq<Entry>, latest: map<(nat, string), nat>, ops: seq<Op>,
                                          k: nat, raw: string, d: nat)
    requires Inv(c, es, latest) && Recent(es, k, raw, d) && d + |ops| + 2 <= c.capacity
    ensures Get(c, Run(c, es, ops), k, raw).1.Hit?
    decreases |ops|
  {
    if ops == [] {
      GetKeepsInv(c, es, latest, k, raw);
    } else {
      StepRecent(c, es, ops[0], k, raw, d);
      RunKeepsInv(c, es, latest, [ops[0]]);
      assert [ops[0]][1..] == [];
      assert Run(c, es, [ops[0]]) == Do(c, es, ops[0]) by {
        assert Run(c, Do(c, es, ops[0]), []) == Do(c, es, ops[0]);
      }
      RecentSurvives(c, Do(c, es, ops[0]), LatestPuts(c, es, latest, [ops[0]]), ops[1..], k, raw, d + 1);
    }
  }

  /** A put that succeeds, or a get that hits, makes its pair the most recently used. */
  lemma UsedIsMostRecent(c: Config, es: seq<Entry>, op: Op)
    requires 0 < c.size && Used(c, es, op) != c.size
    ensures Recent(Do(c, es, op), op.k, op.raw, 0)
  {
    var fs := Do(c, es, op);
    assert Is(fs[|fs| - 1], op.k, op.raw);
  }

  /** From an empty cache: after any run, an operation on a pair that succeeds, and at most capacity - 2
      further operations, the pair is still found, with its latest value. */
  lemma UsedStaysRetrievable(c: Config, before: seq<Op>, op: Op, after: seq<Op>)
    requires ConfigOk(c) && |after| + 2 <= c.capacity
    requires Used(c, Run(c, [], before), op) != c.size
    ensures var ops := before + [op] + after;
            var r := Get(c, Run(c, [], ops), op.k, op.raw).1;
            && r.Hit? && (op.k, op.raw) in LatestPuts(c, [], map[], ops)
            && LatestPuts(c, [], map[], ops)[(op.k, op.raw)] == r.v
  {
    var es, latest := Run(c, [], before), LatestPuts(c, [], map[], before);
    RunKeepsInv(c, [], map[], before);
    UsedIsMostRecent(c, es, op);
    RunKeepsInv(c, es, latest, [op]);
    assert [op][1..] == [];
    assert Run(c, es, [op]) == Do(c, es, op) by {
      assert Run(c, Do(c, es, op), []) == Do(c, es, op);
    }
    RecentSurvives(c, Do(c, es, op), LatestPuts(c, es, latest, [op]), after, op.k, op.raw, 0);
    RunConcat(c, [], before, [op]);
    RunConcat(c, [], before + [op], after);
    GetReturnsLatestPut(c, before + [op] + after, op.k, op.raw);
  }

  lemma {:induction false} RunConcat(c: Config, es: seq<Entry>, a: seq<Op>, b: seq<Op>)
    requires 0 < c.size
    ensures Run(c, es, a + b) == Run(c, Run(c, es, a), b)
    decreases |a|
  {
    if a == [] {
      assert a + b == b;
    } else {
      assert (a + b)[0] == a[0] && (a + b)[1..] == a[1..] + b;
      RunConcat(c, Do(c, es, a[0]), a[1..], b);
    }
  }

  // ---------------------------------------------------------------------------------------------
  // When the cache is an LRU cache over pairs, and when duplicates get in the way

  datatype Item = Item(k: nat, raw: string, v: nat)

  /** What an LRU cache over distinct pairs would hold, least recently used first. */
  function Items(es: seq<Entry>): (xs: seq<Item>)
    ensures |xs| == |es|
  {
    seq(|es|, i requires 0 <= i < |es| => Item(es[i].key, es[i].raw, es[i].v))
  }

  function Position(xs: seq<Item>, k: nat, raw: string): (j: nat)
    ensures j <= |xs|
    ensures j < |xs| ==> xs[j].k == k && xs[j].raw == raw
    ensures forall i :: 0 <= i < j ==> xs[i].k != k || xs[i].raw != raw
  {
    if xs == [] || (xs[0].k == k && xs[0].raw == raw) then 0 else 1 + Position(xs[1..], k, raw)
  }

  function LruPut(room: nat, xs: seq<Item>, k: nat, raw: string, v: nat): seq<Item> {
    var j := Position(xs, k, raw);
    (if j < |xs| then xs[..j] + xs[j + 1..] else if xs != [] && |xs| >= room then xs[1..] else xs) + [Item(k, raw, v)]
  }

  function LruGet(xs: seq<Item>, k: nat, raw: string): (seq<Item>, Lookup) {
    var j := Position(xs, k, raw);
    if j == |xs| then (xs, Miss) else (xs[..j] + xs[j + 1..] + [xs[j]], Hit(xs[j].v))
  }

  function LruDo(room: nat, xs: seq<Item>, op: Op): seq<Item> {
    match op
    case PutOp(k, raw, v) => LruPut(room, xs, k, raw, v)
    case GetOp(k, raw) => LruGet(xs, k, raw).0
  }

  ghost predicate Twice(es: seq<Entry>, k: nat, raw: string) {
    exists i, j :: 0 <= i < j < |es| && Is(es[i], k, raw) && Is(es[j], k, raw)
  }

  ghost predicate NoDuplicates(es: seq<Entry>) {
    forall i, j :: 0 <= i < j < |es| ==> !SamePair(es[i], es[j])
  }

  /** put comes upon a free bucket before the bucket of the pair, whose entry the eviction that follows does
      not remove. */
  ghost predicate Shadows(c: Config, es: seq<Entry>, k: nat, raw: string)
    requires 0 < c.size
  {
    && (exists i :: 0 <= i < |es| && Is(es[i], k, raw) && (i > 0 || |es| + 1 < c.capacity))
    && (exists q :: 0 <= q < GetScan(c, es, k, raw, 0) && EmptyAt(c, es, k, q))
  }

  /** The first probe that put stops at is the first that get stops at, or a free bucket before it. */
  lemma ScansMeet(c: Config, es: seq<Entry>, k: nat, raw: string)
    requires 0 < c.size
    ensures var p, g := PutScan(c, es, k, raw, 0), GetScan(c, es, k, raw, 0);
            && p <= g
            && (p < g <==> exists q :: 0 <= q < g && EmptyAt(c, es, k, q))
            && (p < g ==> EmptyAt(c, es, k, p))
  {
    var p, g := PutScan(c, es, k, raw, 0), GetScan(c, es, k, raw, 0);
    hide EmptyAt, MatchAt;
  }

  /** A live pair is found by probing. */
  lemma LiveIsProbed(c: Config, es: seq<Entry>, k: nat, raw: string, i: nat)
    requires Shape(c, es) && i < |es| && Is(es[i], k, raw)
    ensures GetScan(c, es, k, raw, 0) < Limit(c)
  {
    var q :| 0 <= q < Limit(c) && Bucket(c, es[i].key, q) == es[i].bucket;
    AtBucketFinds(es, i);
    assert MatchAt(c, es, k, raw, q);
  }

  /** put adds an entry, rather than overwriting one, iff it stops at a free bucket. */
  lemma PutAdds(c: Config, es: seq<Entry>, k: nat, raw: string, v: nat)
    requires Shape(c, es) && PutOk(c, es, k, raw)
    ensures var p, g := PutScan(c, es, k, raw, 0), GetScan(c, es, k, raw, 0);
            var b := Bucket(c, k, p);
            var j := AtBucket(es, b);
            && (j == |es| <==> EmptyAt(c, es, k, p))
            && (j < |es| ==>
                  p == g && Is(es[j], k, raw) && Put(c, es, k, raw, v) == Refresh(es, j, Entry(k, raw, b, v)))
            && (j == |es| ==> Put(c, es, k, raw, v) == Admit(c, es, Entry(k, raw, b, v)))
  {
    ScansMeet(c, es, k, raw);
  }

  /** Starting without a duplicate of the pair, put leaves two entries of it exactly when it shadows one. */
  lemma PutDuplicatesIff(c: Config, es: seq<Entry>, k: nat, raw: string, v: nat)
    requires Shape(c, es) && !Twice(es, k, raw)
    ensures Twice(Put(c, es, k, raw, v), k, raw) <==> Shadows(c, es, k, raw)
  {
    ShadowsWhen(c, es, k, raw);
    if PutOk(c, es, k, raw) {
      PutAdds(c, es, k, raw, v);
      var b := Bucket(c, k, PutScan(c, es, k, raw, 0));
      var j, e := AtBucket(es, b), Entry(k, raw, b, v);
      assert 2 <= c.capacity && |es| < c.capacity;
      hide Shape, Put, PutOk, EmptyAt, Twice, Shadows, Bucket, PutScan, GetScan, AtBucket;
      if j < |es| {
        RefreshTwice(es, j, e, k, raw);
      } else {
        AdmitTwice(c, es, e, k, raw);
      }
    }
  }

  /** Where put stops tells whether it shadows a live entry. */
  lemma ShadowsWhen(c: Config, es: seq<Entry>, k: nat, raw: string)
    requires Shape(c, es)
    ensures Shadows(c, es, k, raw) <==>
            && PutOk(c, es, k, raw) && EmptyAt(c, es, k, PutScan(c, es, k, raw, 0))
            && exists i :: 0 <= i < |es| && Is(es[i], k, raw) && (i > 0 || |es| + 1 < c.capacity)
  {
    ScansMeet(c, es, k, raw);
    if i :| 0 <= i < |es| && Is(es[i], k, raw) {
      LiveIsProbed(c, es, k, raw, i);
    }
    hide Shape, MatchAt, EmptyAt, AtBucket;
  }

  lemma RefreshTwice(es: seq<Entry>, j: nat, e: Entry, k: nat, raw: string)
    requires j < |es| && Is(es[j], k, raw) && Is(e, k, raw) && !Twice(es, k, raw)
    ensures !Twice(Refresh(es, j, e), k, raw)
  {
    var fs := Refresh(es, j, e);
    forall a | 0 <= a < |fs| - 1 ensures !Is(fs[a], k, raw) {
      OnlyOnce(es, k, raw, j, if a < j then a else a + 1);
      assert fs[a] == es[if a < j then a else a + 1];
    }
  }

  lemma OnlyOnce(es: seq<Entry>, k: nat, raw: string, i: nat, j: nat)
    requires !Twice(es, k, raw) && i < |es| && j < |es| && Is(es[i], k, raw)
    ensures Is(es[j], k, raw) <==> i == j
  {
  }

  lemma AdmitTwice(c: Config, es: seq<Entry>, e: Entry, k: nat, raw: string)
    requires !Twice(es, k, raw) && Is(e, k, raw) && |es| < c.capacity && 2 <= c.capacity
    ensures Twice(Admit(c, es, e), k, raw) <==>
            exists i :: 0 <= i < |es| && Is(es[i], k, raw) && (i > 0 || |es| + 1 < c.capacity)
  {
    var fs := Admit(c, es, e);
    var d := |es| + 1 - |fs|;
    assert forall a :: 0 <= a < |fs| - 1 ==> fs[a] == es[a + d];
    if i :| 0 <= i < |es| && Is(es[i], k, raw) && (i > 0 || |es| + 1 < c.capacity) {
      assert fs[i - d] == es[i] && fs[|fs| - 1] == e;
    }
    if Twice(fs, k, raw) {
      var i, j :| 0 <= i < j < |fs| && Is(fs[i], k, raw) && Is(fs[j], k, raw);
      assert Is(es[i + d], k, raw);
    }
  }

  // ---------------------------------------------------------------------------------------------
  // Agreement with an LRU cache over distinct pairs

  lemma TwiceIsDuplicate(es: seq<Entry>, k: nat, raw: string)
    requires NoDuplicates(es)
    ensures !Twice(es, k, raw)
  {
  }

  /** The only live entry of a pair is where an LRU cache has it. */
  lemma PositionIs(es: seq<Entry>, k: nat, raw: string, i: nat)
    requires NoDuplicates(es) && i < |es| && Is(es[i], k, raw)
    ensures Position(Items(es), k, raw) == i
  {
    var j := Position(Items(es), k, raw);
    assert Items(es)[i] == Item(k, raw, es[i].v);
    assert j < i ==> SamePair(es[j], es[i]);
  }

  lemma PositionNone(es: seq<Entry>, k: nat, raw: string)
    requires forall i :: 0 <= i < |es| ==> !Is(es[i], k, raw)
    ensures Position(Items(es), k, raw) == |es|
  {
  }

  lemma ItemsRefresh(es: seq<Entry>, j: nat, e: Entry)
    requires j < |es|
    ensures Items(Refresh(es, j, e)) == Items(es)[..j] + Items(es)[j + 1..] + [Item(e.key, e.raw, e.v)]
  {
  }

  lemma ItemsAdmit(c: Config, es: seq<Entry>, e: Entry)
    requires 2 <= c.capacity && |es| < c.capacity
    ensures var xs := Items(es);
            Items(Admit(c, es, e)) ==
            (if xs != [] && |xs| >= c.capacity - 1 then xs[1..] else xs) + [Item(e.key, e.raw, e.v)]
  {
  }

  lemma RefreshNoDuplicates(es: seq<Entry>, j: nat, e: Entry)
    requires NoDuplicates(es) && j < |es| && SamePair(e, es[j])
    ensures NoDuplicates(Refresh(es, j, e))
  {
    var fs := Refresh(es, j, e);
    forall a, b | 0 <= a < b < |fs| ensures !SamePair(fs[a], fs[b]) {
      var a' := if a < j then a else a + 1;
      assert fs[a] == es[a'];
      if b < |fs| - 1 {
        assert fs[b] == es[if b < j then b else b + 1];
      } else {
        assert a' != j;
      }
    }
  }

  lemma AdmitNoDuplicates(c: Config, es: seq<Entry>, e: Entry)
    requires NoDuplicates(es)
    requires forall i :: 0 <= i < |es| && SamePair(es[i], e) ==> i == 0 && |es| + 1 >= c.capacity
    ensures NoDuplicates(Admit(c, es, e))
  {
    var fs := Admit(c, es, e);
    var d := |es| + 1 - |fs|;
    assert forall a :: 0 <= a < |fs| - 1 ==> fs[a] == es[a + d];
  }

  /** Where put adds an entry for a pair that stays live, the cache and an LRU cache part. */
  lemma ShadowDiffers(c: Config, es: seq<Entry>, e: Entry, i: nat)
    requires NoDuplicates(es) && 2 <= c.capacity && |es| < c.capacity
    requires i < |es| && SamePair(es[i], e) && (i > 0 || |es| + 1 < c.capacity)
    ensures Items(Admit(c, es, e)) != LruPut(c.capacity - 1, Items(es), e.key, e.raw, e.v)
  {
    PositionIs(es, e.key, e.raw, i);
    ItemsAdmit(c, es, e);
    var xs := Items(es);
    var ys := LruPut(c.capacity - 1, xs, e.key, e.raw, e.v);
    if |es| + 1 >= c.capacity {
      assert Items(Admit(c, es, e))[i - 1] == xs[i] && ys[i - 1] == xs[i - 1];
      assert !SamePair(es[i - 1], es[i]);
    }
  }

  /** put is the put of an LRU cache over distinct pairs exactly when it succeeds and shadows nothing. */
  lemma PutIsLruIff(c: Config, es: seq<Entry>, k: nat, raw: string, v: nat)
    requires Shape(c, es) && NoDuplicates(es)
    ensures Items(Put(c, es, k, raw, v)) == LruPut(c.capacity - 1, Items(es), k, raw, v)
            <==> PutOk(c, es, k, raw) && !Shadows(c, es, k, raw)
    ensures NoDuplicates(Put(c, es, k, raw, v)) <==> !Shadows(c, es, k, raw)
  {
    var j := Position(Items(es), k, raw);
    if j < |es| {
      assert Is(es[j], k, raw);
      PutLivePair(c, es, k, raw, v, j);
    } else {
      forall i | 0 <= i < |es| ensures !Is(es[i], k, raw) {
        if Is(es[i], k, raw) {
          PositionIs(es, k, raw, i);
        }
      }
      PutNewPair(c, es, k, raw, v);
    }
  }

  lemma PutNewPair(c: Config, es: seq<Entry>, k: nat, raw: string, v: nat)
    requires Shape(c, es) && NoDuplicates(es) && forall i :: 0 <= i < |es| ==> !Is(es[i], k, raw)
    ensures Items(Put(c, es, k, raw, v)) == LruPut(c.capacity - 1, Items(es), k, raw, v) <==> PutOk(c, es, k, raw)
    ensures NoDuplicates(Put(c, es, k, raw, v)) && !Shadows(c, es, k, raw)
  {
    PositionNone(es, k, raw);
    var ys := LruPut(c.capacity - 1, Items(es), k, raw, v);
    assert ys[|ys| - 1] == Item(k, raw, v);
    if PutOk(c, es, k, raw) {
      PutAdds(c, es, k, raw, v);
      var e := Entry(k, raw, Bucket(c, k, PutScan(c, es, k, raw, 0)), v);
      hide Shape, NoDuplicates, Put;
      ItemsAdmit(c, es, e);
      AdmitNoDuplicates(c, es, e);
    } else {
      assert ys != Items(es);
    }
  }

  lemma PutLivePair(c: Config, es: seq<Entry>, k: nat, raw: string, v: nat, i: nat)
    requires Shape(c, es) && NoDuplicates(es) && i < |es| && Is(es[i], k, raw)
    ensures PutOk(c, es, k, raw)
    ensures Items(Put(c, es, k, raw, v)) == LruPut(c.capacity - 1, Items(es), k, raw, v) <==> !Shadows(c, es, k, raw)
    ensures NoDuplicates(Put(c, es, k, raw, v)) <==> !Shadows(c, es, k, raw)
  {
    ScansMeet(c, es, k, raw);
    LiveIsProbed(c, es, k, raw, i);
    PutAdds(c, es, k, raw, v);
    PositionIs(es, k, raw, i);
    TwiceIsDuplicate(es, k, raw);
    var b := Bucket(c, k, PutScan(c, es, k, raw, 0));
    var j, e := AtBucket(es, b), Entry(k, raw, b, v);
    if j < |es| {
      OnlyOnce(es, k, raw, i, j);
      hide Shape, NoDuplicates, Put;
      ItemsRefresh(es, i, e);
      RefreshNoDuplicates(es, i, e);
    } else {
      LivePairAdded(c, es, e, i);
      PutDuplicatesIff(c, es, k, raw, v);
    }
  }

  lemma LivePairAdded(c: Config, es: seq<Entry>, e: Entry, i: nat)
    requires NoDuplicates(es) && 2 <= c.capacity && |es| < c.capacity && i < |es| && SamePair(es[i], e)
    ensures var survives := i > 0 || |es| + 1 < c.capacity;
            && (Items(Admit(c, es, e)) == LruPut(c.capacity - 1, Items(es), e.key, e.raw, e.v) <==> !survives)
            && (NoDuplicates(Admit(c, es, e)) <==> !survives)
  {
    TwiceIsDuplicate(es, e.key, e.raw);
    forall j | 0 <= j < |es| && SamePair(es[j], e) ensures j == i {
      OnlyOnce(es, e.key, e.raw, i, j);
    }
    if i > 0 || |es| + 1 < c.capacity {
      ShadowDiffers(c, es, e, i);
      AdmitTwice(c, es, e, e.key, e.raw);
      if NoDuplicates(Admit(c, es, e)) {
        TwiceIsDuplicate(Admit(c, es, e), e.key, e.raw);
      }
    } else {
      PositionIs(es, e.key, e.raw, i);
      ItemsAdmit(c, es, e);
      AdmitNoDuplicates(c, es, e);
    }
  }

  /** Without duplicates get is the get of an LRU cache, in what it answers and in what it leaves. */
  lemma GetIsLru(c: Config, es: seq<Entry>, k: nat, raw: string)
    requires Shape(c, es) && NoDuplicates(es)
    ensures var (fs, found) := Get(c, es, k, raw);
            LruGet(Items(es), k, raw) == (Items(fs), found) && NoDuplicates(fs)
  {
    var j := GetIndex(c, es, k, raw);
    if j < |es| {
      PositionIs(es, k, raw, j);
      ItemsRefresh(es, j, es[j]);
      RefreshNoDuplicates(es, j, es[j]);
    } else {
      forall i | 0 <= i < |es| ensures !Is(es[i], k, raw) {
        if Is(es[i], k, raw) {
          LiveIsProbed(c, es, k, raw, i);
        }
      }
      PositionNone(es, k, raw);
    }
  }

  /** Over the whole run the cache holds what an LRU cache with room for capacity - 1 pairs holds, and every
      get answers the same. */
  ghost predicate Agrees(c: Config, es: seq<Entry>, xs: seq<Item>, ops: seq<Op>)
    requires 0 < c.size && 0 < c.capacity
    decreases |ops|
  {
    && Items(es) == xs
    && (ops == [] || (
          && (ops[0].GetOp? ==> Get(c, es, ops[0].k, ops[0].raw).1 == LruGet(xs, ops[0].k, ops[0].raw).1)
          && Agrees(c, Do(c, es, ops[0]), LruDo(c.capacity - 1, xs, ops[0]), ops[1..])))
  }

  /** No state of the run holds two entries of one pair. */
  ghost predicate NeverDuplicates(c: Config, es: seq<Entry>, ops: seq<Op>)
    requires 0 < c.size
    decreases |ops|
  {
    NoDuplicates(es) && (ops == [] || NeverDuplicates(c, Do(c, es, ops[0]), ops[1..]))
  }

  /** Some put of the run shadows a live entry. */
  ghost predicate SomeShadow(c: Config, es: seq<Entry>, ops: seq<Op>)
    requires 0 < c.size
    decreases |ops|
  {
    ops != [] && (ShadowsNow(c, es, ops[0]) || SomeShadow(c, Do(c, es, ops[0]), ops[1..]))
  }

  /** Some put of the run returns -1. */
  ghost predicate SomeFailure(c: Config, es: seq<Entry>, ops: seq<Op>)
    requires 0 < c.size
    decreases |ops|
  {
    ops != [] && (FailsNow(c, es, ops[0]) || SomeFailure(c, Do(c, es, ops[0]), ops[1..]))
  }

  lemma DoKeepsShape(c: Config, es: seq<Entry>, latest: map<(nat, string), nat>, op: Op)
    returns (next: map<(nat, string), nat>)
    requires Inv(c, es, latest)
    ensures Inv(c, Do(c, es, op), next)
  {
    match op
    case PutOp(k, raw, v) =>
      PutKeepsInv(c, es, latest, k, raw, v);
      next := if PutOk(c, es, k, raw) then latest[(k, raw) := v] else latest;
    case GetOp(k, raw) =>
      GetKeepsInv(c, es, latest, k, raw);
      next := latest;
  }

  ghost predicate ShadowsNow(c: Config, es: seq<Entry>, op: Op)
    requires 0 < c.size
  {
    op.PutOp? && Shadows(c, es, op.k, op.raw)
  }

  ghost predicate FailsNow(c: Config, es: seq<Entry>, op: Op)
    requires 0 < c.size
  {
    op.PutOp? && !PutOk(c, es, op.k, op.raw)
  }

  lemma OpIsLru(c: Config, es: seq<Entry>, op: Op)
    requires Shape(c, es) && NoDuplicates(es)
    ensures Items(Do(c, es, op)) == LruDo(c.capacity - 1, Items(es), op)
            <==> !FailsNow(c, es, op) && !ShadowsNow(c, es, op)
    ensures NoDuplicates(Do(c, es, op)) <==> !ShadowsNow(c, es, op)
    ensures op.GetOp? ==> Get(c, es, op.k, op.raw).1 == LruGet(Items(es), op.k, op.raw).1
  {
    match op
    case PutOp(k, raw, v) => PutIsLruIff(c, es, k, raw, v);
    case GetOp(k, raw) => GetIsLru(c, es, k, raw);
  }

  lemma {:induction false} RunIsLru(c: Config, es: seq<Entry>, latest: map<(nat, string), nat>, ops: seq<Op>)
    requires Inv(c, es, latest) && NoDuplicates(es)
    ensures Agrees(c, es, Items(es), ops) <==> !SomeShadow(c, es, ops) && !SomeFailure(c, es, ops)
    ensures NeverDuplicates(c, es, ops) <==> !SomeShadow(c, es, ops)
    decreases |ops|
  {
    if ops != [] {
      var next := DoKeepsShape(c, es, latest, ops[0]);
      OpIsLru(c, es, ops[0]);
      hide Shape, Aligned, Fresh, ShadowsNow, FailsNow, NoDuplicates, LruGet, LruDo, Do, Get, Items;
      var fs := Do(c, es, ops[0]);
      if NoDuplicates(fs) {
        RunIsLru(c, fs, next, ops[1..]);
      } else {
        assert !NeverDuplicates(c, fs, ops[1..]);
      }
      if Items(fs) != LruDo(c.capacity - 1, Items(es), ops[0]) {
        assert !Agrees(c, fs, LruDo(c.capacity - 1, Items(es), ops[0]), ops[1..]);
      }
    }
  }

  /** From the empty cache: the run is that of an LRU cache over distinct pairs exactly when no put of it
      fails or comes upon a free bucket before a live entry of its pair, and it is free of duplicates
      exactly when none does the latter. */
  lemma RunIsLruIff(c: Config, ops: seq<Op>)
    requires ConfigOk(c)
    ensures Agrees(c, [], [], ops) <==> !SomeShadow(c, [], ops) && !SomeFailure(c, [], ops)
    ensures NeverDuplicates(c, [], ops) <==> !SomeShadow(c, [], ops)
  {
    RunIsLru(c, [], map[], ops);
    assert Items([]) == [];
  }

  function LruRun(room: nat, xs: seq<Item>, ops: seq<Op>): seq<Item>
    decreases |ops|
  {
    if ops == [] then xs else LruRun(room, LruDo(room, xs, ops[0]), ops[1..])
  }

  /** Capacity 4, hence 16 buckets, every bucket probed. */
  const SMALL: Config := Config(4, 16, 16, Probes(16))

  const CROWD: seq<Op> := [PutOp(1, "", 10), PutOp(17, "", 11), PutOp(3, "", 12), PutOp(4, "", 13)]
  const AGAIN: seq<Op> := [GetOp(17, ""), PutOp(17, "", 14)]

  lemma RunNext(c: Config, es: seq<Entry>, op: Op, rest: seq<Op>)
    requires 0 < c.size
    ensures Run(c, es, [op] + rest) == Run(c, Do(c, es, op), rest)
  {
    hide Do;
    assert ([op] + rest)[1..] == rest;
  }

  lemma CrowdSteps()
    ensures var e1, e2, e3, e4 := Entry(1, "", 1, 10), Entry(17, "", 2, 11), Entry(3, "", 3, 12), Entry(4, "", 4, 13);
            && Do(SMALL, [], PutOp(1, "", 10)) == [e1]
            && Do(SMALL, [e1], PutOp(17, "", 11)) == [e1, e2]
            && Do(SMALL, [e1, e2], PutOp(3, "", 12)) == [e1, e2, e3]
            && Do(SMALL, [e1, e2, e3], PutOp(4, "", 13)) == [e2, e3, e4]
  {
    hide Do;
    var e1, e2, e3 := Entry(1, "", 1, 10), Entry(17, "", 2, 11), Entry(3, "", 3, 12);
    FirstProbe([], 1, 10);
    SecondProbe(e1);
    FirstProbe([e1, e2], 3, 12);
    FirstProbe([e1, e2, e3], 4, 13);
  }

  lemma FirstProbe(es: seq<Entry>, k: nat, v: nat)
    requires |es| <= 3 && 0 < k < 16 && forall i :: 0 <= i < |es| ==> es[i].bucket != k
    ensures var e := Entry(k, "", k, v);
            Do(SMALL, es, PutOp(k, "", v)) == if |es| == 3 then [es[1], es[2], e] else es + [e]
  {
    ProbeZero(k);
    AtBucketMissing(es, k);
    hide Probe, Do, AtBucket;
    PutAtOnce(es, k, v);
  }

  lemma ProbeZero(k: nat)
    requires k < 16
    ensures Probe(16, k, 0) == k
  {
  }

  lemma {:induction false} AtBucketMissing(es: seq<Entry>, b: nat)
    requires forall i :: 0 <= i < |es| ==> es[i].bucket != b
    ensures AtBucket(es, b) == |es|
  {
    if es != [] {
      AtBucketMissing(es[1..], b);
    }
  }

  lemma PutAtOnce(es: seq<Entry>, k: nat, v: nat)
    requires AtBucket(es, Probe(16, k, 0)) == |es|
    ensures Do(SMALL, es, PutOp(k, "", v)) == Admit(SMALL, es, Entry(k, "", Probe(16, k, 0), v))
  {
    assert EmptyAt(SMALL, es, k, 0);
    assert PutScan(SMALL, es, k, "", 0) == 0;
    hide Probe, MatchAt;
  }

  lemma SecondProbe(e: Entry)
    requires e.bucket == 1 && e.key == 1
    ensures Do(SMALL, [e], PutOp(17, "", 11)) == [e, Entry(17, "", 2, 11)]
  {
    assert Probe(16, 17, 0) == 1 && Probe(16, 17, 1) == 2;
    assert !EmptyAt(SMALL, [e], 17, 0) && !MatchAt(SMALL, [e], 17, "", 0) && EmptyAt(SMALL, [e], 17, 1);
    assert PutScan(SMALL, [e], 17, "", 0) == 1;
  }

  lemma CrowdRun()
    ensures Run(SMALL, [], CROWD) == [Entry(17, "", 2, 11), Entry(3, "", 3, 12), Entry(4, "", 4, 13)]
  {
    hide Do, Run;
    CrowdSteps();
    var e1, e2, e3, e4 := Entry(1, "", 1, 10), Entry(17, "", 2, 11), Entry(3, "", 3, 12), Entry(4, "", 4, 13);
    assert CROWD == [CROWD[0]] + [CROWD[1], CROWD[2], CROWD[3]];
    RunNext(SMALL, [], CROWD[0], [CROWD[1], CROWD[2], CROWD[3]]);
    assert [CROWD[1], CROWD[2], CROWD[3]] == [CROWD[1]] + [CROWD[2], CROWD[3]];
    RunNext(SMALL, [e1], CROWD[1], [CROWD[2], CROWD[3]]);
    assert [CROWD[2], CROWD[3]] == [CROWD[2]] + [CROWD[3]];
    RunNext(SMALL, [e1, e2], CROWD[2], [CROWD[3]]);
    assert [CROWD[3]] == [CROWD[3]] + [];
    RunNext(SMALL, [e1, e2, e3], CROWD[3], []);
    RunNothing(SMALL, [e2, e3, e4]);
  }

  lemma RunNothing(c: Config, es: seq<Entry>)
    requires 0 < c.size
    ensures Run(c, es, []) == es
  {
  }

  lemma GetSeventeen()
    ensures var e2, e3, e4 := Entry(17, "", 2, 11), Entry(3, "", 3, 12), Entry(4, "", 4, 13);
            Do(SMALL, [e2, e3, e4], GetOp(17, "")) == [e3, e4, e2]
  {
    var es := [Entry(17, "", 2, 11), Entry(3, "", 3, 12), Entry(4, "", 4, 13)];
    assert Probe(16, 17, 0) == 1 && Probe(16, 17, 1) == 2;
    AtBucketMissing(es, 1);
    assert !MatchAt(SMALL, es, 17, "", 0) && MatchAt(SMALL, es, 17, "", 1);
    assert GetScan(SMALL, es, 17, "", 0) == 1;
    hide Probe;
  }

  lemma PutSeventeen()
    ensures var e2, e3, e4 := Entry(17, "", 2, 11), Entry(3, "", 3, 12), Entry(4, "", 4, 13);
            Do(SMALL, [e3, e4, e2], PutOp(17, "", 14)) == [e4, e2, Entry(17, "", 1, 14)]
  {
    var es := [Entry(3, "", 3, 12), Entry(4, "", 4, 13), Entry(17, "", 2, 11)];
    assert Probe(16, 17, 0) == 1;
    AtBucketMissing(es, 1);
    hide Probe, Do, AtBucket;
    PutAtOnce(es, 17, 14);
  }

  lemma AgainRun()
    ensures var es := [Entry(17, "", 2, 11), Entry(3, "", 3, 12), Entry(4, "", 4, 13)];
            Run(SMALL, es, AGAIN) == [Entry(4, "", 4, 13), Entry(17, "", 2, 11), Entry(17, "", 1, 14)]
  {
    hide Do, Run;
    GetSeventeen();
    PutSeventeen();
    var e2, e3, e4 := Entry(17, "", 2, 11), Entry(3, "", 3, 12), Entry(4, "", 4, 13);
    assert AGAIN == [AGAIN[0]] + [AGAIN[1]] && [AGAIN[1]] == [AGAIN[1]] + [];
    RunNext(SMALL, [e2, e3, e4], AGAIN[0], [AGAIN[1]]);
    RunNext(SMALL, [e3, e4, e2], AGAIN[1], []);
    RunNothing(SMALL, [e4, e2, Entry(17, "", 1, 14)]);
  }

  lemma SmallIsOk()
    ensures ConfigOk(SMALL)
  {
    assert IsPow2(2) && IsPow2(4) && IsPow2(8) && IsPow2(16);
    TriangularIsOnePass(16);
  }

  /** A run that ends with two entries of key 17, for which key 3 was given up; an LRU cache over distinct
      pairs keeps key 3. */
  lemma DuplicateRun()
    ensures ConfigOk(SMALL)
    ensures Run(SMALL, [], CROWD + AGAIN) == [Entry(4, "", 4, 13), Entry(17, "", 2, 11), Entry(17, "", 1, 14)]
    ensures Twice(Run(SMALL, [], CROWD + AGAIN), 17, "")
    ensures SomeShadow(SMALL, [], CROWD + AGAIN)
    ensures LruRun(3, [], CROWD + AGAIN) == [Item(3, "", 12), Item(4, "", 13), Item(17, "", 14)]
  {
    SmallIsOk();
    CrowdRun();
    AgainRun();
    RunConcat(SMALL, [], CROWD, AGAIN);
    var es := Run(SMALL, [], CROWD + AGAIN);
    assert Is(es[1], 17, "") && Is(es[2], 17, "");
    RunIsLruIff(SMALL, CROWD + AGAIN);
    if NeverDuplicates(SMALL, [], CROWD + AGAIN) {
      NeverAtEnd(SMALL, [], CROWD + AGAIN);
    }
    IdealRun();
  }

  lemma {:induction false} NeverAtEnd(c: Config, es: seq<Entry>, ops: seq<Op>)
    requires 0 < c.size && NeverDuplicates(c, es, ops)
    ensures NoDuplicates(Run(c, es, ops))
    decreases |ops|
  {
    if ops != [] {
      NeverAtEnd(c, Do(c, es, ops[0]), ops[1..]);
    }
  }

  lemma LruNext(room: nat, xs: seq<Item>, op: Op, rest: seq<Op>)
    ensures LruRun(room, xs, [op] + rest) == LruRun(room, LruDo(room, xs, op), rest)
  {
    hide LruDo;
    assert ([op] + rest)[1..] == rest;
  }

  lemma IdealSteps()
    ensures var x1, x2, x3 := Item(1, "", 10), Item(17, "", 11), Item(3, "", 12);
            var x4, x5 := Item(4, "", 13), Item(17, "", 14);
            && LruDo(3, [], PutOp(1, "", 10)) == [x1]
            && LruDo(3, [x1], PutOp(17, "", 11)) == [x1, x2]
            && LruDo(3, [x1, x2], PutOp(3, "", 12)) == [x1, x2, x3]
            && LruDo(3, [x1, x2, x3], PutOp(4, "", 13)) == [x2, x3, x4]
            && LruDo(3, [x2, x3, x4], GetOp(17, "")) == [x3, x4, x2]
            && LruDo(3, [x3, x4, x2], PutOp(17, "", 14)) == [x3, x4, x5]
  {
    var x2, x3, x4 := Item(17, "", 11), Item(3, "", 12), Item(4, "", 13);
    assert Position([x2, x3, x4], 17, "") == 0;
    assert Position([x3, x4, x2], 17, "") == 2;
  }

  lemma IdealRun()
    ensures LruRun(3, [], CROWD + AGAIN) == [Item(3, "", 12), Item(4, "", 13), Item(17, "", 14)]
  {
    hide LruDo, LruRun;
    IdealSteps();
    var x1, x2, x3, x4, x5 := Item(1, "", 10), Item(17, "", 11), Item(3, "", 12), Item(4, "", 13), Item(17, "", 14);
    var o := CROWD + AGAIN;
    assert o == [o[0]] + o[1..] && o[1..] == [o[1]] + o[2..] && o[2..] == [o[2]] + o[3..];
    assert o[3..] == [o[3]] + o[4..] && o[4..] == [o[4]] + o[5..] && o[5..] == [o[5]] + [];
    LruNext(3, [], o[0], o[1..]);
    LruNext(3, [x1], o[1], o[2..]);
    LruNext(3, [x1, x2], o[2], o[3..]);
    LruNext(3, [x1, x2, x3], o[3], o[4..]);
    LruNext(3, [x2, x3, x4], o[4], o[5..]);
    LruNext(3, [x3, x4, x2], o[5], []);
    assert LruRun(3, [x3, x4, x5], []) == [x3, x4, x5] by {
      LruNothing(3, [x3, x4, x5]);
    }
  }

  lemma LruNothing(room: nat, xs: seq<Item>)
    ensures LruRun(room, xs, []) == xs
  {
  }
}
