/** container/chain_hash.h: a hash table with one singly linked chain per bucket. */
module ChainHash {

  class HashEntry<V> {
    const key: nat
    var value: V
    var next: HashEntry?<V>

    constructor (key: nat, value: V)
      ensures this.key == key && this.value == value && next == null
    {
      this.key := key;
      this.value := value;
      next := null;
    }
  }

  datatype Option<V> = None | Some(value: V)

  datatype Op<V> =
    | Insert(key: nat, value: V, overwritten: bool)
    | Remove(key: nat)
    | Find(key: nat)
    | Clear

  /** What an operation does to the finite map that the table stands for. */
  function Apply<V>(m: map<nat, V>, op: Op<V>): map<nat, V> {
    match op
    case Insert(key, value, overwritten) => if key in m && !overwritten then m else m[key := value]
    case Remove(key) => m - {key}
    case Find(key) => m
    case Clear => map[]
  }

  function Lookup<V>(m: map<nat, V>, key: nat): Option<V> {
    if key in m then Some(m[key]) else None
  }

  function ApplyAll<V>(m: map<nat, V>, ops: seq<Op<V>>): map<nat, V>
    decreases |ops|
  {
    if ops == [] then m else ApplyAll(Apply(m, ops[0]), ops[1..])
  }

  function AnswerOf<V>(m: map<nat, V>, op: Op<V>): seq<Option<V>> {
    if op.Find? then [Lookup(m, op.key)] else []
  }

  /** What the finds of a run answer, in order. */
  function Answers<V>(m: map<nat, V>, ops: seq<Op<V>>): seq<Option<V>>
    decreases |ops|
  {
    if ops == [] then [] else AnswerOf(m, ops[0]) + Answers(Apply(m, ops[0]), ops[1..])
  }

  /** The operations of a run that concern one key. */
  function About<V>(ops: seq<Op<V>>, key: nat): seq<Op<V>> {
    if ops == [] then []
    else (if ops[0].Clear? || ops[0].key == key then [ops[0]] else []) + About(ops[1..], key)
  }

  /** Keys do not interfere: what a key maps to depends only on the operations that name it, and on clears. */
  lemma {:induction false} KeysAreIndependent<V>(m: map<nat, V>, m': map<nat, V>, ops: seq<Op<V>>, key: nat)
    requires Lookup(m, key) == Lookup(m', key)
    ensures Lookup(ApplyAll(m, ops), key) == Lookup(ApplyAll(m', About(ops, key)), key)
    decreases |ops|
  {
    if ops != [] {
      var rest := About(ops[1..], key);
      if ops[0].Clear? || ops[0].key == key {
        assert About(ops, key) == [ops[0]] + rest && ([ops[0]] + rest)[1..] == rest;
        KeysAreIndependent(Apply(m, ops[0]), Apply(m', ops[0]), ops[1..], key);
      } else {
        assert About(ops, key) == rest;
        KeysAreIndependent(Apply(m, ops[0]), m', ops[1..], key);
      }
    }
  }

  /** What the operations up to the last leave under a key, told from the operations alone: the latest one about the
      key decides, and an insert that does not overwrite gives way to a value that is there. */
  function LastWrite<V>(ops: seq<Op<V>>, key: nat): Option<V> {
    if ops == [] then None else
      var last, before := ops[|ops| - 1], LastWrite(ops[..|ops| - 1], key);
      match last
      case Clear => None
      case Remove(k) => if k == key then None else before
      case Find(_) => before
      case Insert(k, v, overwritten) => if k != key || (before.Some? && !overwritten) then before else Some(v)
  }

  lemma {:induction false} ApplyLast<V>(m: map<nat, V>, ops: seq<Op<V>>)
    requires ops != []
    ensures ApplyAll(m, ops) == Apply(ApplyAll(m, ops[..|ops| - 1]), ops[|ops| - 1])
    decreases |ops|
  {
    if |ops| > 1 {
      var n := |ops| - 1;
      ApplyLast(Apply(m, ops[0]), ops[1..]);
      assert ops[1..][..n - 1] == ops[..n][1..] && ops[1..][n - 1] == ops[n];
    }
  }

  /** From the empty table every key has the value that the last write about it left. */
  lemma {:induction false} LastWriteStays<V>(ops: seq<Op<V>>, key: nat)
    ensures Lookup(ApplyAll(map[], ops), key) == LastWrite(ops, key)
    decreases |ops|
  {
    if ops != [] {
      ApplyLast(map[], ops);
      LastWriteStays(ops[..|ops| - 1], key);
    }
  }

  // ---------------------------------------------------------------------------------------------
  // One chain

  function BucketOf(key: nat, n: nat): (b: nat)
    requires n != 0
    ensures b < n
  {
    key % n
  }

  function At<V>(c: seq<HashEntry<V>>, i: nat): HashEntry?<V> {
    if i < |c| then c[i] else null
  }

  /** head starts the finite chain c. */
  ghost predicate Linked<V>(head: HashEntry?<V>, c: seq<HashEntry<V>>)
    reads c
  {
    head == At(c, 0) && forall i :: 0 <= i < |c| ==> c[i].next == At(c, i + 1)
  }

  /** All entries of c belong to bucket b of n, and have different keys. */
  ghost predicate InBucket<V>(c: seq<HashEntry<V>>, b: nat, n: nat)
    requires n != 0
  {
    && (forall i :: 0 <= i < |c| ==> BucketOf(c[i].key, n) == b)
    && (forall i, j :: 0 <= i < j < |c| ==> c[i].key != c[j].key)
  }

  ghost predicate Holds<V>(c: seq<HashEntry<V>>, m: map<nat, V>)
    reads c
  {
    forall i :: 0 <= i < |c| ==> c[i].key in m && m[c[i].key] == c[i].value
  }

  ghost predicate HasKey<V>(c: seq<HashEntry<V>>, key: nat) {
    exists i :: 0 <= i < |c| && c[i].key == key
  }

  lemma KeysAppended<V>(c: seq<HashEntry<V>>, nt: HashEntry<V>)
    ensures HasKey(c + [nt], nt.key)
    ensures forall k :: HasKey(c, k) ==> HasKey(c + [nt], k)
  {
    assert (c + [nt])[|c|] == nt;
    forall k | HasKey(c, k) ensures HasKey(c + [nt], k) {
      var i :| 0 <= i < |c| && c[i].key == k;
      assert (c + [nt])[i] == c[i];
    }
  }

  lemma NextOf<V>(head: HashEntry?<V>, c: seq<HashEntry<V>>, i: nat)
    requires Linked(head, c) && i < |c|
    ensures c[i].next == if i + 1 < |c| then c[i + 1] else null
  {
  }

  lemma OtherBucket<V>(c: seq<HashEntry<V>>, b: nat, n: nat, m: map<nat, V>, m': map<nat, V>, key: nat)
    requires n != 0 && InBucket(c, b, n) && Holds(c, m) && BucketOf(key, n) != b
    requires forall k :: k in m && k != key ==> k in m' && m'[k] == m[k]
    ensures Holds(c, m')
  {
    hide BucketOf;
  }

  lemma Appended<V>(c: seq<HashEntry<V>>, b: nat, n: nat, m: map<nat, V>, nt: HashEntry<V>)
    requires n != 0 && InBucket(c, b, n) && Holds(c, m) && BucketOf(nt.key, n) == b && nt.key !in m
    ensures InBucket(c + [nt], b, n) && Holds(c + [nt], m[nt.key := nt.value])
  {
    hide BucketOf;
  }

  lemma AppendedLinks<V>(head: HashEntry?<V>, c: seq<HashEntry<V>>, nt: HashEntry<V>)
    requires c != [] && head == c[0] && nt.next == null && c[|c| - 1].next == nt
    requires forall j :: 0 <= j < |c| - 1 ==> c[j].next == At(c, j + 1)
    ensures Linked(head, c + [nt])
  {
    var d := c + [nt];
    hide At;
    AtIs(d, 0);
    forall j | 0 <= j < |d| ensures d[j].next == At(d, j + 1) {
      AtIs(d, j + 1);
      AtIs(c, j + 1);
    }
  }

  lemma AtIs<V>(c: seq<HashEntry<V>>, i: nat)
    ensures At(c, i) == if i < |c| then c[i] else null
  {
  }

  function Cut<V>(c: seq<HashEntry<V>>, i: nat): seq<HashEntry<V>>
    requires i < |c|
  {
    c[..i] + c[i + 1..]
  }

  lemma CutOut<V>(c: seq<HashEntry<V>>, b: nat, n: nat, m: map<nat, V>, i: nat)
    requires n != 0 && i < |c| && InBucket(c, b, n) && Holds(c, m)
    ensures InBucket(Cut(c, i), b, n) && Holds(Cut(c, i), m - {c[i].key})
    ensures forall k :: HasKey(c, k) && k != c[i].key ==> HasKey(Cut(c, i), k)
    ensures forall j :: 0 <= j < |Cut(c, i)| ==> Cut(c, i)[j] in c && Cut(c, i)[j] != c[i]
  {
    hide BucketOf;
    var d := Cut(c, i);
    assert forall j :: 0 <= j < |d| ==> d[j] == c[if j < i then j else j + 1];
    forall k | HasKey(c, k) && k != c[i].key ensures HasKey(d, k) {
      var j :| 0 <= j < |c| && c[j].key == k;
      assert d[if j < i then j else j - 1] == c[j];
    }
  }

  /** Making the entry before c[i], or the head, skip c[i] leaves the chain without c[i]. */
  lemma CutLinks<V>(head: HashEntry?<V>, c: seq<HashEntry<V>>, i: nat)
    requires i < |c|
    requires forall j :: 0 <= j < |c| && j + 1 != i ==> c[j].next == At(c, j + 1)
    requires i > 0 ==> c[i - 1].next == At(c, i + 1) && head == c[0]
    requires i == 0 ==> head == At(c, 1)
    ensures Linked(head, Cut(c, i))
  {
    var d := Cut(c, i);
    hide At;
    AtIs(d, 0);
    AtIs(c, 1);
    forall j | 0 <= j < |d| ensures d[j].next == At(d, j + 1) {
      AtIs(d, j + 1);
      AtIs(c, j + 1);
      AtIs(c, j + 2);
    }
  }

  class ChainHashMap<V> {
    var table: array<HashEntry?<V>>
    var bucketNum: nat
    ghost var chains: seq<seq<HashEntry<V>>>
    ghost var contents: map<nat, V>
    ghost var Repr: set<HashEntry<V>>

    /** Distinct buckets share no entry and no entry occurs twice, because entries are told apart by keys. */
    ghost predicate Valid()
      reads this, table, Repr
    {
      && bucketNum != 0 && table.Length == bucketNum == |chains|
      && (forall b :: 0 <= b < bucketNum ==> BucketOk(b))
      && (forall key :: key in contents ==> HasKey(chains[BucketOf(key, bucketNum)], key))
    }

    ghost predicate BucketOk(b: nat)
      reads this, table, Repr
      requires bucketNum != 0 && table.Length == bucketNum == |chains| && b < bucketNum
    {
      var c := chains[b];
      && (forall i :: 0 <= i < |c| ==> c[i] in Repr)
      && Linked(table[b], c) && InBucket(c, b, bucketNum) && Holds(c, contents)
    }

    lemma Absent(key: nat)
      requires Valid() && !HasKey(chains[BucketOf(key, bucketNum)], key)
      ensures key !in contents
    {
    }

    lemma ChainFacts(b: nat, i: nat)
      requires Valid() && b < bucketNum && i < |chains[b]|
      ensures var c := chains[b];
              && table[b] == c[0] && InBucket(c, b, bucketNum) && Holds(c, contents)
              && (forall j :: 0 <= j < |c| ==> c[j].next == At(c, j + 1) && c[j] in Repr && (j != i ==> c[j] != c[i]))
    {
      hide BucketOf;
      assert BucketOk(b);
    }

    lemma Elsewhere(b: nat, i: nat)
      requires Valid() && b < bucketNum && i < |chains[b]|
      ensures forall b' :: 0 <= b' < bucketNum && b' != b ==> chains[b][i] !in chains[b']
    {
      hide BucketOf, Holds;
      assert BucketOk(b);
      forall b' | 0 <= b' < bucketNum && b' != b ensures chains[b][i] !in chains[b'] {
        assert BucketOk(b');
      }
    }

    lemma Present(b: nat, i: nat)
      requires Valid() && b < bucketNum && i < |chains[b]|
      ensures var e := chains[b][i]; e.key in contents && contents[e.key] == e.value && BucketOf(e.key, bucketNum) == b
    {
      assert BucketOk(b);
    }

    constructor (buckets: nat)
      requires buckets != 0
      ensures Valid() && contents == map[] && Repr == {} && fresh(table)
    {
      bucketNum := buckets;
      table := new HashEntry?<V>[buckets](_ => null);
      chains := seq(buckets, _ => []);
      contents := map[];
      Repr := {};
    }

    /** The entry of the key, through which the caller may read or overwrite the value; null if there is none. */
    method Find(key: nat) returns (entry: HashEntry?<V>)
      requires Valid()
      ensures entry == null <==> key !in contents
      ensures entry != null ==> entry in Repr && entry.key == key && contents[key] == entry.value
    {
      hide BucketOf, At;
      var hash := BucketOf(key, bucketNum);
      assert BucketOk(hash);
      entry := table[hash];
      ghost var c, i := chains[hash], 0;
      AtIs(c, 0);
      while entry != null && entry.key != key
        invariant i <= |c| && entry == At(c, i)
        invariant forall j :: 0 <= j < i ==> c[j].key != key
        decreases |c| - i
      {
        AtIs(c, i);
        AtIs(c, i + 1);
        entry := entry.next;
        i := i + 1;
      }
      AtIs(c, i);
      if entry == null {
        Absent(key);
      } else {
        Present(hash, i);
      }
    }

    /** table[hash] = new entry, for an empty bucket. */
    method StartChain(hash: nat, key: nat, value: V)
      requires Valid() && hash == BucketOf(key, bucketNum) && chains[hash] == []
      modifies this, table
      ensures Valid() && table == old(table) && fresh(Repr - old(Repr))
      ensures contents == old(contents)[key := value]
    {
      hide BucketOf, At;
      var nt := new HashEntry(key, value);
      table[hash] := nt;
      Repr := Repr + {nt};
      chains := chains[hash := [nt]];
      contents := contents[key := value];
      KeysAppended([], nt);
      assert [] + [nt] == [nt];
      AtIs([nt], 0);
      AtIs([nt], 1);
      assert Linked(nt, [nt]);
      assert InBucket([nt], hash, bucketNum);
      assert Holds([nt], contents);
      hide Linked, InBucket, Holds, HasKey;
      forall b | 0 <= b < bucketNum ensures BucketOk(b) {
        assert old(BucketOk(b));
        if b != hash {
          OtherBucket(chains[b], b, bucketNum, old(contents), contents, key);
        }
      }
    }

    /** entry->setValue(value) */
    method SetValue(entry: HashEntry<V>, value: V, ghost hash: nat, ghost i: nat)
      requires Valid() && hash < bucketNum && i < |chains[hash]| && entry == chains[hash][i]
      requires entry in Repr
      modifies this, entry
      ensures Valid() && table == old(table) && Repr == old(Repr)
      ensures contents == old(contents)[entry.key := value]
    {
      hide BucketOf, At;
      Present(hash, i);
      Elsewhere(hash, i);
      entry.value := value;
      contents := contents[entry.key := value];
      forall b | 0 <= b < bucketNum ensures BucketOk(b) {
        assert old(BucketOk(b));
        if b != hash {
          OtherBucket(chains[b], b, bucketNum, old(contents), contents, entry.key);
        }
      }
    }

    /** entry->setNext(new entry), for the last entry of a chain. */
    method SetNext(entry: HashEntry<V>, key: nat, value: V, ghost hash: nat)
      requires Valid() && hash == BucketOf(key, bucketNum) && key !in contents
      requires chains[hash] != [] && entry == chains[hash][|chains[hash]| - 1]
      requires entry in Repr
      modifies this, entry
      ensures Valid() && table == old(table) && fresh(Repr - old(Repr))
      ensures contents == old(contents)[key := value]
    {
      hide BucketOf, At, Linked, InBucket, HasKey;
      ghost var c := chains[hash];
      Present(hash, |c| - 1);
      Elsewhere(hash, |c| - 1);
      ChainFacts(hash, |c| - 1);
      var nt := new HashEntry(key, value);
      entry.next := nt;
      Repr := Repr + {nt};
      KeysAppended(c, nt);
      Appended(c, hash, bucketNum, contents, nt);
      AppendedLinks(table[hash], c, nt);
      chains := chains[hash := c + [nt]];
      contents := contents[key := value];
      forall b | 0 <= b < bucketNum ensures BucketOk(b) {
        assert old(BucketOk(b));
        if b != hash {
          OtherBucket(chains[b], b, bucketNum, old(contents), contents, key);
        }
      }
    }

    /** `memory` tells whether operator new finds memory for an entry. */
    method Insert(key: nat, value: V, overwritten: bool, memory: bool) returns (ok: bool)
      requires Valid()
      modifies this, table, Repr
      ensures Valid() && table == old(table) && fresh(Repr - old(Repr))
      ensures ok == (memory || key in old(contents))
      ensures contents == if ok then Apply(old(contents), Op.Insert(key, value, overwritten)) else old(contents)
    {
      hide BucketOf, At;
      var hash := BucketOf(key, bucketNum);
      assert BucketOk(hash);
      ghost var c := chains[hash];
      AtIs(c, 0);
      var entry := table[hash];
      if entry == null {
        Absent(key);
        if !memory {
          return false;
        }
        StartChain(hash, key, value);
        return true;
      }
      ghost var i := 0;
      while true
        invariant unchanged(this) && unchanged(table) && unchanged(Repr)
        invariant i < |c| && entry == c[i]
        invariant forall j :: 0 <= j < i ==> c[j].key != key
        decreases |c| - i
      {
        NextOf(table[hash], c, i);
        if entry.key == key {
          Present(hash, i);
          if overwritten {
            SetValue(entry, value, hash, i);
          }
          return true;
        }
        if entry.next == null {
          break;
        }
        entry := entry.next;
        i := i + 1;
      }
      Absent(key);
      if !memory {
        return false;
      }
      SetNext(entry, key, value, hash);
      return true;
    }

    /** table[hash] = entry->getNext(), for the first entry of a chain. */
    method UnlinkFirst(entry: HashEntry<V>, hash: nat)
      requires Valid() && hash < bucketNum && chains[hash] != [] && entry == chains[hash][0]
      modifies this, table
      ensures Valid() && table == old(table) && Repr == old(Repr) - {entry}
      ensures contents == old(contents) - {entry.key}
    {
      hide BucketOf, At, Linked, InBucket, HasKey;
      ghost var c := chains[hash];
      Present(hash, 0);
      Elsewhere(hash, 0);
      ChainFacts(hash, 0);
      table[hash] := entry.next;
      CutLinks(table[hash], c, 0);
      CutOut(c, hash, bucketNum, contents, 0);
      Repr := Repr - {entry};
      chains := chains[hash := Cut(c, 0)];
      contents := contents - {entry.key};
      forall b | 0 <= b < bucketNum ensures BucketOk(b) {
        assert old(BucketOk(b));
        if b != hash {
          OtherBucket(chains[b], b, bucketNum, old(contents), contents, entry.key);
        }
      }
    }

    /** prevEntry->setNext(entry->getNext()), for entry number i of a chain. */
    method UnlinkNext(prev: HashEntry<V>, entry: HashEntry<V>, ghost hash: nat, ghost i: nat)
      requires Valid() && hash < bucketNum && 0 < i < |chains[hash]| && entry == chains[hash][i]
      requires prev == chains[hash][i - 1] && prev in Repr
      modifies this, prev
      ensures Valid() && table == old(table) && Repr == old(Repr) - {entry}
      ensures contents == old(contents) - {entry.key}
    {
      hide BucketOf, At, Linked, InBucket, HasKey;
      ghost var c := chains[hash];
      Present(hash, i);
      Elsewhere(hash, i);
      ChainFacts(hash, i);
      Elsewhere(hash, i - 1);
      ChainFacts(hash, i - 1);
      prev.next := entry.next;
      CutLinks(table[hash], c, i);
      CutOut(c, hash, bucketNum, contents, i);
      Repr := Repr - {entry};
      chains := chains[hash := Cut(c, i)];
      contents := contents - {entry.key};
      forall b | 0 <= b < bucketNum ensures BucketOk(b) {
        assert old(BucketOk(b));
        if b != hash {
          OtherBucket(chains[b], b, bucketNum, old(contents), contents, entry.key);
        }
      }
    }

    method Remove(key: nat)
      requires Valid()
      modifies this, table, Repr
      ensures Valid() && table == old(table) && Repr <= old(Repr)
      ensures contents == Apply(old(contents), Op.Remove(key))
    {
      hide BucketOf, At;
      var hash := BucketOf(key, bucketNum);
      assert BucketOk(hash);
      ghost var c := chains[hash];
      AtIs(c, 0);
      if table[hash] == null {
        Absent(key);
      } else {
        var prev: HashEntry?<V> := null;
        var entry := table[hash];
        ghost var i := 0;
        while entry.next != null && entry.key != key
          invariant i < |c| && entry == c[i] && prev == if i == 0 then null else c[i - 1]
          invariant forall j :: 0 <= j < i ==> c[j].key != key
          decreases |c| - i
          modifies {}
        {
          NextOf(table[hash], c, i);
          prev := entry;
          entry := entry.next;
          i := i + 1;
        }
        NextOf(table[hash], c, i);
        if entry.key == key {
          if prev == null {
            UnlinkFirst(entry, hash);
          } else {
            UnlinkNext(prev, entry, hash, i);
          }
        } else {
          Absent(key);
        }
      }
    }

    method Clear()
      requires Valid()
      modifies this, table
      ensures Valid() && table == old(table) && contents == map[] && Repr == {}
    {
      var b := 0;
      while b < bucketNum
        invariant b <= bucketNum == table.Length
        invariant forall i :: 0 <= i < b ==> table[i] == null
        modifies table
      {
        table[b] := null;
        b := b + 1;
      }
      chains := seq(bucketNum, _ => []);
      contents := map[];
      Repr := {};
    }

    method Do(op: Op<V>) returns (answer: seq<Option<V>>)
      requires Valid()
      modifies this, table, Repr
      ensures Valid() && table == old(table) && fresh(Repr - old(Repr))
      ensures answer == AnswerOf(old(contents), op) && contents == Apply(old(contents), op)
    {
      answer := [];
      match op {
        case Insert(key, value, overwritten) =>
          var ok := Insert(key, value, overwritten, true);
        case Remove(key) =>
          Remove(key);
        case Find(key) =>
          var entry := Find(key);
          answer := [if entry == null then None else Some(entry.value)];
        case Clear =>
          Clear();
      }
    }

    /** Any run of operations, with memory available, agrees with the finite map: in its answers and in
        what it leaves behind. */
    method Run(ops: seq<Op<V>>) returns (answers: seq<Option<V>>)
      requires Valid()
      modifies this, table, Repr
      ensures Valid()
      ensures answers == Answers(old(contents), ops) && contents == ApplyAll(old(contents), ops)
    {
      hide Apply, AnswerOf;
      ghost var start, before, nodes := contents, table, Repr;
      answers := [];
      var n := 0;
      while n < |ops|
        invariant n <= |ops| && Valid() && table == before && fresh(Repr - nodes)
        invariant ApplyAll(contents, ops[n..]) == ApplyAll(start, ops)
        invariant answers + Answers(contents, ops[n..]) == Answers(start, ops)
      {
        assert ops[n..][0] == ops[n] && ops[n..][1..] == ops[n + 1..];
        var answer := Do(ops[n]);
        answers := answers + answer;
        n := n + 1;
      }
    }
  }
}
