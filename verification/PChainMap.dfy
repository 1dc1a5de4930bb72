/** container/pchain_map.h over container/chain_hash.h and util/array_lock.h: insert and find from any
    number of threads, each walking its bucket's chain one access at a time under the bucket's lock bit. */
module PChainMap {
  import A = ArrayLock

  datatype Option = None | Some(value: nat)

  datatype Entry = Entry(key: nat, value: nat)

  /** Where a thread is inside insert(k, v) or find(k); i is the entry of the chain it has reached. */
  datatype Pc =
    | Out
    | InsLock(k: nat, v: nat)             // AutoLock: inside lock
    | InsTest(k: nat, v: nat)             // table[hash] == NULL
    | InsHead(k: nat, v: nat)             // table[hash] = new entry
    | InsKey(k: nat, v: nat, i: nat)      // entry->getKey() == key
    | InsSet(k: nat, v: nat, i: nat)      // entry->setValue(value)
    | InsNext(k: nat, v: nat, i: nat)     // entry->getNext() == NULL
    | InsLink(k: nat, v: nat, i: nat)     // entry->setNext(new entry)
    | InsUnlock(k: nat)                   // ~AutoLock: inside unlock
    | FindLock(k: nat)
    | FindTest(k: nat)                    // table[hash] == NULL
    | FindKey(k: nat, i: nat)             // entry->getKey() != key
    | FindCopy(k: nat, i: nat)            // *res = *rt
    | FindUnlock(k: nat, res: Option)

  datatype State = State(lock: A.State, chains: seq<seq<Entry>>, pc: seq<Pc>)

  datatype Action =
    | CallInsert(t: nat, k: nat, v: nat)
    | CallFind(t: nat, k: nat)
    | Exec(t: nat)

  ghost predicate Wf(s: State) {
    && A.Wf(s.lock)
    && 0 < |s.chains| == s.lock.len
    && |s.pc| == |s.lock.pc|
  }

  function Bucket(s: State, k: nat): nat
    requires 0 < |s.chains|
  {
    k % |s.chains|
  }

  predicate Critical(pc: Pc) {
    || pc.InsTest? || pc.InsHead? || pc.InsKey? || pc.InsSet? || pc.InsNext? || pc.InsLink?
    || pc.FindTest? || pc.FindKey? || pc.FindCopy?
  }

  /** The entry at index i of a chain; a pointer past the end reads as an arbitrary entry. */
  function At(c: seq<Entry>, i: nat): Entry {
    if i < |c| then c[i] else Entry(0, 0)
  }

  /** What a step inside the critical section does to the chain. */
  function Touch(c: seq<Entry>, pc: Pc): seq<Entry> {
    match pc
    case InsHead(k, v) => [Entry(k, v)]
    case InsSet(k, v, i) => if i < |c| then c[i := Entry(c[i].key, v)] else c
    case InsLink(k, v, i) => if i < |c| then c[..i + 1] + [Entry(k, v)] else c
    case _ => c
  }

  /** Where the walk goes, by what the step reads in the chain. */
  function Walk(c: seq<Entry>, pc: Pc): Pc
    requires Critical(pc)
  {
    match pc
    case InsTest(k, v) => if c == [] then InsHead(k, v) else InsKey(k, v, 0)
    case InsHead(k, v) => InsUnlock(k)
    case InsKey(k, v, i) => if At(c, i).key == k then InsSet(k, v, i) else InsNext(k, v, i)
    case InsSet(k, v, i) => InsUnlock(k)
    case InsNext(k, v, i) => if i + 1 < |c| then InsKey(k, v, i + 1) else InsLink(k, v, i)
    case InsLink(k, v, i) => InsUnlock(k)
    case FindTest(k) => if c == [] then FindUnlock(k, None) else FindKey(k, 0)
    case FindKey(k, i) =>
      if At(c, i).key == k then FindCopy(k, i)
      else if i + 1 < |c| then FindKey(k, i + 1) else FindUnlock(k, None)
    case FindCopy(k, i) => FindUnlock(k, Some(At(c, i).value))
  }

  function Locked(pc: Pc): Pc
    requires pc.InsLock? || pc.FindLock?
  {
    match pc
    case InsLock(k, v) => InsTest(k, v)
    case FindLock(k) => FindTest(k)
  }

  function Instr(s: State, t: nat): State
    requires Wf(s) && t < |s.pc|
  {
    var pc := s.pc[t];
    if pc.Out? then s
    else if Critical(pc) then
      var b := Bucket(s, pc.k);
      var pc' := Walk(s.chains[b], pc);
      State(if Critical(pc') then s.lock else A.Step(s.lock, A.CallUnlock(t, b)),
            s.chains[b := Touch(s.chains[b], pc)],
            s.pc[t := pc'])
    else
      var lock := A.Step(s.lock, A.Exec(t));
      if !lock.pc[t].Idle? then s.(lock := lock)
      else s.(lock := lock, pc := s.pc[t := if pc.InsLock? || pc.FindLock? then Locked(pc) else Out])
  }

  function Step(s: State, a: Action): State
    requires Wf(s)
  {
    match a
    case CallInsert(t, k, v) =>
      if t < |s.pc| && s.pc[t].Out? then
        s.(lock := A.Step(s.lock, A.CallLock(t, Bucket(s, k))), pc := s.pc[t := InsLock(k, v)])
      else s
    case CallFind(t, k) =>
      if t < |s.pc| && s.pc[t].Out? then
        s.(lock := A.Step(s.lock, A.CallLock(t, Bucket(s, k))), pc := s.pc[t := FindLock(k)])
      else s
    case Exec(t) => if t < |s.pc| then Instr(s, t) else s
  }

  function Init(buckets: nat, threads: nat): State {
    State(A.Init(buckets, threads), seq(buckets, _ => []), seq(threads, _ => Out))
  }

  // ---------------------------------------------------------------------------------------------
  // The map it implements

  datatype Event =
    | Silent
    | Inserted(t: nat, k: nat, v: nat)
    | Found(t: nat, k: nat, v: nat)
    | Missed(t: nat, k: nat)

  /** The map operation a step performs: the write of an insert, the copy or the dead end of a find. */
  function EventOf(s: State, a: Action): Event
    requires Wf(s)
  {
    if !a.Exec? || a.t >= |s.pc| || !Critical(s.pc[a.t]) then Silent else
      var pc := s.pc[a.t];
      var pc' := Walk(s.chains[Bucket(s, pc.k)], pc);
      if pc'.InsUnlock? then Inserted(a.t, pc.k, pc.v)
      else if pc'.FindUnlock? then (if pc'.res.None? then Missed(a.t, pc.k) else Found(a.t, pc.k, pc'.res.value))
      else Silent
  }

  predicate Legal(m: map<nat, nat>, e: Event) {
    match e
    case Found(t, k, v) => k in m && m[k] == v
    case Missed(t, k) => k !in m
    case _ => true
  }

  function Apply(m: map<nat, nat>, e: Event): map<nat, nat> {
    if e.Inserted? then m[e.k := e.v] else m
  }

  // ---------------------------------------------------------------------------------------------
  // The invariant

  ghost predicate NoKey(c: seq<Entry>, k: nat, n: nat) {
    forall j :: 0 <= j < n && j < |c| ==> c[j].key != k
  }

  ghost predicate HasKey(c: seq<Entry>, k: nat) {
    exists j :: 0 <= j < |c| && c[j].key == k
  }

  /** Every key sits in its own bucket, once, with the value the map has for it. */
  ghost predicate ChainOk(c: seq<Entry>, b: nat, n: nat, m: map<nat, nat>)
    requires 0 < n
  {
    && (forall j :: 0 <= j < |c| ==> c[j].key % n == b && c[j].key in m && m[c[j].key] == c[j].value)
    && (forall i, j :: 0 <= i < j < |c| ==> c[i].key != c[j].key)
    && (forall k :: k in m && k % n == b ==> HasKey(c, k))
  }

  ghost predicate Locking(pc: A.Pc, pos: nat) {
    pc == A.LockSpin(pos) || ((pc.TryTest? || pc.TryRead? || pc.TryCas?) && pc.pos == pos && pc.on && pc.again)
  }

  ghost predicate Unlocking(pc: A.Pc, pos: nat) {
    pc == A.UnlockTest(pos) || ((pc.TryTest? || pc.TryRead? || pc.TryCas?) && pc.pos == pos && !pc.on && pc.again)
  }

  /** What a thread inside the critical section knows about its chain. */
  ghost predicate WalkOk(c: seq<Entry>, pc: Pc) {
    match pc
    case InsHead(k, v) => c == []
    case InsKey(k, v, i) => i < |c| && NoKey(c, k, i)
    case InsSet(k, v, i) => i < |c| && c[i].key == k
    case InsNext(k, v, i) => i < |c| && NoKey(c, k, i + 1)
    case InsLink(k, v, i) => i + 1 == |c| && NoKey(c, k, i + 1)
    case FindKey(k, i) => i < |c| && NoKey(c, k, i)
    case FindCopy(k, i) => i < |c| && c[i].key == k
    case _ => true
  }

  ghost predicate Coupled(s: State, t: nat)
    requires Wf(s) && t < |s.pc|
  {
    var pc, lp, h := s.pc[t], s.lock.pc[t], s.lock.holding[t];
    if pc.Out? then lp.Idle? && h == {}
    else
      var b := Bucket(s, pc.k);
      if pc.InsLock? || pc.FindLock? then Locking(lp, b) && h == {}
      else if pc.InsUnlock? || pc.FindUnlock? then Unlocking(lp, b) && h == {b}
      else lp.Idle? && h == {b} && WalkOk(s.chains[b], pc)
  }

  ghost predicate Rel(s: State, m: map<nat, nat>) {
    && Wf(s)
    && A.Inv(s.lock)
    && (forall t :: 0 <= t < |s.pc| ==> Coupled(s, t))
    && (forall b :: 0 <= b < |s.chains| ==> ChainOk(s.chains[b], b, |s.chains|, m))
  }

  lemma InitRel(buckets: nat, threads: nat)
    requires 0 < buckets
    ensures Rel(Init(buckets, threads), map[])
  {
    A.InitInv(buckets, threads);
  }

  // ---------------------------------------------------------------------------------------------
  // Every step is a legal operation on the map

  lemma LockProgress(m: A.State, t: nat, pos: nat)
    requires A.Inv(m) && t < |m.pc| && Locking(m.pc[t], pos)
    ensures var m' := A.Step(m, A.Exec(t));
            && A.Inv(m') && m'.len == m.len && |m'.pc| == |m.pc|
            && m'.pc == m.pc[t := m'.pc[t]]
            && (if m'.pc[t].Idle? then m'.holding == m.holding[t := m.holding[t] + {pos}]
                else Locking(m'.pc[t], pos) && m'.holding == m.holding)
  {
    A.StepKeepsInv(m, A.Exec(t));
    assert A.PcOk(m, t);
    hide A.Inv;
    assert m.pc == m.pc[t := m.pc[t]];
  }

  lemma UnlockProgress(m: A.State, t: nat, pos: nat)
    requires A.Inv(m) && t < |m.pc| && Unlocking(m.pc[t], pos)
    ensures var m' := A.Step(m, A.Exec(t));
            && A.Inv(m') && m'.len == m.len && |m'.pc| == |m.pc|
            && m'.pc == m.pc[t := m'.pc[t]]
            && (if m'.pc[t].Idle? then m'.holding == m.holding[t := m.holding[t] - {pos}]
                else Unlocking(m'.pc[t], pos) && m'.holding == m.holding)
  {
    A.StepKeepsInv(m, A.Exec(t));
    A.UnlockNeverRefused(m, t);
    assert A.PcOk(m, t);
    hide A.Inv;
    assert m.pc == m.pc[t := m.pc[t]];
  }

  /** A step that reads moves the walk along, and a find concludes what the map says. */
  lemma ReadOk(c: seq<Entry>, b: nat, n: nat, m: map<nat, nat>, pc: Pc)
    requires 0 < n && ChainOk(c, b, n, m) && Critical(pc) && WalkOk(c, pc) && pc.k % n == b
    requires !Walk(c, pc).InsUnlock?
    ensures WalkOk(c, Walk(c, pc)) && Touch(c, pc) == c
    ensures Walk(c, pc) == FindUnlock(pc.k, None) ==> pc.k !in m
    ensures Walk(c, pc).FindUnlock? && Walk(c, pc).res.Some? ==> pc.k in m && m[pc.k] == Walk(c, pc).res.value
  {
    assert pc.k in m ==> HasKey(c, pc.k);
  }

  /** A step that writes leaves a chain faithful to the updated map. */
  lemma WriteOk(c: seq<Entry>, b: nat, n: nat, m: map<nat, nat>, pc: Pc)
    requires 0 < n && ChainOk(c, b, n, m) && Critical(pc) && WalkOk(c, pc) && pc.k % n == b
    requires Walk(c, pc).InsUnlock?
    ensures ChainOk(Touch(c, pc), b, n, m[pc.k := pc.v])
  {
    var c', m' := Touch(c, pc), m[pc.k := pc.v];
    var at := if pc.InsSet? then pc.i else |c|;
    assert !pc.InsSet? ==> c' == c + [Entry(pc.k, pc.v)];
    assert c'[at] == Entry(pc.k, pc.v) && forall j :: 0 <= j < |c| && j != at ==> c'[j] == c[j];
    forall k | k in m' && k % n == b ensures HasKey(c', k) {
      if k != pc.k {
        assert HasKey(c, k);
        var j :| 0 <= j < |c| && c[j].key == k;
        assert c'[j].key == k;
      }
    }
  }

  /** Another bucket's chain does not mind an insert. */
  lemma OtherChainOk(c: seq<Entry>, b: nat, n: nat, m: map<nat, nat>, k: nat, v: nat)
    requires 0 < n && ChainOk(c, b, n, m) && k % n != b
    ensures ChainOk(c, b, n, m[k := v])
  {
  }

  lemma ChainsAfter(s: State, m: map<nat, nat>, t: nat)
    requires Rel(s, m) && t < |s.pc| && Critical(s.pc[t])
    ensures Legal(m, EventOf(s, Exec(t))) && |Instr(s, t).chains| == |s.chains|
    ensures WalkOk(Instr(s, t).chains[Bucket(s, s.pc[t].k)], Walk(s.chains[Bucket(s, s.pc[t].k)], s.pc[t]))
    ensures forall c :: 0 <= c < |s.chains| ==>
              ChainOk(Instr(s, t).chains[c], c, |s.chains|, Apply(m, EventOf(s, Exec(t))))
  {
    hide A.Inv, A.Step;
    assert Coupled(s, t);
    var pc := s.pc[t];
    var b := Bucket(s, pc.k);
    var s', m' := Instr(s, t), Apply(m, EventOf(s, Exec(t)));
    assert ChainOk(s.chains[b], b, |s.chains|, m);
    if Walk(s.chains[b], pc).InsUnlock? {
      WriteOk(s.chains[b], b, |s.chains|, m, pc);
    } else {
      ReadOk(s.chains[b], b, |s.chains|, m, pc);
    }
    hide ChainOk;
    forall c | 0 <= c < |s.chains| ensures ChainOk(s'.chains[c], c, |s.chains|, m') {
      if c != b && m' != m {
        OtherChainOk(s.chains[c], c, |s.chains|, m, pc.k, pc.v);
      }
    }
  }

  lemma CoupledAfter(s: State, m: map<nat, nat>, t: nat)
    requires Rel(s, m) && t < |s.pc| && Critical(s.pc[t])
    requires WalkOk(Instr(s, t).chains[Bucket(s, s.pc[t].k)], Walk(s.chains[Bucket(s, s.pc[t].k)], s.pc[t]))
    ensures Wf(Instr(s, t)) && |Instr(s, t).pc| == |s.pc| && Coupled(Instr(s, t), t)
  {
    assert Coupled(s, t);
    var b := Bucket(s, s.pc[t].k);
    WalkKeepsKey(s.chains[b], s.pc[t]);
    hide A.Inv, ChainOk, WalkOk, Walk, Touch;
  }

  lemma WalkKeepsKey(c: seq<Entry>, pc: Pc)
    requires Critical(pc)
    ensures !Walk(c, pc).Out? && Walk(c, pc).k == pc.k
    ensures Critical(Walk(c, pc)) || Walk(c, pc).InsUnlock? || Walk(c, pc).FindUnlock?
  {
  }

  lemma OtherCoupledAfter(s: State, m: map<nat, nat>, t: nat, u: nat)
    requires Rel(s, m) && t < |s.pc| && u < |s.pc| && t != u && Critical(s.pc[t])
    ensures Wf(Instr(s, t)) && |Instr(s, t).pc| == |s.pc| && Coupled(Instr(s, t), u)
  {
    assert Coupled(s, t) && Coupled(s, u);
    OtherBucket(s, m, t, u);
    hide A.Inv, ChainOk, WalkOk, Walk, Touch;
  }

  lemma CriticalStep(s: State, m: map<nat, nat>, t: nat)
    requires Rel(s, m) && t < |s.pc| && Critical(s.pc[t])
    ensures Legal(m, EventOf(s, Exec(t))) && Rel(Instr(s, t), Apply(m, EventOf(s, Exec(t))))
  {
    ChainsAfter(s, m, t);
    CoupledAfter(s, m, t);
    A.StepKeepsInv(s.lock, A.CallUnlock(t, Bucket(s, s.pc[t].k)));
    forall u | 0 <= u < |s.pc| ensures Coupled(Instr(s, t), u) {
      if u != t {
        OtherCoupledAfter(s, m, t, u);
      }
    }
    hide A.Inv, A.Step, ChainOk, Coupled, Walk, Touch;
  }

  /** Two threads inside critical sections are in different buckets. */
  lemma OtherBucket(s: State, m: map<nat, nat>, t: nat, u: nat)
    requires Rel(s, m) && t < |s.pc| && u < |s.pc| && t != u && Critical(s.pc[t])
    ensures Bucket(s, s.pc[t].k) in s.lock.holding[t] && Bucket(s, s.pc[t].k) !in s.lock.holding[u]
    ensures Critical(s.pc[u]) ==> Bucket(s, s.pc[u].k) != Bucket(s, s.pc[t].k)
  {
    assert Coupled(s, t) && Coupled(s, u);
  }

  lemma LockStep(s: State, m: map<nat, nat>, t: nat)
    requires Rel(s, m) && t < |s.pc| && !Critical(s.pc[t]) && !s.pc[t].Out?
    ensures Rel(Instr(s, t), m)
  {
    assert Coupled(s, t);
    var s', b := Instr(s, t), Bucket(s, s.pc[t].k);
    if s.pc[t].InsLock? || s.pc[t].FindLock? {
      LockProgress(s.lock, t, b);
    } else {
      UnlockProgress(s.lock, t, b);
    }
    hide A.Inv, A.Step;
    forall u | 0 <= u < |s.pc| ensures Coupled(s', u) {
      assert Coupled(s, u);
    }
  }

  lemma CallStep(s: State, m: map<nat, nat>, a: Action)
    requires Rel(s, m) && !a.Exec?
    ensures Rel(Step(s, a), m)
  {
    var s' := Step(s, a);
    if a.t < |s.pc| && s.pc[a.t].Out? {
      assert Coupled(s, a.t);
      A.StepKeepsInv(s.lock, A.CallLock(a.t, Bucket(s, a.k)));
      hide A.Inv;
      forall u | 0 <= u < |s.pc| ensures Coupled(s', u) {
        assert Coupled(s, u);
      }
    }
  }

  /** Forward simulation: whatever action comes next, it is one legal operation on the map, or none. */
  lemma Simulation(s: State, m: map<nat, nat>, a: Action)
    requires Rel(s, m)
    ensures Legal(m, EventOf(s, a)) && Rel(Step(s, a), Apply(m, EventOf(s, a)))
  {
    hide A.Inv, A.Step;
    if !a.Exec? {
      CallStep(s, m, a);
    } else if a.t < |s.pc| {
      if Critical(s.pc[a.t]) {
        CriticalStep(s, m, a.t);
      } else if !s.pc[a.t].Out? {
        LockStep(s, m, a.t);
      }
    }
  }

  /** Every access to a chain, to read it or to write it, is made while its bucket's bit is set and held by
      the accessing thread alone, and no other thread is accessing that chain. */
  lemma TouchedUnderLock(s: State, m: map<nat, nat>, t: nat, b: nat)
    requires Rel(s, m) && t < |s.pc| && Critical(s.pc[t]) && b == Bucket(s, s.pc[t].k)
    ensures b < s.lock.len && A.Bit(s.lock, b) && b in s.lock.holding[t]
    ensures forall u :: 0 <= u < |s.pc| && u != t ==> b !in s.lock.holding[u]
    ensures forall u :: 0 <= u < |s.pc| && u != t && Critical(s.pc[u]) ==> Bucket(s, s.pc[u].k) != b
  {
    assert Coupled(s, t);
    assert A.Held(s.lock, b);
    forall u | 0 <= u < |s.pc| && u != t
      ensures b !in s.lock.holding[u] && (Critical(s.pc[u]) ==> Bucket(s, s.pc[u].k) != b)
    {
      OtherBucket(s, m, t, u);
    }
  }

  /** A step outside the critical sections leaves every chain alone. */
  lemma OnlyCriticalTouches(s: State, t: nat)
    requires Wf(s) && t < |s.pc| && !Critical(s.pc[t])
    ensures Instr(s, t).chains == s.chains
  {
  }

  // ---------------------------------------------------------------------------------------------
  // Operations on different buckets

  /** What a step of thread t does to the lock, with c the chain of its bucket b. */
  function LockAfter(c: seq<Entry>, pc: Pc, t: nat, b: nat, lock: A.State): A.State
    requires A.Wf(lock)
  {
    if !Critical(pc) then A.Step(lock, A.Exec(t))
    else if Critical(Walk(c, pc)) then lock
    else A.Step(lock, A.CallUnlock(t, b))
  }

  /** Where it leaves the thread, with lp its position inside the lock afterwards. */
  function PcAfter(c: seq<Entry>, pc: Pc, lp: A.Pc): Pc {
    if Critical(pc) then Walk(c, pc)
    else if !lp.Idle? then pc
    else if pc.InsLock? || pc.FindLock? then Locked(pc) else Out
  }

  function ChainAfter(c: seq<Entry>, pc: Pc): seq<Entry> {
    if Critical(pc) then Touch(c, pc) else c
  }

  /** A step, taken apart. */
  lemma InstrParts(s: State, t: nat)
    requires Wf(s) && t < |s.pc| && !s.pc[t].Out?
    ensures var b := Bucket(s, s.pc[t].k);
            var c, pc := s.chains[b], s.pc[t];
            var lock := LockAfter(c, pc, t, b, s.lock);
            && |lock.pc| == |s.pc|
            && Instr(s, t) == State(lock, s.chains[b := ChainAfter(c, pc)], s.pc[t := PcAfter(c, pc, lock.pc[t])])
  {
    var b := Bucket(s, s.pc[t].k);
    assert s.chains == s.chains[b := s.chains[b]];
    assert s.pc == s.pc[t := s.pc[t]];
    hide Walk, Touch;
  }

  /** A call of unlock moves nothing but the caller, so it commutes with what others do to the lock. */
  lemma CallCommutes(m: A.State, t: nat, b: nat, u: nat)
    requires A.Wf(m) && t < |m.pc| && u < |m.pc| && t != u && m.pc[t].Idle? && b < m.len && b in m.holding[t]
    ensures var mt, mu := A.Step(m, A.CallUnlock(t, b)), A.Step(m, A.Exec(u));
            && A.Wf(mt) && A.Wf(mu)
            && A.Step(mt, A.Exec(u)) == A.Step(mu, A.CallUnlock(t, b))
  {
    A.StepShape(m, u);
    var mt, mu := A.Step(m, A.CallUnlock(t, b)), A.Instr(m, u);
    assert m.pc[t := A.UnlockTest(b)][u := mu.pc[u]] == m.pc[u := mu.pc[u]][t := A.UnlockTest(b)];
  }

  lemma CallsCommute(m: A.State, t: nat, b: nat, u: nat, c: nat)
    requires A.Wf(m) && t < |m.pc| && u < |m.pc| && t != u && b < m.len && c < m.len
    ensures A.Wf(A.Step(m, A.CallUnlock(t, b))) && A.Wf(A.Step(m, A.CallUnlock(u, c)))
    ensures A.Step(A.Step(m, A.CallUnlock(t, b)), A.CallUnlock(u, c))
            == A.Step(A.Step(m, A.CallUnlock(u, c)), A.CallUnlock(t, b))
  {
    assert m.pc[t := A.UnlockTest(b)][u := A.UnlockTest(c)] == m.pc[u := A.UnlockTest(c)][t := A.UnlockTest(b)];
  }

  ghost predicate LocksCommute(s: State, t: nat, u: nat)
    requires Wf(s) && t < |s.pc| && u < |s.pc| && !s.pc[t].Out? && !s.pc[u].Out?
  {
    var b, c := Bucket(s, s.pc[t].k), Bucket(s, s.pc[u].k);
    var lt := LockAfter(s.chains[b], s.pc[t], t, b, s.lock);
    var lu := LockAfter(s.chains[c], s.pc[u], u, c, s.lock);
    && A.Wf(lt) && A.Wf(lu)
    && LockAfter(s.chains[c], s.pc[u], u, c, lt) == LockAfter(s.chains[b], s.pc[t], t, b, lu)
  }

  /** Where a thread outside Out stands in the lock. */
  lemma LockPlace(s: State, m: map<nat, nat>, t: nat)
    requires Rel(s, m) && t < |s.pc| && !s.pc[t].Out?
    ensures var b := Bucket(s, s.pc[t].k);
            if Critical(s.pc[t]) then s.lock.pc[t].Idle? && b in s.lock.holding[t]
            else !s.lock.pc[t].Idle? && s.lock.pc[t].pos == b
  {
    assert Coupled(s, t);
  }

  lemma BothInLock(s: State, t: nat, u: nat)
    requires Wf(s) && A.Inv(s.lock) && t < |s.pc| && u < |s.pc| && t != u && !s.pc[t].Out? && !s.pc[u].Out?
    requires !Critical(s.pc[t]) && !Critical(s.pc[u])
    requires s.lock.pc[t].Idle? || s.lock.pc[u].Idle? || s.lock.pc[t].pos != s.lock.pc[u].pos
    ensures LocksCommute(s, t, u) <==> !A.Disturbs(s.lock, t, u) && !A.Disturbs(s.lock, u, t)
  {
    A.StepsCommuteIff(s.lock, t, u);
    A.StepShape(s.lock, t);
    A.StepShape(s.lock, u);
    hide A.Instr, A.Inv, A.Wf, A.Disturbs;
  }

  lemma OneInLock(s: State, t: nat, u: nat)
    requires Wf(s) && t < |s.pc| && u < |s.pc| && t != u && !s.pc[t].Out? && !s.pc[u].Out?
    requires Critical(s.pc[t]) && s.lock.pc[t].Idle? && Bucket(s, s.pc[t].k) in s.lock.holding[t]
    ensures LocksCommute(s, t, u) && LocksCommute(s, u, t)
    ensures !A.Disturbs(s.lock, t, u) && !A.Disturbs(s.lock, u, t)
  {
    var b, c := Bucket(s, s.pc[t].k), Bucket(s, s.pc[u].k);
    A.StepShape(s.lock, u);
    if Critical(s.pc[u]) {
      CallsCommute(s.lock, t, b, u, c);
    } else {
      CallCommutes(s.lock, t, b, u);
    }
    hide A.Instr, A.Wf, Walk;
  }

  lemma LocksCommuteIff(s: State, m: map<nat, nat>, t: nat, u: nat)
    requires Rel(s, m) && t < |s.pc| && u < |s.pc| && t != u && !s.pc[t].Out? && !s.pc[u].Out?
    requires Bucket(s, s.pc[t].k) != Bucket(s, s.pc[u].k)
    ensures LocksCommute(s, t, u) <==> !A.Disturbs(s.lock, t, u) && !A.Disturbs(s.lock, u, t)
  {
    LockPlace(s, m, t);
    LockPlace(s, m, u);
    hide LocksCommute, A.Disturbs, A.Inv;
    if Critical(s.pc[t]) {
      OneInLock(s, t, u);
    } else if Critical(s.pc[u]) {
      OneInLock(s, u, t);
    } else {
      BothInLock(s, t, u);
    }
  }

  ghost predicate Commute(s: State, t: nat, u: nat)
    requires Wf(s) && t < |s.pc| && u < |s.pc|
  {
    && Wf(Instr(s, t)) && Wf(Instr(s, u)) && |Instr(s, t).pc| == |Instr(s, u).pc| == |s.pc|
    && Instr(Instr(s, t), u) == Instr(Instr(s, u), t)
  }

  /** Nobody's position inside the lock is moved by another thread's step. */
  lemma OwnPlace(s: State, t: nat, u: nat)
    requires Wf(s) && t < |s.pc| && u < |s.pc| && t != u && !s.pc[t].Out?
    ensures var b := Bucket(s, s.pc[t].k);
            var lock := LockAfter(s.chains[b], s.pc[t], t, b, s.lock);
            && |lock.pc| == |s.pc| && lock.pc[u] == s.lock.pc[u]
  {
    A.StepShape(s.lock, t);
    hide A.Instr, Walk;
  }

  /** Any two steps of operations on different buckets, whether they lock, walk a chain or unlock, commute
      although their lock bits may share a byte, exactly when neither commits into a byte of the lock array
      that the other is about to read or compare. */
  lemma DifferentBucketsCommuteIff(s: State, m: map<nat, nat>, t: nat, u: nat)
    requires Rel(s, m) && t < |s.pc| && u < |s.pc| && t != u && !s.pc[t].Out? && !s.pc[u].Out?
    requires Bucket(s, s.pc[t].k) != Bucket(s, s.pc[u].k)
    ensures Commute(s, t, u) <==> !A.Disturbs(s.lock, t, u) && !A.Disturbs(s.lock, u, t)
  {
    LocksCommuteIff(s, m, t, u);
    StepWf(s, m, t);
    StepWf(s, m, u);
    InstrParts(s, t);
    InstrParts(s, u);
    hide Rel, A.Disturbs, A.Step, Instr, A.Wf;
    var st, su := Instr(s, t), Instr(s, u);
    InstrParts(st, u);
    InstrParts(su, t);
    OwnPlace(st, u, t);
    OwnPlace(su, t, u);
    hide LockAfter, PcAfter, ChainAfter;
    var b, c := Bucket(s, s.pc[t].k), Bucket(s, s.pc[u].k);
    var xt, xu := ChainAfter(s.chains[b], s.pc[t]), ChainAfter(s.chains[c], s.pc[u]);
    assert s.chains[b := xt][c := xu] == s.chains[c := xu][b := xt];
    var pt, pu := st.pc[t], su.pc[u];
    var stu, sut := Instr(st, u), Instr(su, t);
    assert stu.chains == sut.chains;
    if stu.lock == sut.lock {
      assert stu.pc == s.pc[t := pt][u := stu.pc[u]] && sut.pc == s.pc[u := pu][t := sut.pc[t]];
      assert sut.pc[t] == pt && stu.pc[u] == pu;
      assert s.pc[t := pt][u := pu] == s.pc[u := pu][t := pt];
    }
  }

  /** Inside the critical sections nothing disturbs. */
  lemma CriticalStepsCommute(s: State, m: map<nat, nat>, t: nat, u: nat)
    requires Rel(s, m) && t < |s.pc| && u < |s.pc| && t != u && Critical(s.pc[t]) && Critical(s.pc[u])
    ensures Commute(s, t, u)
  {
    OtherBucket(s, m, t, u);
    LockPlace(s, m, t);
    LockPlace(s, m, u);
    hide Rel, Commute;
    DifferentBucketsCommuteIff(s, m, t, u);
  }

  lemma StepWf(s: State, m: map<nat, nat>, t: nat)
    requires Rel(s, m) && t < |s.pc|
    ensures Wf(s) && Wf(Instr(s, t)) && |Instr(s, t).pc| == |s.pc| && |Instr(s, t).chains| == |s.chains|
  {
    Simulation(s, m, Exec(t));
    hide A.Inv, A.Step, Walk, Touch;
  }

  // ---------------------------------------------------------------------------------------------
  // Whole runs

  ghost function Final(s: State, m: map<nat, nat>, acts: seq<Action>): (s': State)
    requires Rel(s, m)
    ensures Wf(s')
    decreases |acts|
  {
    hide Rel;
    if acts == [] then WfOf(s, m); s else
      WfOf(s, m);
      Simulation(s, m, acts[0]);
      Final(Step(s, acts[0]), Apply(m, EventOf(s, acts[0])), acts[1..])
  }

  lemma WfOf(s: State, m: map<nat, nat>)
    requires Rel(s, m)
    ensures Wf(s)
  {
  }

  ghost function Events(s: State, m: map<nat, nat>, acts: seq<Action>): seq<Event>
    requires Rel(s, m)
    decreases |acts|
  {
    hide Rel;
    if acts == [] then [] else
      WfOf(s, m);
      Simulation(s, m, acts[0]);
      [EventOf(s, acts[0])] + Events(Step(s, acts[0]), Apply(m, EventOf(s, acts[0])), acts[1..])
  }

  /** A sequential execution of the operations, one after the other, on one finite map. */
  predicate LegalRun(m: map<nat, nat>, es: seq<Event>)
    decreases |es|
  {
    es == [] || (Legal(m, es[0]) && LegalRun(Apply(m, es[0]), es[1..]))
  }

  function Replay(m: map<nat, nat>, es: seq<Event>): map<nat, nat>
    decreases |es|
  {
    if es == [] then m else Replay(Apply(m, es[0]), es[1..])
  }

  /** Linearization: the operations of any interleaving, replayed one at a time, are a legal sequential run
      on one map, and the chains end up holding that map. */
  lemma {:induction false} RunLinearizes(s: State, m: map<nat, nat>, acts: seq<Action>)
    requires Rel(s, m)
    ensures LegalRun(m, Events(s, m, acts))
    ensures Rel(Final(s, m, acts), Replay(m, Events(s, m, acts)))
    decreases |acts|
  {
    hide Rel;
    if acts != [] {
      WfOf(s, m);
      Simulation(s, m, acts[0]);
      var s1, m1 := Step(s, acts[0]), Apply(m, EventOf(s, acts[0]));
      RunLinearizes(s1, m1, acts[1..]);
      var es := Events(s, m, acts);
      assert es[0] == EventOf(s, acts[0]) && es[1..] == Events(s1, m1, acts[1..]);
    }
  }

  /** The map that the chains hold is a function of the chains alone. */
  lemma ChainsFixMap(s: State, m: map<nat, nat>, m': map<nat, nat>)
    requires Rel(s, m) && Rel(s, m')
    ensures m == m'
  {
    forall k: nat ensures k in m ==> k in m' && m'[k] == m[k] {
      if k in m {
        KeyInChain(s, m, m', k);
      }
    }
    forall k: nat ensures k in m' ==> k in m {
      if k in m' {
        KeyInChain(s, m', m, k);
      }
    }
    assert m.Keys == m'.Keys;
  }

  lemma KeyInChain(s: State, m: map<nat, nat>, m': map<nat, nat>, k: nat)
    requires Rel(s, m) && Rel(s, m') && k in m
    ensures k in m' && m'[k] == m[k]
  {
    var c := s.chains[Bucket(s, k)];
    assert ChainOk(c, Bucket(s, k), |s.chains|, m) && ChainOk(c, Bucket(s, k), |s.chains|, m');
    assert HasKey(c, k);
  }

  ghost predicate OnlyRel(s: State, m: map<nat, nat>) {
    Rel(s, m) && forall m' :: Rel(s, m') ==> m' == m
  }

  /** From empty chains, under any schedule: the run is a legal sequential run from the empty map, and the map
      it leaves is the only one that the chains then hold. */
  lemma RunFromInit(buckets: nat, threads: nat, acts: seq<Action>)
    requires 0 < buckets
    ensures var s0 := Init(buckets, threads);
            && Rel(s0, map[]) && LegalRun(map[], Events(s0, map[], acts))
            && OnlyRel(Final(s0, map[], acts), Replay(map[], Events(s0, map[], acts)))
  {
    var s0 := Init(buckets, threads);
    InitRel(buckets, threads);
    hide Rel;
    RunLinearizes(s0, map[], acts);
    var s, m := Final(s0, map[], acts), Replay(map[], Events(s0, map[], acts));
    forall m' | Rel(s, m') ensures m' == m {
      ChainsFixMap(s, m', m);
    }
  }

  /** Thread t is inside an operation that has not taken effect yet. */
  function Pending(s: State, t: nat): nat
    requires t < |s.pc|
  {
    if s.pc[t].Out? || s.pc[t].InsUnlock? || s.pc[t].FindUnlock? then 0 else 1
  }

  function Calls(s: State, a: Action, t: nat): nat
    requires t < |s.pc|
  {
    if !a.Exec? && a.t == t && s.pc[t].Out? then 1 else 0
  }

  function TakesEffect(e: Event, t: nat): nat {
    if !e.Silent? && e.t == t then 1 else 0
  }

  ghost function CallCount(s: State, m: map<nat, nat>, acts: seq<Action>, t: nat): nat
    requires Rel(s, m) && t < |s.pc|
    decreases |acts|
  {
    hide Rel;
    if acts == [] then 0 else
      WfOf(s, m);
      Simulation(s, m, acts[0]);
      StepCounts(s, acts[0], t);
      Calls(s, acts[0], t) + CallCount(Step(s, acts[0]), Apply(m, EventOf(s, acts[0])), acts[1..], t)
  }

  function EffectCount(es: seq<Event>, t: nat): nat {
    if es == [] then 0 else TakesEffect(es[0], t) + EffectCount(es[1..], t)
  }

  lemma StepCounts(s: State, a: Action, t: nat)
    requires Wf(s) && t < |s.pc|
    ensures |Step(s, a).pc| == |s.pc|
    ensures TakesEffect(EventOf(s, a), t) + Pending(Step(s, a), t) == Calls(s, a, t) + Pending(s, t)
  {
    hide A.Step;
  }

  /** Over any run each call of a thread takes effect exactly once, between its call and its return. */
  lemma {:induction false} OneEventPerCall(s: State, m: map<nat, nat>, acts: seq<Action>, t: nat)
    requires Rel(s, m) && t < |s.pc|
    ensures |Final(s, m, acts).pc| == |s.pc|
    ensures EffectCount(Events(s, m, acts), t) + Pending(Final(s, m, acts), t)
            == CallCount(s, m, acts, t) + Pending(s, t)
    decreases |acts|
  {
    hide Rel, A.Step;
    if acts != [] {
      WfOf(s, m);
      Simulation(s, m, acts[0]);
      StepCounts(s, acts[0], t);
      var s1, m1 := Step(s, acts[0]), Apply(m, EventOf(s, acts[0]));
      OneEventPerCall(s1, m1, acts[1..], t);
      var es := Events(s, m, acts);
      assert es[0] == EventOf(s, acts[0]) && es[1..] == Events(s1, m1, acts[1..]);
    }
  }

  /** What find will return is what its event says, and it keeps it until it returns. */
  lemma AnswerIsTheEvent(s: State, m: map<nat, nat>, a: Action, t: nat)
    requires Rel(s, m) && t < |s.pc|
    ensures |Step(s, a).pc| == |s.pc|
    ensures EventOf(s, a).Found? && a.t == t ==> Step(s, a).pc[t] == FindUnlock(EventOf(s, a).k, Some(EventOf(s, a).v))
    ensures EventOf(s, a).Missed? && a.t == t ==> Step(s, a).pc[t] == FindUnlock(EventOf(s, a).k, None)
    ensures s.pc[t].FindUnlock? ==> Step(s, a).pc[t] == s.pc[t] || Step(s, a).pc[t].Out?
  {
    hide A.Step;
    if a.Exec? && a.t == t && Critical(s.pc[t]) {
      assert Coupled(s, t);
    }
  }

  // ---------------------------------------------------------------------------------------------
  // The same map with its memory updated in place

  class Machine {
    const lock: A.Machine
    var chains: seq<seq<Entry>>
    var pc: seq<Pc>

    ghost function View(): State
      reads this, lock, lock.ba, lock.ba.bitsBuf
    {
      State(lock.View(), chains, pc)
    }

    constructor (buckets: nat, threads: nat)
      ensures lock.Valid() && View().lock.len == buckets && View().chains == Init(buckets, threads).chains
      ensures View().pc == Init(buckets, threads).pc && A.Inv(View().lock)
      ensures fresh(lock) && fresh(lock.ba) && fresh(lock.ba.bitsBuf)
    {
      lock := new A.Machine(buckets, threads);
      chains, pc := seq(buckets, _ => []), seq(threads, _ => Out);
    }

    /** One access of thread t to the chain of its bucket, while it holds the bucket's bit. */
    method Access(t: nat)
      requires lock.Valid() && Wf(View()) && t < |pc| && Critical(pc[t])
      modifies this
      ensures View().lock == old(View()).lock
      ensures var s, b := old(View()), Bucket(old(View()), old(pc)[t].k);
              && chains == s.chains[b := Touch(s.chains[b], s.pc[t])]
              && pc == s.pc[t := Walk(s.chains[b], s.pc[t])]
    {
      var b := pc[t].k % |chains|;
      var c := chains[b];
      assert chains == chains[b := c];
      match pc[t]
      case InsTest(k, v) =>
        pc := pc[t := if c == [] then InsHead(k, v) else InsKey(k, v, 0)];
      case InsHead(k, v) =>
        chains := chains[b := [Entry(k, v)]];
        pc := pc[t := InsUnlock(k)];
      case InsKey(k, v, i) =>
        pc := pc[t := if At(c, i).key == k then InsSet(k, v, i) else InsNext(k, v, i)];
      case InsSet(k, v, i) =>
        if i < |c| {
          chains := chains[b := c[i := Entry(c[i].key, v)]];
        }
        pc := pc[t := InsUnlock(k)];
      case InsNext(k, v, i) =>
        pc := pc[t := if i + 1 < |c| then InsKey(k, v, i + 1) else InsLink(k, v, i)];
      case InsLink(k, v, i) =>
        if i < |c| {
          chains := chains[b := c[..i + 1] + [Entry(k, v)]];
        }
        pc := pc[t := InsUnlock(k)];
      case FindTest(k) =>
        pc := pc[t := if c == [] then FindUnlock(k, None) else FindKey(k, 0)];
      case FindKey(k, i) =>
        if At(c, i).key == k {
          pc := pc[t := FindCopy(k, i)];
        } else {
          pc := pc[t := if i + 1 < |c| then FindKey(k, i + 1) else FindUnlock(k, None)];
        }
      case FindCopy(k, i) =>
        pc := pc[t := FindUnlock(k, Some(At(c, i).value))];
    }

    method Exec(t: nat)
      requires lock.Valid() && Wf(View()) && t < |pc|
      modifies this, lock, lock.ba.bitsBuf
      ensures lock.Valid() && View() == Instr(old(View()), t)
    {
      if Critical(pc[t]) {
        Access(t);
        if !Critical(pc[t]) {
          lock.Take(A.CallUnlock(t, pc[t].k % |chains|));
        }
      } else if !pc[t].Out? {
        lock.Take(A.Exec(t));
        if lock.pc[t].Idle? {
          pc := pc[t := if pc[t].InsLock? || pc[t].FindLock? then Locked(pc[t]) else Out];
        }
      }
    }

    method Take(act: Action)
      requires lock.Valid() && Wf(View())
      modifies this, lock, lock.ba.bitsBuf
      ensures lock.Valid() && View() == Step(old(View()), act)
    {
      match act
      case CallInsert(t, k, v) =>
        if t < |pc| && pc[t].Out? {
          lock.Take(A.CallLock(t, k % |chains|));
          pc := pc[t := InsLock(k, v)];
        }
      case CallFind(t, k) =>
        if t < |pc| && pc[t].Out? {
          lock.Take(A.CallLock(t, k % |chains|));
          pc := pc[t := FindLock(k)];
        }
      case Exec(t) =>
        if t < |pc| {
          Exec(t);
        }
    }
  }
}
