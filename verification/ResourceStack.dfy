/** container/resource_stack.h: resources exchanged through holders that move between two lock-free
    stacks.  Any number of instances share the memory; the stack operations run one instruction at a
    time, as in Lifo. */
module ResourceStack {
  import L = Lifo
  import opened Sums

  function Avail(q: nat): nat { 2 * q }
  function Empty(q: nat): nat { 2 * q + 1 }

  /** Where a thread is inside push, pop, create or produce of instance q; h is the holder in its hands. */
  datatype Pc =
    | Out
    | PushTake(q: nat, r: nat)           // inside _empty.pop()
    | PushFill(q: nat, r: nat, h: nat)   // about to store hoder->_p
    | PushGive(q: nat, r: nat, h: nat)   // inside _aviable.push(hoder)
    | PopTake(q: nat)                    // inside _aviable.pop()
    | PopRead(q: nat, h: nat)            // about to load hoder->_p
    | PopWipe(q: nat, h: nat, r: nat)    // about to clear hoder->_p
    | PopGive(q: nat, h: nat, r: nat)    // inside _empty.push(hoder)
    | MakeGive(q: nat, h: nat)           // create: inside _empty.push(hoder)
    | ProdGive(q: nat, h: nat, r: nat)   // produce: inside _empty.push(hoder)

  /** `p` is the `_p` field of each holder, `made[q]` the holders instance q has allocated. */
  datatype State = State(lifo: L.State, p: map<nat, nat>, pc: seq<Pc>, made: seq<set<nat>>)

  datatype Action =
    | CallPush(t: nat, q: nat, r: nat)
    | CallPop(t: nat, q: nat)
    | CallMake(t: nat, q: nat, n: nat, junk: nat)    // one round of create's loop; new returns n, junk is in its _p
    | CallProduce(t: nat, q: nat, r: nat, n: nat)    // r is what the producer returns; 0 means null
    | Exec(t: nat)

  datatype Outcome =
    | Running
    | PushReturned(q: nat, r: nat, ok: bool)
    | PopReturned(q: nat, r: nat)
    | MakeReturned(q: nat)
    | ProduceReturned(q: nat, r: nat)

  predicate InPush(pc: L.Pc, l: nat, n: nat) {
    (pc.PushLoadHead? || pc.PushLoadSync? || pc.PushStoreNext? || pc.PushCas?) && pc.l == l && pc.n == n
  }

  predicate InPop(pc: L.Pc, l: nat) {
    (pc.PopLoadHead? || pc.PopLoadSync? || pc.PopTest? || pc.PopLoadNext? || pc.PopCas?) && pc.l == l
  }

  /** The nodes a thread holds, by its position. */
  function HandOf(pc: Pc): set<nat> {
    if pc.Out? || pc.PushTake? || pc.PopTake? then {} else {pc.h}
  }

  ghost predicate Coupled(s: State, t: nat)
    requires t < |s.pc| == |s.lifo.pc|
  {
    var m := s.lifo.pc[t];
    match s.pc[t]
    case Out => m.Idle?
    case PushTake(q, r) => r != 0 && InPop(m, Empty(q))
    case PushFill(q, r, h) => r != 0 && m.Idle?
    case PushGive(q, r, h) => r != 0 && InPush(m, Avail(q), h) && L.Deref(s.p, h) == r
    case PopTake(q) => InPop(m, Avail(q))
    case PopRead(q, h) => m.Idle? && L.Deref(s.p, h) != 0
    case PopWipe(q, h, r) => r != 0 && m.Idle?
    case PopGive(q, h, r) => r != 0 && InPush(m, Empty(q), h)
    case MakeGive(q, h) => InPush(m, Empty(q), h)
    case ProdGive(q, h, r) => r != 0 && InPush(m, Empty(q), h)
  }

  ghost predicate Wf(s: State) {
    && L.Wf(s.lifo)
    && |s.pc| == |s.lifo.pc|
    && |s.lifo.lifos| == 2 * |s.made|
    && forall t :: 0 <= t < |s.pc| ==> (s.pc[t].Out? || s.pc[t].q < |s.made|) && Coupled(s, t)
  }

  /** The node a finished Lifo pop returns, 0 for null. */
  function PopResult(pc: L.Pc): nat
    requires pc.PopTest? || pc.PopCas?
  {
    if pc.PopTest? then 0 else pc.rax
  }

  function Instr(s: State, t: nat): State
    requires Wf(s) && t < |s.pc|
  {
    match s.pc[t]
    case Out => s
    case PushFill(q, r, h) =>
      s.(p := s.p[h := r], lifo := L.Step(s.lifo, L.CallPush(t, Avail(q), h)), pc := s.pc[t := PushGive(q, r, h)])
    case PopRead(q, h) => s.(pc := s.pc[t := PopWipe(q, h, L.Deref(s.p, h))])
    case PopWipe(q, h, r) =>
      s.(p := s.p[h := 0], lifo := L.Step(s.lifo, L.CallPush(t, Empty(q), h)), pc := s.pc[t := PopGive(q, h, r)])
    case pc =>
      var lifo := L.Instr(s.lifo, t);
      if !lifo.pc[t].Idle? then s.(lifo := lifo) else
        s.(lifo := lifo, pc := s.pc[t := AfterLifo(pc, s.lifo.pc[t])])
  }

  /** What a thread goes on to when its Lifo operation returns. */
  function AfterLifo(pc: Pc, m: L.Pc): Pc
    requires pc.PushTake? || pc.PopTake? ==> m.PopTest? || m.PopCas?
  {
    match pc
    case PushTake(q, r) => if PopResult(m) == 0 then Out else PushFill(q, r, PopResult(m))
    case PopTake(q) => if PopResult(m) == 0 then Out else PopRead(q, PopResult(m))
    case _ => Out
  }

  predicate Fresh(s: State, n: nat) {
    n != 0 && n !in s.lifo.next
  }

  /** An action its thread cannot take leaves the state alone, so any schedule is allowed. */
  function Step(s: State, a: Action): State
    requires Wf(s)
  {
    match a
    case CallPush(t, q, r) =>
      if t < |s.pc| && s.pc[t].Out? && q < |s.made| && r != 0 then
        s.(lifo := L.Step(s.lifo, L.CallPop(t, Empty(q))), pc := s.pc[t := PushTake(q, r)])
      else s
    case CallPop(t, q) =>
      if t < |s.pc| && s.pc[t].Out? && q < |s.made| then
        s.(lifo := L.Step(s.lifo, L.CallPop(t, Avail(q))), pc := s.pc[t := PopTake(q)])
      else s
    case CallMake(t, q, n, junk) =>
      if t < |s.pc| && s.pc[t].Out? && q < |s.made| && Fresh(s, n) then
        Allocate(s, t, q, n, junk).(pc := s.pc[t := MakeGive(q, n)])
      else s
    case CallProduce(t, q, r, n) =>
      if t < |s.pc| && s.pc[t].Out? && q < |s.made| && r != 0 && Fresh(s, n) then
        Allocate(s, t, q, n, 0).(pc := s.pc[t := ProdGive(q, n, r)])
      else s
    case Exec(t) => if t < |s.pc| then Instr(s, t) else s
  }

  /** A new holder n of instance q, whose _p is r, on its way onto _empty. */
  function Allocate(s: State, t: nat, q: nat, n: nat, r: nat): State
    requires Wf(s) && t < |s.pc| && q < |s.made| && Fresh(s, n)
  {
    s.(lifo := L.Step(L.Step(s.lifo, L.Alloc(t, n)), L.CallPush(t, Empty(q), n)),
       p := s.p[n := r],
       made := s.made[q := s.made[q] + {n}])
  }

  /** What the call returns to its caller in this step, if it returns. */
  function OutcomeOf(s: State, a: Action): Outcome
    requires Wf(s)
  {
    match a
    case CallPush(t, q, r) =>
      if t < |s.pc| && s.pc[t].Out? && q < |s.made| && r == 0 then PushReturned(q, r, false) else Running
    case CallProduce(t, q, r, n) =>
      if t < |s.pc| && s.pc[t].Out? && q < |s.made| && (r == 0 || n == 0) then ProduceReturned(q, 0) else Running
    case Exec(t) =>
      if t >= |s.pc| || (!s.lifo.pc[t].Idle? && !L.Instr(s.lifo, t).pc[t].Idle?) then Running else (
        match s.pc[t]
        case PushTake(q, r) => if PopResult(s.lifo.pc[t]) == 0 then PushReturned(q, r, false) else Running
        case PushGive(q, r, h) => PushReturned(q, r, true)
        case PopTake(q) => if PopResult(s.lifo.pc[t]) == 0 then PopReturned(q, 0) else Running
        case PopGive(q, h, r) => PopReturned(q, r)
        case MakeGive(q, h) => MakeReturned(q)
        case ProdGive(q, h, r) => ProduceReturned(q, r)
        case _ => Running
      )
    case _ => Running
  }

  /** The atomic event on the stacks that an action performs. */
  function EventOf(s: State, a: Action): L.Event
    requires Wf(s)
  {
    match a
    case CallMake(t, q, n, junk) =>
      if t < |s.pc| && s.pc[t].Out? && q < |s.made| && Fresh(s, n) then L.Allocated(t, n) else L.Silent
    case CallProduce(t, q, r, n) =>
      if t < |s.pc| && s.pc[t].Out? && q < |s.made| && r != 0 && Fresh(s, n) then L.Allocated(t, n) else L.Silent
    case Exec(t) => L.EventOf(s.lifo, L.Exec(t))
    case _ => L.Silent
  }

  function Init(instances: nat, threads: nat): State {
    State(L.Init(2 * instances, threads), map[], seq(threads, _ => Out), seq(instances, _ => {}))
  }

  // ---------------------------------------------------------------------------------------------
  // The invariant

  /** The resource a thread is carrying out of instance q: popped from _aviable, not yet returned; 0 for
      none. */
  function Leaving(pc: Pc, p: map<nat, nat>, q: nat): nat {
    match pc
    case PopRead(q', h) => if q' == q then L.Deref(p, h) else 0
    case PopWipe(q', h, r) => if q' == q then r else 0
    case PopGive(q', h, r) => if q' == q then r else 0
    case _ => 0
  }

  function One(r: nat): multiset<nat> {
    if r == 0 then multiset{} else multiset{r}
  }

  /** One if the thread has a holder of instance q in its hands. */
  function Holding(pc: Pc, q: nat): nat {
    if pc.Out? || pc.PushTake? || pc.PopTake? || pc.q != q then 0 else 1
  }

  function LeavingIn(p: map<nat, nat>, q: nat): Pc -> multiset<nat> { pc => One(Leaving(pc, p, q)) }
  function HoldingIn(q: nat): Pc -> nat { pc => Holding(pc, q) }
  function ContentIn(p: map<nat, nat>): nat -> multiset<nat> { n => One(L.Deref(p, n)) }

  /** The resources inside instance q: available, or popped by a thread that has not returned yet. */
  ghost function Stored(s: State, a: L.Abs, q: nat): multiset<nat>
    requires Avail(q) < |a.stacks|
  {
    Bag(a.stacks[Avail(q)], ContentIn(s.p)) + Bag(s.pc, LeavingIn(s.p, q))
  }

  /** The holders of instance q, counted where they are: two stacks and the hands of threads. */
  ghost function HolderCount(s: State, a: L.Abs, q: nat): nat
    requires Empty(q) < |a.stacks|
  {
    |a.stacks[Avail(q)]| + |a.stacks[Empty(q)]| + Sum(s.pc, HoldingIn(q))
  }

  ghost predicate InHands(pc: seq<Pc>, q: nat, n: nat) {
    exists t :: 0 <= t < |pc| && Holding(pc[t], q) == 1 && n in HandOf(pc[t])
  }

  /** Holder n is in one of the places instance q keeps its holders. */
  ghost predicate PlacedIn(s: State, a: L.Abs, q: nat, n: nat)
    requires Empty(q) < |a.stacks|
  {
    || n in a.stacks[Avail(q)]
    || n in a.stacks[Empty(q)]
    || InHands(s.pc, q, n)
  }

  ghost predicate Inv(s: State, a: L.Abs) {
    && Wf(s)
    && L.Rel(s.lifo, a)
    && (forall t :: 0 <= t < |s.pc| ==> s.lifo.held[t] == HandOf(s.pc[t]))
    && (forall q :: 0 <= q < |s.made| ==> Filled(s, a, q))
    && (forall q :: 0 <= q < |s.made| ==> s.made[q] <= s.lifo.next.Keys)
  }

  /** Every available holder carries a resource. */
  ghost predicate Filled(s: State, a: L.Abs, q: nat)
    requires Avail(q) < |a.stacks|
  {
    forall n :: n in a.stacks[Avail(q)] ==> L.Deref(s.p, n) != 0
  }

  lemma PushProgress(m: L.State, t: nat, l: nat, n: nat)
    requires L.Wf(m) && t < |m.pc| && InPush(m.pc[t], l, n)
    ensures var m', e := L.Instr(m, t), L.EventOf(m, L.Exec(t));
            && |m'.pc| == |m.pc| && |m'.lifos| == |m.lifos|
            && m'.pc == m.pc[t := m'.pc[t]]
            && (if m'.pc[t].Idle? then e == L.Pushed(t, l, n) && m'.held == m.held[t := m.held[t] - {n}]
                else InPush(m'.pc[t], l, n) && e == L.Silent && m'.held == m.held)
            && m'.next.Keys == m.next.Keys + (if m.pc[t].PushStoreNext? then {n} else {})
  {
  }

  lemma PopProgress(m: L.State, t: nat, l: nat)
    requires L.Wf(m) && t < |m.pc| && InPop(m.pc[t], l) && L.PcOk(m, t)
    ensures var m', e := L.Instr(m, t), L.EventOf(m, L.Exec(t));
            && |m'.pc| == |m.pc| && |m'.lifos| == |m.lifos| && m'.next == m.next
            && m'.pc == m.pc[t := m'.pc[t]]
            && (m'.pc[t].Idle? ==> m.pc[t].PopTest? || m.pc[t].PopCas?)
            && (if m'.pc[t].Idle? && PopResult(m.pc[t]) != 0
                then e == L.Popped(t, l, PopResult(m.pc[t])) && m'.held == m.held[t := m.held[t] + {PopResult(m.pc[t])}]
                else (e == L.Silent || e == L.SawEmpty(t, l)) && m'.held == m.held)
            && (!m'.pc[t].Idle? ==> InPop(m'.pc[t], l))
  {
  }

  // ---------------------------------------------------------------------------------------------
  // Every step keeps the invariant

  /** Thread t moves; what the others are coupled to does not change. */
  ghost predicate OthersKept(s: State, s': State, t: nat)
    requires t < |s.pc| == |s.lifo.pc|
  {
    && |s'.pc| == |s.pc| && |s'.lifo.pc| == |s.pc| && |s'.made| == |s.made|
    && |s'.lifo.lifos| == |s.lifo.lifos|
    && s'.pc == s.pc[t := s'.pc[t]]
    && s'.lifo.pc == s.lifo.pc[t := s'.lifo.pc[t]]
    && forall u :: 0 <= u < |s.pc| && u != t && !s.pc[u].Out? && !s.pc[u].PushTake? && !s.pc[u].PopTake? ==>
                     L.Deref(s'.p, s.pc[u].h) == L.Deref(s.p, s.pc[u].h)
  }

  lemma WfKept(s: State, s': State, t: nat)
    requires Wf(s) && t < |s.pc| && OthersKept(s, s', t) && L.Wf(s'.lifo)
    requires s'.pc[t].Out? || s'.pc[t].q < |s.made|
    requires Coupled(s', t)
    ensures Wf(s')
  {
    forall u | 0 <= u < |s.pc| ensures (s'.pc[u].Out? || s'.pc[u].q < |s'.made|) && Coupled(s', u) {
      assert Coupled(s, u);
    }
  }

  /** Threads hold different holders, and none of them is in a stack. */
  lemma Apart(s: State, a: L.Abs, t: nat, h: nat)
    requires Inv(s, a) && t < |s.pc| && h in HandOf(s.pc[t])
    ensures h != 0 && h in s.lifo.next && h in s.lifo.held[t]
    ensures forall u :: 0 <= u < |s.pc| && u != t ==> h !in HandOf(s.pc[u])
    ensures forall l :: 0 <= l < |a.stacks| ==> h !in a.stacks[l]
  {
    forall u | 0 <= u < |s.pc| && u != t ensures h !in HandOf(s.pc[u]) {
      assert s.lifo.held[u] == HandOf(s.pc[u]);
    }
  }

  lemma SimpleCall(s: State, a: L.Abs, act: Action)
    requires Inv(s, a) && (act.CallPush? || act.CallPop?)
    ensures EventOf(s, act) == L.Silent && Inv(Step(s, act), a)
  {
    hide L.Rel;
    var s' := Step(s, act);
    if s' != s {
      var t := act.t;
      assert Coupled(s, t);
      L.RelFacts(s.lifo, a);
      var la := L.CallPop(t, if act.CallPush? then Empty(act.q) else Avail(act.q));
      L.Simulation(s.lifo, a, la);
      WfKept(s, s', t);
      forall k | 0 <= k < |s'.made| ensures Filled(s', a, k) {
        assert Filled(s, a, k);
      }
    }
  }

  lemma Allocates(s: State, a: L.Abs, t: nat, q: nat, n: nat, r: nat, pc: Pc)
    requires Inv(s, a) && t < |s.pc| && s.pc[t].Out? && q < |s.made| && Fresh(s, n)
    requires pc == MakeGive(q, n) || (pc.ProdGive? && pc.q == q && pc.h == n && pc.r != 0)
    ensures L.Legal(a, L.Allocated(t, n))
    ensures Inv(Allocate(s, t, q, n, r).(pc := s.pc[t := pc]), L.Apply(a, L.Allocated(t, n)))
  {
    hide L.Rel;
    var s' := Allocate(s, t, q, n, r).(pc := s.pc[t := pc]);
    assert Coupled(s, t);
    L.RelFacts(s.lifo, a);
    L.Simulation(s.lifo, a, L.Alloc(t, n));
    var a' := L.Apply(a, L.Allocated(t, n));
    var m := L.Step(s.lifo, L.Alloc(t, n));
    L.Simulation(m, a', L.CallPush(t, Empty(q), n));
    L.RelFacts(s'.lifo, a');
    forall u | 0 <= u < |s.pc| && u != t && !s.pc[u].Out? && !s.pc[u].PushTake? && !s.pc[u].PopTake?
      ensures s.pc[u].h != n
    {
      Apart(s, a, u, s.pc[u].h);
    }
    WfKept(s, s', t);
    forall k | 0 <= k < |s'.made| ensures Filled(s', a', k) {
      assert Filled(s, a, k);
    }
  }

  lemma Writes(s: State, a: L.Abs, t: nat)
    requires Inv(s, a) && t < |s.pc| && (s.pc[t].PushFill? || s.pc[t].PopWipe?)
    ensures Inv(Instr(s, t), a)
  {
    hide L.Rel;
    var s', h := Instr(s, t), s.pc[t].h;
    assert Coupled(s, t);
    Apart(s, a, t, h);
    L.RelFacts(s.lifo, a);
    var l := if s.pc[t].PushFill? then Avail(s.pc[t].q) else Empty(s.pc[t].q);
    L.Simulation(s.lifo, a, L.CallPush(t, l, h));
    forall u | 0 <= u < |s.pc| && u != t && !s.pc[u].Out? && !s.pc[u].PushTake? && !s.pc[u].PopTake?
      ensures s.pc[u].h != h
    {
      Apart(s, a, u, s.pc[u].h);
    }
    WfKept(s, s', t);
    forall k | 0 <= k < |s'.made| ensures Filled(s', a, k) {
      assert Filled(s, a, k);
    }
  }

  lemma Reads(s: State, a: L.Abs, t: nat)
    requires Inv(s, a) && t < |s.pc| && s.pc[t].PopRead?
    ensures Inv(Instr(s, t), a)
  {
    hide L.Rel;
    assert Coupled(s, t);
    L.RelFacts(s.lifo, a);
    var s' := Instr(s, t);
    WfKept(s, s', t);
    forall k | 0 <= k < |s'.made| ensures Filled(s', a, k) {
      assert Filled(s, a, k);
    }
  }

  predicate Inside(pc: Pc) {
    pc.PushTake? || pc.PushGive? || pc.PopTake? || pc.PopGive? || pc.MakeGive? || pc.ProdGive?
  }

  lemma Takes(s: State, a: L.Abs, t: nat)
    requires Inv(s, a) && t < |s.pc| && (s.pc[t].PushTake? || s.pc[t].PopTake?)
    ensures L.Legal(a, L.EventOf(s.lifo, L.Exec(t)))
    ensures Inv(Instr(s, t), L.Apply(a, L.EventOf(s.lifo, L.Exec(t))))
  {
    hide L.Rel;
    hide L.Instr;
    hide L.EventOf;
    assert Coupled(s, t);
    L.RelFacts(s.lifo, a);
    L.Simulation(s.lifo, a, L.Exec(t));
    var s', e := Instr(s, t), L.EventOf(s.lifo, L.Exec(t));
    var a' := L.Apply(a, e);
    var pc := s.pc[t];
    PopProgress(s.lifo, t, if pc.PushTake? then Empty(pc.q) else Avail(pc.q));
    if e.Popped? && pc.PopTake? {
      assert Filled(s, a, pc.q);
    }
    WfKept(s, s', t);
    forall k | 0 <= k < |s'.made| ensures Filled(s', a', k) {
      assert Filled(s, a, k);
    }
  }

  lemma Gives(s: State, a: L.Abs, t: nat)
    requires Inv(s, a) && t < |s.pc| && Inside(s.pc[t]) && !s.pc[t].PushTake? && !s.pc[t].PopTake?
    ensures L.Legal(a, L.EventOf(s.lifo, L.Exec(t)))
    ensures Inv(Instr(s, t), L.Apply(a, L.EventOf(s.lifo, L.Exec(t))))
  {
    hide L.Rel;
    hide L.Instr;
    hide L.EventOf;
    assert Coupled(s, t);
    L.RelFacts(s.lifo, a);
    L.Simulation(s.lifo, a, L.Exec(t));
    var s', e := Instr(s, t), L.EventOf(s.lifo, L.Exec(t));
    var a' := L.Apply(a, e);
    var pc := s.pc[t];
    PushProgress(s.lifo, t, if pc.PushGive? then Avail(pc.q) else Empty(pc.q), pc.h);
    Apart(s, a, t, pc.h);
    WfKept(s, s', t);
    forall k | 0 <= k < |s'.made| ensures Filled(s', a', k) {
      assert Filled(s, a, k);
    }
  }

  /** Whatever action comes next, it is one legal event on the abstract stacks and the invariant stays. */
  lemma StepKeepsInv(s: State, a: L.Abs, act: Action)
    requires Inv(s, a)
    ensures L.Legal(a, EventOf(s, act)) && Inv(Step(s, act), L.Apply(a, EventOf(s, act)))
  {
    hide L.Rel;
    match act
    case CallPush(t, q, r) => SimpleCall(s, a, act);
    case CallPop(t, q) => SimpleCall(s, a, act);
    case CallMake(t, q, n, junk) =>
      if t < |s.pc| && s.pc[t].Out? && q < |s.made| && Fresh(s, n) {
        Allocates(s, a, t, q, n, junk, MakeGive(q, n));
      }
    case CallProduce(t, q, r, n) =>
      if t < |s.pc| && s.pc[t].Out? && q < |s.made| && r != 0 && Fresh(s, n) {
        Allocates(s, a, t, q, n, 0, ProdGive(q, n, r));
      }
    case Exec(t) =>
      if t < |s.pc| {
        assert Coupled(s, t);
        if s.pc[t].PushTake? || s.pc[t].PopTake? {
          Takes(s, a, t);
        } else if Inside(s.pc[t]) {
          Gives(s, a, t);
        } else if s.pc[t].PopRead? {
          Reads(s, a, t);
        } else if s.pc[t].PushFill? || s.pc[t].PopWipe? {
          Writes(s, a, t);
        }
      }
  }

  // ---------------------------------------------------------------------------------------------
  // Holders and resources are conserved

  /** One if the action allocates a holder for instance q: a round of create, or a successful produce. */
  function Makes(s: State, act: Action, q: nat): nat
    requires Wf(s)
  {
    if (act.CallMake? || act.CallProduce?) && act.q == q && EventOf(s, act).Allocated? then 1 else 0
  }

  /** The resource a returning push has put in, 0 if none. */
  function Entered(o: Outcome, q: nat): nat {
    if o.PushReturned? && o.q == q && o.ok then o.r else 0
  }

  /** The resource a returning pop hands out, 0 if none. */
  function Left(o: Outcome, q: nat): nat {
    if o.PopReturned? && o.q == q then o.r else 0
  }

  /** What the move of one thread does to the two stacks of an instance. */
  lemma MoveShape(s: State, a: L.Abs, act: Action)
    requires Inv(s, a) && act.t < |s.pc|
    ensures L.Legal(a, EventOf(s, act))
    ensures |Step(s, act).pc| == |s.pc| && |Step(s, act).made| == |s.made|
    ensures Step(s, act).pc == s.pc[act.t := Step(s, act).pc[act.t]]
    ensures |L.Apply(a, EventOf(s, act)).stacks| == |a.stacks| == 2 * |s.made|
  {
    hide L.Rel;
    hide L.Instr;
    hide L.EventOf;
    StepKeepsInv(s, a, act);
    L.RelFacts(s.lifo, a);
    L.RelFacts(Step(s, act).lifo, L.Apply(a, EventOf(s, act)));
    assert Coupled(s, act.t);
    assert s.pc == s.pc[act.t := s.pc[act.t]];
  }

  lemma StepHolders(s: State, a: L.Abs, act: Action, q: nat)
    requires Inv(s, a) && q < |s.made|
    ensures L.Legal(a, EventOf(s, act)) && |Step(s, act).made| == |s.made|
    ensures |L.Apply(a, EventOf(s, act)).stacks| == |a.stacks|
    ensures |Step(s, act).made[q]| == |s.made[q]| + Makes(s, act, q)
    ensures HolderCount(Step(s, act), L.Apply(a, EventOf(s, act)), q) == HolderCount(s, a, q) + Makes(s, act, q)
  {
    hide L.Rel, L.Instr, L.EventOf;
    L.RelFacts(s.lifo, a);
    if act.t >= |s.pc| {
      NoThread(s, act);
    } else {
      hide Step, EventOf;
      MoveShape(s, a, act);
      MoveCounts(s, a, act, q);
      ThreadMoves(s.pc, act.t, Step(s, act).pc[act.t], q);
    }
  }

  /** What thread t has in hand is the only summand its move changes. */
  lemma ThreadMoves(pcs: seq<Pc>, t: nat, pc: Pc, q: nat)
    requires t < |pcs|
    ensures Sum(pcs[t := pc], HoldingIn(q)) + Holding(pcs[t], q) == Sum(pcs, HoldingIn(q)) + Holding(pc, q)
  {
    SumUpdate(pcs, t, pc, HoldingIn(q));
  }

  lemma MoveCounts(s: State, a: L.Abs, act: Action, q: nat)
    requires Inv(s, a) && q < |s.made| && act.t < |s.pc|
    requires L.Legal(a, EventOf(s, act)) && |a.stacks| == 2 * |s.made|
    requires |Step(s, act).pc| == |s.pc| && |Step(s, act).made| == |s.made|
    ensures var a' := L.Apply(a, EventOf(s, act));
            |a'.stacks| == |a.stacks| &&
            |a'.stacks[Avail(q)]| + |a'.stacks[Empty(q)]| + Holding(Step(s, act).pc[act.t], q)
              == |a.stacks[Avail(q)]| + |a.stacks[Empty(q)]| + Holding(s.pc[act.t], q) + Makes(s, act, q)
    ensures |Step(s, act).made[q]| == |s.made[q]| + Makes(s, act, q)
  {
    hide L.Rel, L.Instr, L.EventOf, Holding;
    L.RelFacts(s.lifo, a);
    if act.Exec? {
      TransferCounts(s, a, act.t, q);
    } else {
      CallCounts(s, act, q);
    }
  }

  lemma NoThread(s: State, act: Action)
    requires Wf(s) && act.t >= |s.pc|
    ensures Step(s, act) == s && EventOf(s, act) == L.Silent
    ensures forall q :: Left(OutcomeOf(s, act), q) == 0 && Entered(OutcomeOf(s, act), q) == 0
  {
  }

  lemma CallCounts(s: State, act: Action, q: nat)
    requires Wf(s) && q < |s.made| && act.t < |s.pc| && !act.Exec?
    requires forall k :: 0 <= k < |s.made| ==> s.made[k] <= s.lifo.next.Keys
    ensures |Step(s, act).pc| == |s.pc| && |Step(s, act).made| == |s.made|
    ensures Holding(Step(s, act).pc[act.t], q) == Holding(s.pc[act.t], q) + Makes(s, act, q)
    ensures |Step(s, act).made[q]| == |s.made[q]| + Makes(s, act, q)
    ensures EventOf(s, act) == L.Silent || EventOf(s, act).Allocated?
  {
    hide Wf, Step, EventOf, Makes;
    if act.CallPush? || act.CallPop? {
      SimpleCounts(s, act, q);
    } else {
      AllocCounts(s, act, q);
    }
  }

  lemma SimpleCounts(s: State, act: Action, q: nat)
    requires Wf(s) && act.t < |s.pc| && (act.CallPush? || act.CallPop?)
    ensures |Step(s, act).pc| == |s.pc| && Step(s, act).made == s.made && Makes(s, act, q) == 0
    ensures Holding(Step(s, act).pc[act.t], q) == Holding(s.pc[act.t], q)
    ensures EventOf(s, act) == L.Silent
  {
    hide L.Step, L.Wf, Coupled;
  }

  lemma AllocCounts(s: State, act: Action, q: nat)
    requires Wf(s) && q < |s.made| && act.t < |s.pc| && (act.CallMake? || act.CallProduce?)
    requires forall k :: 0 <= k < |s.made| ==> s.made[k] <= s.lifo.next.Keys
    ensures |Step(s, act).pc| == |s.pc| && |Step(s, act).made| == |s.made|
    ensures Holding(Step(s, act).pc[act.t], q) == Holding(s.pc[act.t], q) + Makes(s, act, q)
    ensures |Step(s, act).made[q]| == |s.made[q]| + Makes(s, act, q)
    ensures EventOf(s, act) == L.Silent || EventOf(s, act).Allocated?
  {
    hide L.Step, L.Wf, Coupled;
    if Makes(s, act, q) == 1 {
      assert Step(s, act).made[q] == s.made[q] + {act.n};
    }
  }

  /** A holder that leaves a stack is in the thread's hands, and the other way round. */
  lemma TransferCounts(s: State, a: L.Abs, t: nat, q: nat)
    requires Inv(s, a) && q < |s.made| && t < |s.pc|
    requires L.Legal(a, L.EventOf(s.lifo, L.Exec(t)))
    requires |a.stacks| == 2 * |s.made| && |Instr(s, t).pc| == |s.pc| && L.PcOk(s.lifo, t)
    ensures var a' := L.Apply(a, L.EventOf(s.lifo, L.Exec(t)));
            |a'.stacks| == |a.stacks| &&
            |a'.stacks[Avail(q)]| + |a'.stacks[Empty(q)]| + Holding(Instr(s, t).pc[t], q)
              == |a.stacks[Avail(q)]| + |a.stacks[Empty(q)]| + Holding(s.pc[t], q)
  {
    hide L.Rel;
    hide L.Instr;
    hide L.EventOf;
    assert Coupled(s, t);
    var pc := s.pc[t];
    if pc.PushTake? || pc.PopTake? {
      PopProgress(s.lifo, t, if pc.PushTake? then Empty(pc.q) else Avail(pc.q));
    } else if Inside(pc) {
      PushProgress(s.lifo, t, if pc.PushGive? then Avail(pc.q) else Empty(pc.q), pc.h);
    } else {
      IdleIsSilent(s, t);
    }
  }

  lemma IdleIsSilent(s: State, t: nat)
    requires Wf(s) && t < |s.pc| && s.lifo.pc[t].Idle?
    ensures L.EventOf(s.lifo, L.Exec(t)) == L.Silent
  {
  }

  /** The ways one move can change what instance q stores: not at all; a pop returns; a pop takes the
      top holder; a push adds one. */
  ghost predicate Shift(st: seq<nat>, st': seq<nat>, p: map<nat, nat>, x: nat, x': nat, inn: nat, out: nat) {
    || (st' == st && x' == x && inn == 0 && out == 0)
    || (st' == st && x' == 0 && inn == 0 && out == x)
    || (st != [] && st' == st[1..] && x == 0 && x' == L.Deref(p, st[0]) && inn == 0 && out == 0)
    || (st' != [] && st == st'[1..] && x == 0 && x' == 0 && inn == L.Deref(p, st'[0]) && out == 0)
  }

  lemma ShiftLaw(st: seq<nat>, st': seq<nat>, p: map<nat, nat>, x: nat, x': nat, inn: nat, out: nat)
    requires Shift(st, st', p, x, x', inn, out)
    ensures Bag(st', ContentIn(p)) + One(x') + One(out) == Bag(st, ContentIn(p)) + One(x) + One(inn)
  {
    var f := ContentIn(p);
    if st' == st {
    } else if st != [] && st' == st[1..] && x == 0 {
      TopContent(st, p);
      hide Bag, ContentIn;
    } else {
      TopContent(st', p);
      hide Bag, ContentIn;
    }
  }

  lemma TopContent(st: seq<nat>, p: map<nat, nat>)
    requires st != []
    ensures Bag(st, ContentIn(p)) == One(L.Deref(p, st[0])) + Bag(st[1..], ContentIn(p))
  {
    BagCons(st[0], st[1..], ContentIn(p));
    assert st == [st[0]] + st[1..];
    hide Bag;
  }

  lemma CallShift(s: State, act: Action, q: nat)
    requires Wf(s) && act.t < |s.pc| && !act.Exec?
    ensures |Step(s, act).pc| == |s.pc|
    ensures Leaving(Step(s, act).pc[act.t], s.p, q) == Leaving(s.pc[act.t], s.p, q)
    ensures Left(OutcomeOf(s, act), q) == 0 && Entered(OutcomeOf(s, act), q) == 0
    ensures EventOf(s, act) == L.Silent || EventOf(s, act).Allocated?
  {
    hide L.Step;
  }

  lemma ExecShift(s: State, a: L.Abs, t: nat, q: nat)
    requires Inv(s, a) && q < |s.made| && t < |s.pc|
    requires L.Legal(a, L.EventOf(s.lifo, L.Exec(t)))
    requires |a.stacks| == 2 * |s.made| && |Instr(s, t).pc| == |s.pc| && L.PcOk(s.lifo, t)
    ensures |L.Apply(a, L.EventOf(s.lifo, L.Exec(t))).stacks| == |a.stacks|
    ensures Shift(a.stacks[Avail(q)], L.Apply(a, L.EventOf(s.lifo, L.Exec(t))).stacks[Avail(q)], s.p,
                  Leaving(s.pc[t], s.p, q), Leaving(Instr(s, t).pc[t], s.p, q),
                  Entered(OutcomeOf(s, Exec(t)), q), Left(OutcomeOf(s, Exec(t)), q))
  {
    hide L.Rel, L.Instr, L.EventOf;
    assert Coupled(s, t);
    var pc := s.pc[t];
    if pc.PushTake? || pc.PopTake? {
      PopProgress(s.lifo, t, if pc.PushTake? then Empty(pc.q) else Avail(pc.q));
    } else if Inside(pc) {
      PushProgress(s.lifo, t, if pc.PushGive? then Avail(pc.q) else Empty(pc.q), pc.h);
    } else {
      IdleIsSilent(s, t);
    }
  }

  /** A write to `_p` is to the writer's own holder: nothing stored, and nothing another thread carries. */
  lemma WritesOwn(s: State, a: L.Abs, act: Action, h: nat)
    requires Inv(s, a) && act.t < |s.pc| && L.Deref(Step(s, act).p, h) != L.Deref(s.p, h)
    ensures forall l :: 0 <= l < |a.stacks| ==> h !in a.stacks[l]
    ensures forall u :: 0 <= u < |s.pc| && u != act.t ==> h !in HandOf(s.pc[u])
    ensures |Step(s, act).pc| == |s.pc| && !Step(s, act).pc[act.t].PopRead?
  {
    hide L.Rel, L.Instr, L.EventOf, L.Step;
    L.RelFacts(s.lifo, a);
    assert Coupled(s, act.t);
    if act.Exec? {
      Apart(s, a, act.t, h);
    } else {
      assert h == act.n;
      forall u | 0 <= u < |s.pc| && u != act.t ensures h !in HandOf(s.pc[u]) {
        assert s.lifo.held[u] == HandOf(s.pc[u]);
      }
    }
  }

  lemma ContentKept(s: State, a: L.Abs, act: Action, q: nat)
    requires Inv(s, a) && act.t < |s.pc| && q < |s.made|
    requires L.Legal(a, EventOf(s, act)) && |L.Apply(a, EventOf(s, act)).stacks| == |a.stacks| == 2 * |s.made|
    ensures var st' := L.Apply(a, EventOf(s, act)).stacks[Avail(q)];
            Bag(st', ContentIn(Step(s, act).p)) == Bag(st', ContentIn(s.p))
  {
    hide L.Rel, L.Instr, L.EventOf;
    var p' := Step(s, act).p;
    if p' != s.p {
      assert Coupled(s, act.t);
      if act.Exec? {
        IdleIsSilent(s, act.t);
      }
      var st := a.stacks[Avail(q)];
      forall i | 0 <= i < |st| ensures L.Deref(p', st[i]) == L.Deref(s.p, st[i]) {
        if L.Deref(p', st[i]) != L.Deref(s.p, st[i]) {
          WritesOwn(s, a, act, st[i]);
        }
      }
      BagCong(st, ContentIn(p'), ContentIn(s.p));
    }
  }

  lemma LeavingKept(s: State, a: L.Abs, act: Action, q: nat)
    requires Inv(s, a) && act.t < |s.pc|
    ensures |Step(s, act).pc| == |s.pc|
    ensures Bag(Step(s, act).pc, LeavingIn(Step(s, act).p, q)) == Bag(Step(s, act).pc, LeavingIn(s.p, q))
  {
    hide L.Rel, L.Instr, L.EventOf;
    MoveShape(s, a, act);
    hide Step;
    var s' := Step(s, act);
    forall u | 0 <= u < |s'.pc| ensures Leaving(s'.pc[u], s'.p, q) == Leaving(s'.pc[u], s.p, q) {
      if s'.pc[u].PopRead? && L.Deref(s'.p, s'.pc[u].h) != L.Deref(s.p, s'.pc[u].h) {
        WritesOwn(s, a, act, s'.pc[u].h);
      }
    }
    BagCong(s'.pc, LeavingIn(s'.p, q), LeavingIn(s.p, q));
  }

  lemma Cancel(st: multiset<nat>, st': multiset<nat>, pc: multiset<nat>, pc': multiset<nat>,
               x: multiset<nat>, x': multiset<nat>, inn: multiset<nat>, out: multiset<nat>)
    requires st' + x' + out == st + x + inn && pc' + x == pc + x'
    ensures st' + pc' + out == st + pc + inn
  {
    forall e: nat ensures (st' + pc' + out)[e] == (st + pc + inn)[e] {
      assert (st' + x' + out)[e] == (st + x + inn)[e] && (pc' + x)[e] == (pc + x')[e];
    }
  }

  lemma ShiftOf(s: State, a: L.Abs, act: Action, q: nat)
    requires Inv(s, a) && q < |s.made| && act.t < |s.pc|
    ensures |Step(s, act).pc| == |s.pc|
    ensures L.Legal(a, EventOf(s, act)) && |L.Apply(a, EventOf(s, act)).stacks| == |a.stacks| == 2 * |s.made|
    ensures Shift(a.stacks[Avail(q)], L.Apply(a, EventOf(s, act)).stacks[Avail(q)], s.p,
                  Leaving(s.pc[act.t], s.p, q), Leaving(Step(s, act).pc[act.t], s.p, q),
                  Entered(OutcomeOf(s, act), q), Left(OutcomeOf(s, act), q))
  {
    hide L.Rel, L.Instr, L.EventOf;
    MoveShape(s, a, act);
    L.RelFacts(s.lifo, a);
    if act.Exec? {
      ExecShift(s, a, act.t, q);
    } else {
      CallShift(s, act, q);
    }
  }

  /** Resources stored change only by a push that returns true and a pop that returns a resource. */
  lemma StepStored(s: State, a: L.Abs, act: Action, q: nat)
    requires Inv(s, a) && q < |s.made|
    ensures L.Legal(a, EventOf(s, act)) && |L.Apply(a, EventOf(s, act)).stacks| == |a.stacks| == 2 * |s.made|
    ensures Stored(Step(s, act), L.Apply(a, EventOf(s, act)), q) + One(Left(OutcomeOf(s, act), q))
            == Stored(s, a, q) + One(Entered(OutcomeOf(s, act), q))
  {
    hide L.Rel, L.Instr, L.EventOf, Step, EventOf, OutcomeOf, Left, Entered, Leaving;
    if act.t >= |s.pc| {
      L.RelFacts(s.lifo, a);
      NoThread(s, act);
    } else {
      ShiftOf(s, a, act, q);
      var s', a' := Step(s, act), L.Apply(a, EventOf(s, act));
      var x, x' := Leaving(s.pc[act.t], s.p, q), Leaving(s'.pc[act.t], s.p, q);
      var inn, out := Entered(OutcomeOf(s, act), q), Left(OutcomeOf(s, act), q);
      ShiftLaw(a.stacks[Avail(q)], a'.stacks[Avail(q)], s.p, x, x', inn, out);
      MoveShape(s, a, act);
      BagUpdate(s.pc, act.t, s'.pc[act.t], LeavingIn(s.p, q));
      Cancel(Bag(a.stacks[Avail(q)], ContentIn(s.p)), Bag(a'.stacks[Avail(q)], ContentIn(s.p)),
             Bag(s.pc, LeavingIn(s.p, q)), Bag(s'.pc, LeavingIn(s.p, q)), One(x), One(x'), One(inn), One(out));
      LeavingKept(s, a, act, q);
      ContentKept(s, a, act, q);
    }
  }

  // ---------------------------------------------------------------------------------------------
  // Every holder stays with its instance

  lemma StackPlaced(s: State, a: L.Abs, t: nat, q: nat, n: nat)
    requires Inv(s, a) && q < |s.made| && t < |s.pc| && |a.stacks| == 2 * |s.made| && L.PcOk(s.lifo, t)
    requires n in a.stacks[Avail(q)] || n in a.stacks[Empty(q)]
    requires L.Legal(a, L.EventOf(s.lifo, L.Exec(t)))
    ensures |L.Apply(a, L.EventOf(s.lifo, L.Exec(t))).stacks| == |a.stacks|
    ensures PlacedIn(Instr(s, t), L.Apply(a, L.EventOf(s.lifo, L.Exec(t))), q, n)
  {
    hide L.Instr, L.EventOf;
    assert Coupled(s, t);
    assert L.Exclusive(a);
    hide L.Rel, L.Exclusive;
    var pc := s.pc[t];
    hide Wf, Instr, PlacedIn, L.Apply, L.Legal;
    if pc.PushTake? || pc.PopTake? {
      PopPlaced(s, a, t, q, n);
    } else if Inside(pc) {
      PushPlaced(s, a, t, q, n);
    } else {
      IdlePlaced(s, a, t, q, n);
    }
  }

  lemma PushPlaced(s: State, a: L.Abs, t: nat, q: nat, n: nat)
    requires Wf(s) && q < |s.made| && t < |s.pc| && |a.stacks| == 2 * |s.made| && Inside(s.pc[t])
    requires !s.pc[t].PushTake? && !s.pc[t].PopTake?
    requires n in a.stacks[Avail(q)] || n in a.stacks[Empty(q)]
    requires L.Legal(a, L.EventOf(s.lifo, L.Exec(t)))
    ensures |L.Apply(a, L.EventOf(s.lifo, L.Exec(t))).stacks| == |a.stacks|
    ensures PlacedIn(Instr(s, t), L.Apply(a, L.EventOf(s.lifo, L.Exec(t))), q, n)
  {
    hide L.Instr, L.EventOf, L.Wf;
    assert Coupled(s, t);
    var pc := s.pc[t];
    PushProgress(s.lifo, t, if pc.PushGive? then Avail(pc.q) else Empty(pc.q), pc.h);
  }

  lemma IdlePlaced(s: State, a: L.Abs, t: nat, q: nat, n: nat)
    requires Wf(s) && q < |s.made| && t < |s.pc| && |a.stacks| == 2 * |s.made| && !Inside(s.pc[t])
    requires n in a.stacks[Avail(q)] || n in a.stacks[Empty(q)]
    requires L.Legal(a, L.EventOf(s.lifo, L.Exec(t)))
    ensures |L.Apply(a, L.EventOf(s.lifo, L.Exec(t))).stacks| == |a.stacks|
    ensures PlacedIn(Instr(s, t), L.Apply(a, L.EventOf(s.lifo, L.Exec(t))), q, n)
  {
    hide L.Instr, L.EventOf, L.Wf;
    assert Coupled(s, t);
    IdleIsSilent(s, t);
  }

  lemma PopPlaced(s: State, a: L.Abs, t: nat, q: nat, n: nat)
    requires Wf(s) && q < |s.made| && t < |s.pc| && |a.stacks| == 2 * |s.made| && L.PcOk(s.lifo, t)
    requires s.pc[t].PushTake? || s.pc[t].PopTake?
    requires n in a.stacks[Avail(q)] || n in a.stacks[Empty(q)]
    requires L.Exclusive(a) && L.Legal(a, L.EventOf(s.lifo, L.Exec(t)))
    ensures |L.Apply(a, L.EventOf(s.lifo, L.Exec(t))).stacks| == |a.stacks|
    ensures PlacedIn(Instr(s, t), L.Apply(a, L.EventOf(s.lifo, L.Exec(t))), q, n)
  {
    hide L.Instr, L.EventOf, L.Exclusive, L.Wf, L.PcOk;
    assert Coupled(s, t);
    var pc, s', e := s.pc[t], Instr(s, t), L.EventOf(s.lifo, L.Exec(t));
    var l := if pc.PushTake? then Empty(pc.q) else Avail(pc.q);
    PopProgress(s.lifo, t, l);
    if e.Popped? {
      assert a.stacks[l] == [e.n] + a.stacks[l][1..];
      if e.n == n {
        SameStack(a, l, if n in a.stacks[Avail(q)] then Avail(q) else Empty(q), n);
        assert Holding(s'.pc[t], q) == 1 && n in HandOf(s'.pc[t]);
      }
    }
  }

  lemma SameStack(a: L.Abs, l: nat, l': nat, n: nat)
    requires L.Exclusive(a) && l < |a.stacks| && l' < |a.stacks| && n in a.stacks[l] && n in a.stacks[l']
    ensures l == l'
  {
  }

  lemma HandPlaced(s: State, a: L.Abs, t: nat, q: nat, n: nat)
    requires Inv(s, a) && q < |s.made| && t < |s.pc| && |a.stacks| == 2 * |s.made| && L.PcOk(s.lifo, t)
    requires Holding(s.pc[t], q) == 1 && n in HandOf(s.pc[t])
    requires L.Legal(a, L.EventOf(s.lifo, L.Exec(t)))
    ensures |L.Apply(a, L.EventOf(s.lifo, L.Exec(t))).stacks| == |a.stacks| && |Instr(s, t).pc| == |s.pc|
    ensures PlacedIn(Instr(s, t), L.Apply(a, L.EventOf(s.lifo, L.Exec(t))), q, n)
  {
    hide L.Instr, L.EventOf, L.Rel;
    assert Coupled(s, t);
    var pc, s', e := s.pc[t], Instr(s, t), L.EventOf(s.lifo, L.Exec(t));
    if Inside(pc) {
      PushProgress(s.lifo, t, if pc.PushGive? then Avail(pc.q) else Empty(pc.q), n);
      if e.Pushed? {
        assert L.Apply(a, e).stacks[e.l][0] == n;
      } else {
        assert s'.pc[t] == pc;
      }
    } else {
      IdleIsSilent(s, t);
      assert Holding(s'.pc[t], q) == 1 && n in HandOf(s'.pc[t]);
    }
  }

  /** A holder moves between its own instance's stacks and the hands of threads working on it. */
  lemma StepPlaced(s: State, a: L.Abs, act: Action, q: nat, n: nat)
    requires Inv(s, a) && q < |s.made|
    requires (|a.stacks| == 2 * |s.made| && PlacedIn(s, a, q, n)) || (Makes(s, act, q) == 1 && n == act.n)
    ensures L.Legal(a, EventOf(s, act)) && |L.Apply(a, EventOf(s, act)).stacks| == |a.stacks| == 2 * |s.made|
    ensures PlacedIn(Step(s, act), L.Apply(a, EventOf(s, act)), q, n)
  {
    hide L.Rel, L.Instr, L.EventOf, L.Step;
    L.RelFacts(s.lifo, a);
    var t := act.t;
    if t >= |s.pc| {
      NoThread(s, act);
    } else {
      MoveShape(s, a, act);
      var s' := Step(s, act);
      if Makes(s, act, q) == 1 && n == act.n {
        assert Holding(s'.pc[t], q) == 1 && n in HandOf(s'.pc[t]);
      } else if n in a.stacks[Avail(q)] || n in a.stacks[Empty(q)] {
        if act.Exec? {
          StackPlaced(s, a, t, q, n);
        }
      } else {
        var u :| 0 <= u < |s.pc| && Holding(s.pc[u], q) == 1 && n in HandOf(s.pc[u]);
        if u != t {
          assert Holding(s'.pc[u], q) == 1 && n in HandOf(s'.pc[u]);
        } else if act.Exec? {
          HandPlaced(s, a, t, q, n);
        } else {
          assert Holding(s'.pc[u], q) == 1 && n in HandOf(s'.pc[u]);
        }
      }
    }
  }

  // ---------------------------------------------------------------------------------------------
  // Whole runs

  /** The state after a run, with the abstract stacks beside it. */
  ghost function Final(s: State, a: L.Abs, acts: seq<Action>): (f: (State, L.Abs))
    requires Inv(s, a)
    ensures Inv(f.0, f.1)
    decreases |acts|
  {
    hide L.Rel;
    if acts == [] then (s, a) else
      StepKeepsInv(s, a, acts[0]);
      Final(Step(s, acts[0]), L.Apply(a, EventOf(s, acts[0])), acts[1..])
  }

  /** The resources whose push returned true during a run. */
  ghost function Pushed(s: State, a: L.Abs, acts: seq<Action>, q: nat): multiset<nat>
    requires Inv(s, a)
    decreases |acts|
  {
    hide L.Rel;
    if acts == [] then multiset{} else
      StepKeepsInv(s, a, acts[0]);
      One(Entered(OutcomeOf(s, acts[0]), q)) + Pushed(Step(s, acts[0]), L.Apply(a, EventOf(s, acts[0])), acts[1..], q)
  }

  /** The resources that pop returned during a run. */
  ghost function Popped(s: State, a: L.Abs, acts: seq<Action>, q: nat): multiset<nat>
    requires Inv(s, a)
    decreases |acts|
  {
    hide L.Rel;
    if acts == [] then multiset{} else
      StepKeepsInv(s, a, acts[0]);
      One(Left(OutcomeOf(s, acts[0]), q)) + Popped(Step(s, acts[0]), L.Apply(a, EventOf(s, acts[0])), acts[1..], q)
  }

  /** The holders instance q allocated during a run: rounds of create plus produced resources. */
  ghost function MadeCount(s: State, a: L.Abs, acts: seq<Action>, q: nat): nat
    requires Inv(s, a)
    decreases |acts|
  {
    hide L.Rel;
    if acts == [] then 0 else
      StepKeepsInv(s, a, acts[0]);
      Makes(s, acts[0], q) + MadeCount(Step(s, acts[0]), L.Apply(a, EventOf(s, acts[0])), acts[1..], q)
  }

  lemma Join(a: multiset<nat>, b: multiset<nat>, c: multiset<nat>, l: multiset<nat>, p: multiset<nat>,
             e: multiset<nat>, i: multiset<nat>)
    requires b + l == a + e && c + p == b + i
    ensures c + (l + p) == a + (e + i)
  {
    forall x: nat ensures (c + (l + p))[x] == (a + (e + i))[x] {
      assert (b + l)[x] == (a + e)[x] && (c + p)[x] == (b + i)[x];
    }
  }

  /** Over every interleaving: what push accepted is what pop returned plus what the instance still
      stores, as multisets. */
  lemma {:induction false} RunConservesResources(s: State, a: L.Abs, acts: seq<Action>, q: nat)
    requires Inv(s, a) && q < |s.made|
    ensures var (s', a') := Final(s, a, acts);
            && Empty(q) < |a.stacks| && Empty(q) < |a'.stacks|
            && Stored(s', a', q) + Popped(s, a, acts, q) == Stored(s, a, q) + Pushed(s, a, acts, q)
    decreases |acts|
  {
    hide L.Rel, Step, OutcomeOf, EventOf;
    L.RelFacts(s.lifo, a);
    if acts != [] {
      var act, rest := acts[0], acts[1..];
      StepKeepsInv(s, a, act);
      StepStored(s, a, act, q);
      StepHolders(s, a, act, q);
      var s1, a1 := Step(s, act), L.Apply(a, EventOf(s, act));
      RunConservesResources(s1, a1, rest, q);
      var (s', a') := Final(s1, a1, rest);
      Join(Stored(s, a, q), Stored(s1, a1, q), Stored(s', a', q),
           One(Left(OutcomeOf(s, act), q)), Popped(s1, a1, rest, q),
           One(Entered(OutcomeOf(s, act), q)), Pushed(s1, a1, rest, q));
    }
  }

  /** Over every interleaving: the holders found in the two stacks and in threads' hands total the ones
      allocated, and each allocated holder is in one of those places. */
  lemma {:induction false} RunConservesHolders(s: State, a: L.Abs, acts: seq<Action>, q: nat)
    requires Inv(s, a) && q < |s.made| && Empty(q) < |a.stacks|
    requires HolderCount(s, a, q) == |s.made[q]|
    requires forall n :: n in s.made[q] ==> PlacedIn(s, a, q, n)
    ensures var (s', a') := Final(s, a, acts);
            && |s'.made| == |s.made| && Empty(q) < |a'.stacks|
            && HolderCount(s', a', q) == |s'.made[q]| == |s.made[q]| + MadeCount(s, a, acts, q)
            && (forall n :: n in s'.made[q] ==> PlacedIn(s', a', q, n))
    decreases |acts|
  {
    hide L.Rel, Step, OutcomeOf, EventOf, PlacedIn;
    L.RelFacts(s.lifo, a);
    if acts != [] {
      var act, rest := acts[0], acts[1..];
      StepKeepsInv(s, a, act);
      StepHolders(s, a, act, q);
      var s1, a1 := Step(s, act), L.Apply(a, EventOf(s, act));
      forall n | n in s1.made[q] ensures PlacedIn(s1, a1, q, n) {
        MadeBy(s, act, q);
        StepPlaced(s, a, act, q, n);
      }
      RunConservesHolders(s1, a1, rest, q);
    }
  }

  lemma MadeBy(s: State, act: Action, q: nat)
    requires Wf(s) && q < |s.made|
    ensures |Step(s, act).made| == |s.made|
    ensures Step(s, act).made[q] == s.made[q] + (if Makes(s, act, q) == 1 then {act.n} else {})
  {
    hide L.Instr, L.Step;
  }

  /** A holder is never in two places at once. */
  lemma OnePlace(s: State, a: L.Abs, q: nat, n: nat)
    requires Inv(s, a) && q < |s.made| && Empty(q) < |a.stacks|
    ensures n in a.stacks[Avail(q)] ==> n !in a.stacks[Empty(q)] && !InHands(s.pc, q, n)
    ensures n in a.stacks[Empty(q)] ==> n !in a.stacks[Avail(q)] && !InHands(s.pc, q, n)
    ensures forall t, u :: 0 <= t < |s.pc| && 0 <= u < |s.pc| && n in HandOf(s.pc[t]) && n in HandOf(s.pc[u]) ==> t == u
    ensures L.NoDup(a.stacks[Avail(q)]) && L.NoDup(a.stacks[Empty(q)])
  {
    forall t | 0 <= t < |s.pc| ensures s.lifo.held[t] == HandOf(s.pc[t]) {
    }
  }

  lemma InitInv(instances: nat, threads: nat)
    ensures Inv(Init(instances, threads), L.Abs(seq(2 * instances, _ => []), seq(threads, _ => {})))
  {
    L.InitRel(2 * instances, threads);
    var s := Init(instances, threads);
    forall t | 0 <= t < |s.pc| ensures Coupled(s, t) && (s.pc[t].Out? || s.pc[t].q < |s.made|) {
    }
  }

  /** From no holders at all, under any schedule: the holders in the stacks and in hands are the ones made,
      each made holder is in one of those places, and what push accepted is what pop returned plus what is
      still stored. */
  lemma RunFromInit(instances: nat, threads: nat, acts: seq<Action>, q: nat)
    requires q < instances
    ensures var s0, a0 := Init(instances, threads), L.Abs(seq(2 * instances, _ => []), seq(threads, _ => {}));
            && Inv(s0, a0)
            && (var (s, a) := Final(s0, a0, acts);
                && |s.made| == instances && Empty(q) < |a.stacks|
                && HolderCount(s, a, q) == |s.made[q]| == MadeCount(s0, a0, acts, q)
                && (forall n :: n in s.made[q] ==> PlacedIn(s, a, q, n))
                && Stored(s, a, q) + Popped(s0, a0, acts, q) == Pushed(s0, a0, acts, q))
  {
    var s0, a0 := Init(instances, threads), L.Abs(seq(2 * instances, _ => []), seq(threads, _ => {}));
    InitInv(instances, threads);
    NothingMade(instances, threads, q);
    hide Inv, Init, HolderCount, Stored, PlacedIn;
    RunConservesHolders(s0, a0, acts, q);
    RunConservesResources(s0, a0, acts, q);
  }

  lemma NothingMade(instances: nat, threads: nat, q: nat)
    requires q < instances
    ensures var s, a := Init(instances, threads), L.Abs(seq(2 * instances, _ => []), seq(threads, _ => {}));
            && |s.made| == instances && |a.stacks| == 2 * instances && s.made[q] == {}
            && HolderCount(s, a, q) == 0 && Stored(s, a, q) == multiset{}
  {
    var s := Init(instances, threads);
    SumZero(s.pc, HoldingIn(q));
    BagEmpty(s.pc, LeavingIn(s.p, q));
  }

  // ---------------------------------------------------------------------------------------------
  // What callers see of one operation

  /** A call stays in its operation until it returns, and then the thread is out. */
  lemma CallProgress(s: State, t: nat)
    requires Wf(s) && t < |s.pc| && L.PcOk(s.lifo, t)
    ensures |Instr(s, t).pc| == |s.pc| && Instr(s, t).pc == s.pc[t := Instr(s, t).pc[t]]
    ensures |Instr(s, t).lifo.pc| == |s.pc|
    ensures Instr(s, t).lifo.pc == s.lifo.pc[t := Instr(s, t).lifo.pc[t]]
    ensures Instr(s, t).made == s.made
    ensures var pc, pc', o := s.pc[t], Instr(s, t).pc[t], OutcomeOf(s, Exec(t));
            match pc
            case Out => o.Running? && pc'.Out?
            case PushTake(q, r) => if o.Running? then pc' == pc || (pc'.PushFill? && pc'.q == q && pc'.r == r)
                                   else o == PushReturned(q, r, false) && pc'.Out?
            case PushFill(q, r, h) => o.Running? && pc' == PushGive(q, r, h)
            case PushGive(q, r, h) => if o.Running? then pc' == pc else o == PushReturned(q, r, true) && pc'.Out?
            case PopTake(q) => if o.Running? then pc' == pc || (pc'.PopRead? && pc'.q == q)
                               else o == PopReturned(q, 0) && pc'.Out?
            case PopRead(q, h) => o.Running? && pc'.PopWipe? && pc'.q == q
            case PopWipe(q, h, r) => o.Running? && pc' == PopGive(q, h, r)
            case PopGive(q, h, r) => if o.Running? then pc' == pc else o == PopReturned(q, r) && pc'.Out?
            case MakeGive(q, h) => if o.Running? then pc' == pc else o == MakeReturned(q) && pc'.Out?
            case ProdGive(q, h, r) => if o.Running? then pc' == pc else o == ProduceReturned(q, r) && pc'.Out?
  {
    hide L.Instr, L.EventOf;
    assert Coupled(s, t);
    var pc := s.pc[t];
    if pc.PushTake? || pc.PopTake? {
      PopProgress(s.lifo, t, if pc.PushTake? then Empty(pc.q) else Avail(pc.q));
    } else if Inside(pc) {
      PushProgress(s.lifo, t, if pc.PushGive? then Avail(pc.q) else Empty(pc.q), pc.h);
    }
  }

  // ---------------------------------------------------------------------------------------------
  // The same exchange with its memory updated in place

  class Machine {
    const lifo: L.Machine
    var p: map<nat, nat>
    var pc: seq<Pc>
    var made: seq<set<nat>>

    function View(): State
      reads this, lifo
    {
      State(lifo.View(), p, pc, made)
    }

    constructor (instances: nat, threads: nat)
      ensures View() == Init(instances, threads) && fresh(lifo)
    {
      lifo := new L.Machine(2 * instances, threads);
      p, pc, made := map[], seq(threads, _ => Out), seq(instances, _ => {});
    }

    /** A new holder of instance q, about to go onto _empty; create leaves in its _p whatever was there,
        produce sets it to null. */
    method NewHolder(t: nat, q: nat, n: nat, r: nat)
      requires Wf(View()) && t < |pc| && q < |made| && Fresh(View(), n)
      modifies this, lifo
      ensures View() == Allocate(old(View()), t, q, n, r)
    {
      lifo.Take(L.Alloc(t, n));
      lifo.Take(L.CallPush(t, Empty(q), n));
      p := p[n := r];
      made := made[q := made[q] + {n}];
    }

    /** One step of thread t: an access to a holder, or one instruction of the stack operation it is in. */
    method Exec(t: nat)
      requires Wf(View()) && t < |pc|
      modifies this, lifo
      ensures View() == Instr(old(View()), t)
    {
      match pc[t]
      case Out =>
      case PushFill(q, r, h) =>
        p := p[h := r];
        lifo.Take(L.CallPush(t, Avail(q), h));
        pc := pc[t := PushGive(q, r, h)];
      case PopRead(q, h) =>
        pc := pc[t := PopWipe(q, h, L.Deref(p, h))];
      case PopWipe(q, h, r) =>
        p := p[h := 0];
        lifo.Take(L.CallPush(t, Empty(q), h));
        pc := pc[t := PopGive(q, h, r)];
      case _ =>
        var m := lifo.pc[t];
        lifo.Exec(t);
        if lifo.pc[t].Idle? {
          pc := pc[t := AfterLifo(pc[t], m)];
        }
    }

    method Take(act: Action)
      requires Wf(View())
      modifies this, lifo
      ensures View() == Step(old(View()), act)
    {
      match act
      case CallPush(t, q, r) =>
        if t < |pc| && pc[t].Out? && q < |made| && r != 0 {
          lifo.Take(L.CallPop(t, Empty(q)));
          pc := pc[t := PushTake(q, r)];
        }
      case CallPop(t, q) =>
        if t < |pc| && pc[t].Out? && q < |made| {
          lifo.Take(L.CallPop(t, Avail(q)));
          pc := pc[t := PopTake(q)];
        }
      case CallMake(t, q, n, junk) =>
        if t < |pc| && pc[t].Out? && q < |made| && Fresh(View(), n) {
          NewHolder(t, q, n, junk);
          pc := pc[t := MakeGive(q, n)];
        }
      case CallProduce(t, q, r, n) =>
        if t < |pc| && pc[t].Out? && q < |made| && r != 0 && Fresh(View(), n) {
          NewHolder(t, q, n, 0);
          pc := pc[t := ProdGive(q, n, r)];
        }
      case Exec(t) =>
        if t < |pc| {
          Exec(t);
        }
    }
  }
}
