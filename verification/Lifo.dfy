/** The lock-free stack of util/lifo.h and util/lifo.hpp (x86_64 push and pop).

    A state holds any number of stacks that share one pool of nodes, and any number of threads.  One
    step is one machine instruction that touches shared memory, so loads of `head` and of `sync`, the
    store to `node->next`, the load of `head->next` and the double-width compare-and-swap interleave
    freely.  Memory is sequentially consistent and `sync` does not wrap. */
module Lifo {

  /** The 16 aligned bytes that cmpxchg16b compares and swaps as one. */
  datatype Cell = Cell(head: nat, sync: nat)

  /** Where a thread is inside push or pop; the fields are the registers that hold loaded values. */
  datatype Pc =
    | Idle
    | PushLoadHead(l: nat, n: nat)
    | PushLoadSync(l: nat, n: nat, rax: nat)
    | PushStoreNext(l: nat, n: nat, rax: nat, rdx: nat)
    | PushCas(l: nat, n: nat, rax: nat, rdx: nat)
    | PopLoadHead(l: nat)
    | PopLoadSync(l: nat, rax: nat)
    | PopTest(l: nat, rax: nat, rdx: nat)
    | PopLoadNext(l: nat, rax: nat, rdx: nat)
    | PopCas(l: nat, rax: nat, rdx: nat, rbx: nat)

  /** `next` maps every allocated node to its link; address 0 is the null pointer.  `held[t]` are the
      nodes thread t owns: those it allocated or popped and has not pushed. */
  datatype State = State(lifos: seq<Cell>, next: map<nat, nat>, pc: seq<Pc>, held: seq<set<nat>>)

  datatype Action =
    | Alloc(t: nat, n: nat)
    | CallPush(t: nat, l: nat, n: nat)
    | CallPop(t: nat, l: nat)
    | Exec(t: nat)

  ghost predicate Wf(s: State) {
    && |s.held| == |s.pc|
    && forall t :: 0 <= t < |s.pc| ==> s.pc[t].Idle? || s.pc[t].l < |s.lifos|
  }

  function Deref(next: map<nat, nat>, p: nat): nat {
    if p in next then next[p] else 0
  }

  /** The thread has loaded a null head and is on its way to returning it. */
  predicate SawNull(pc: Pc) {
    (pc.PopLoadSync? || pc.PopTest?) && pc.rax == 0
  }

  /** One instruction of the operation thread t is in. */
  function Instr(s: State, t: nat): State
    requires Wf(s) && t < |s.pc|
  {
    match s.pc[t]
    case Idle => s
    case PushLoadHead(l, n) => s.(pc := s.pc[t := PushLoadSync(l, n, s.lifos[l].head)])
    case PushLoadSync(l, n, rax) => s.(pc := s.pc[t := PushStoreNext(l, n, rax, s.lifos[l].sync)])
    case PushStoreNext(l, n, rax, rdx) => s.(next := s.next[n := rax], pc := s.pc[t := PushCas(l, n, rax, rdx)])
    case PushCas(l, n, rax, rdx) =>
      if s.lifos[l] == Cell(rax, rdx) then
        s.(lifos := s.lifos[l := Cell(n, rdx + 1)], pc := s.pc[t := Idle], held := s.held[t := s.held[t] - {n}])
      else  // cmpxchg16b leaves the current pair in rdx:rax; jump back to the store
        s.(pc := s.pc[t := PushStoreNext(l, n, s.lifos[l].head, s.lifos[l].sync)])
    case PopLoadHead(l) => s.(pc := s.pc[t := PopLoadSync(l, s.lifos[l].head)])
    case PopLoadSync(l, rax) => s.(pc := s.pc[t := PopTest(l, rax, s.lifos[l].sync)])
    case PopTest(l, rax, rdx) =>
      s.(pc := s.pc[t := if rax == 0 then Idle else PopLoadNext(l, rax, rdx)])
    case PopLoadNext(l, rax, rdx) => s.(pc := s.pc[t := PopCas(l, rax, rdx, Deref(s.next, rax))])
    case PopCas(l, rax, rdx, rbx) =>
      if s.lifos[l] == Cell(rax, rdx) then
        s.(lifos := s.lifos[l := Cell(rbx, rdx + 1)], pc := s.pc[t := Idle], held := s.held[t := s.held[t] + {rax}])
      else  // jump back to the first load
        s.(pc := s.pc[t := PopLoadHead(l)])
  }

  /** Any schedule is allowed: an action that its thread cannot take leaves the state alone.  A push can
      be called only on a node the caller holds. */
  function Step(s: State, a: Action): (s': State)
    requires Wf(s)
  {
    match a
    case Alloc(t, n) =>
      if t < |s.pc| && n != 0 && n !in s.next then
        s.(next := s.next[n := 0], held := s.held[t := s.held[t] + {n}])
      else s
    case CallPush(t, l, n) =>
      if t < |s.pc| && s.pc[t].Idle? && l < |s.lifos| && n in s.held[t] then
        s.(pc := s.pc[t := PushLoadHead(l, n)])
      else s
    case CallPop(t, l) =>
      if t < |s.pc| && s.pc[t].Idle? && l < |s.lifos| then s.(pc := s.pc[t := PopLoadHead(l)]) else s
    case Exec(t) => if t < |s.pc| then Instr(s, t) else s
  }

  function Init(stacks: nat, threads: nat): State {
    State(seq(stacks, _ => Cell(0, 0)), map[], seq(threads, _ => Idle), seq(threads, _ => {}))
  }

  // ---------------------------------------------------------------------------------------------
  // The abstract stacks

  datatype Abs = Abs(stacks: seq<seq<nat>>, held: seq<set<nat>>)

  datatype Event =
    | Silent
    | Allocated(t: nat, n: nat)
    | Pushed(t: nat, l: nat, n: nat)
    | Popped(t: nat, l: nat, n: nat)
    | SawEmpty(t: nat, l: nat)

  /** The atomic stack operation an action performs; most instructions perform none.  A pop that will
      return null takes effect when it loads a null head. */
  function EventOf(s: State, a: Action): Event
    requires Wf(s)
  {
    match a
    case Alloc(t, n) => if t < |s.pc| && n != 0 && n !in s.next then Allocated(t, n) else Silent
    case CallPush(_, _, _) => Silent
    case CallPop(_, _) => Silent
    case Exec(t) =>
      if t >= |s.pc| then Silent else
        match s.pc[t]
        case PushCas(l, n, rax, rdx) => if s.lifos[l] == Cell(rax, rdx) then Pushed(t, l, n) else Silent
        case PopCas(l, rax, rdx, rbx) => if s.lifos[l] == Cell(rax, rdx) then Popped(t, l, rax) else Silent
        case PopLoadHead(l) => if s.lifos[l].head == 0 then SawEmpty(t, l) else Silent
        case _ => Silent
  }

  ghost predicate Allocatable(a: Abs, n: nat) {
    && n != 0
    && (forall l :: 0 <= l < |a.stacks| ==> n !in a.stacks[l])
    && (forall t :: 0 <= t < |a.held| ==> n !in a.held[t])
  }

  /** What a sequential stack demands of each event. */
  ghost predicate Legal(a: Abs, e: Event) {
    match e
    case Silent => true
    case Allocated(t, n) => t < |a.held| && Allocatable(a, n)
    case Pushed(t, l, n) => t < |a.held| && l < |a.stacks| && n in a.held[t]
    case Popped(t, l, n) => t < |a.held| && l < |a.stacks| && a.stacks[l] != [] && a.stacks[l][0] == n
    case SawEmpty(t, l) => t < |a.held| && l < |a.stacks| && a.stacks[l] == []
  }

  ghost function Apply(a: Abs, e: Event): Abs
    requires Legal(a, e)
  {
    match e
    case Silent => a
    case Allocated(t, n) => a.(held := a.held[t := a.held[t] + {n}])
    case Pushed(t, l, n) =>
      Abs(a.stacks[l := [n] + a.stacks[l]], a.held[t := a.held[t] - {n}])
    case Popped(t, l, n) =>
      Abs(a.stacks[l := a.stacks[l][1..]], a.held[t := a.held[t] + {n}])
    case SawEmpty(t, l) => a
  }

  // ---------------------------------------------------------------------------------------------
  // Concrete memory represents the abstract stacks

  function Nth(s: seq<nat>, i: nat): nat {
    if i < |s| then s[i] else 0
  }

  /** From pointer p the links run through exactly the nodes of s and then null. */
  ghost predicate Chain(next: map<nat, nat>, p: nat, s: seq<nat>) {
    && p == Nth(s, 0)
    && forall i :: 0 <= i < |s| ==> s[i] != 0 && s[i] in next && next[s[i]] == Nth(s, i + 1)
  }

  ghost predicate NoDup(s: seq<nat>) {
    forall i, j :: 0 <= i < j < |s| ==> s[i] != s[j]
  }

  /** No node is in two stacks, in two threads' hands, or in a stack and a hand. */
  ghost predicate Exclusive(a: Abs) {
    && (forall l :: 0 <= l < |a.stacks| ==> NoDup(a.stacks[l]))
    && (forall l, l', n ::
          0 <= l < |a.stacks| && 0 <= l' < |a.stacks| && n in a.stacks[l] && n in a.stacks[l'] ==> l == l')
    && (forall t, t', n :: 0 <= t < |a.held| && 0 <= t' < |a.held| && n in a.held[t] && n in a.held[t'] ==> t == t')
    && (forall l, t, n :: 0 <= l < |a.stacks| && 0 <= t < |a.held| && n in a.stacks[l] ==> n !in a.held[t])
  }

  ghost predicate InStack(a: Abs, n: nat) {
    exists l :: 0 <= l < |a.stacks| && n in a.stacks[l]
  }

  ghost predicate InHand(a: Abs, n: nat) {
    exists t :: 0 <= t < |a.held| && n in a.held[t]
  }

  /** No allocated node is lost. */
  ghost predicate AllPlaced(s: State, a: Abs) {
    forall n :: n in s.next ==> InStack(a, n) || InHand(a, n)
  }

  /** What the registers of a thread in the middle of an operation are known to hold. */
  ghost predicate PcOk(s: State, t: nat)
    requires Wf(s) && t < |s.pc|
  {
    match s.pc[t]
    case Idle => true
    case PushLoadHead(l, n) => n in s.held[t]
    case PushLoadSync(l, n, rax) => n in s.held[t]
    case PushStoreNext(l, n, rax, rdx) => n in s.held[t]
    case PushCas(l, n, rax, rdx) => n in s.held[t] && n in s.next && s.next[n] == rax
    case PopLoadHead(l) => true
    case PopLoadSync(l, rax) => rax == 0 || rax in s.next
    case PopTest(l, rax, rdx) => (rax == 0 || rax in s.next) && rdx <= s.lifos[l].sync
    case PopLoadNext(l, rax, rdx) => rax != 0 && rax in s.next && rdx <= s.lifos[l].sync
    case PopCas(l, rax, rdx, rbx) =>
      && rax != 0 && rax in s.next
      && rdx <= s.lifos[l].sync
      && (s.lifos[l] == Cell(rax, rdx) ==> s.next[rax] == rbx)
  }

  ghost predicate Rel(s: State, a: Abs) {
    && Wf(s)
    && |a.stacks| == |s.lifos|
    && a.held == s.held
    && (forall l :: 0 <= l < |s.lifos| ==> Chain(s.next, s.lifos[l].head, a.stacks[l]))
    && Exclusive(a)
    && (forall t :: 0 <= t < |s.held| ==> 0 !in s.held[t] && s.held[t] <= s.next.Keys)
    && AllPlaced(s, a)
    && (forall t :: 0 <= t < |s.pc| ==> PcOk(s, t))
  }

  lemma InitRel(stacks: nat, threads: nat)
    ensures Rel(Init(stacks, threads), Abs(seq(stacks, _ => []), seq(threads, _ => {})))
  {
  }

  /** The stack a pointer heads is determined by memory alone. */
  lemma {:induction false} ChainUnique(next: map<nat, nat>, p: nat, s: seq<nat>, s': seq<nat>)
    requires Chain(next, p, s) && Chain(next, p, s')
    ensures s == s'
    decreases |s|
  {
    if s == [] || s' == [] {
    } else {
      var p' := next[p];
      assert p' == Nth(s, 1) == Nth(s', 1);
      TailChain(next, p, s);
      TailChain(next, p, s');
      ChainUnique(next, p', s[1..], s'[1..]);
      assert s == [s[0]] + s[1..] && s' == [s'[0]] + s'[1..];
    }
  }

  lemma TailChain(next: map<nat, nat>, p: nat, s: seq<nat>)
    requires s != [] && Chain(next, p, s)
    ensures Chain(next, next[p], s[1..])
  {
    var r := s[1..];
    assert next[p] == Nth(s, 1) == Nth(r, 0);
    forall i | 0 <= i < |r| ensures r[i] != 0 && r[i] in next && next[r[i]] == Nth(r, i + 1) {
      assert r[i] == s[i + 1] && Nth(r, i + 1) == Nth(s, i + 2);
    }
  }

  lemma ConsChain(next: map<nat, nat>, n: nat, s: seq<nat>)
    requires n != 0 && n in next && Chain(next, next[n], s)
    ensures Chain(next, n, [n] + s)
  {
    var r := [n] + s;
    forall i | 0 <= i < |r| ensures r[i] != 0 && r[i] in next && next[r[i]] == Nth(r, i + 1) {
      if i > 0 {
        assert r[i] == s[i - 1] && Nth(r, i + 1) == Nth(s, i);
      } else {
        assert Nth(r, 1) == Nth(s, 0);
      }
    }
  }

  // ---------------------------------------------------------------------------------------------
  // Every step is a legal event of the abstract stacks

  /** A thread that does not move keeps what it knows while no stack changes and no link it may use does. */
  lemma PcFrame(s: State, s': State, u: nat)
    requires Wf(s) && Wf(s') && u < |s.pc| == |s'.pc| && s'.pc[u] == s.pc[u] && PcOk(s, u)
    requires s'.lifos == s.lifos && s.held[u] <= s'.held[u] && s.next.Keys <= s'.next.Keys
    requires forall n :: n in s.next ==> s'.next[n] == s.next[n]
    ensures PcOk(s', u)
  {
  }

  lemma ExclusiveAlloc(a: Abs, t: nat, n: nat)
    requires Exclusive(a) && Legal(a, Allocated(t, n))
    ensures Exclusive(Apply(a, Allocated(t, n)))
  {
  }

  lemma ExclusivePush(a: Abs, t: nat, l: nat, n: nat)
    requires Exclusive(a) && Legal(a, Pushed(t, l, n))
    ensures Exclusive(Apply(a, Pushed(t, l, n)))
  {
    var a' := Apply(a, Pushed(t, l, n));
    forall k, m | 0 <= k < |a.stacks| ensures m in a'.stacks[k] <==> m in a.stacks[k] || (k == l && m == n) {
    }
    assert NoDup(a'.stacks[l]) by {
      assert NoDup(a.stacks[l]) && n !in a.stacks[l];
    }
  }

  lemma ExclusivePop(a: Abs, t: nat, l: nat, n: nat)
    requires Exclusive(a) && Legal(a, Popped(t, l, n))
    ensures Exclusive(Apply(a, Popped(t, l, n)))
  {
    var a' := Apply(a, Popped(t, l, n));
    assert a.stacks[l] == [n] + a'.stacks[l] && NoDup(a.stacks[l]);
    forall k, m | 0 <= k < |a.stacks| ensures m in a'.stacks[k] <==> m in a.stacks[k] && (k == l ==> m != n) {
    }
  }

  /** An event moves its own node and leaves every other where it was. */
  lemma Moved(a: Abs, e: Event, m: nat)
    requires Exclusive(a) && Legal(a, e) && (e.Allocated? || e.Pushed? || e.Popped?)
    requires InStack(a, m) || InHand(a, m) || m == e.n
    ensures InStack(Apply(a, e), m) || InHand(Apply(a, e), m)
  {
    var a' := Apply(a, e);
    if m == e.n {
      assert if e.Pushed? then m in a'.stacks[e.l] else m in a'.held[e.t];
    } else if InHand(a, m) {
      var u :| 0 <= u < |a.held| && m in a.held[u];
      assert m in a'.held[u];
    } else {
      var k :| 0 <= k < |a.stacks| && m in a.stacks[k];
      assert a.stacks[k] != [] ==> a.stacks[k] == [a.stacks[k][0]] + a.stacks[k][1..];
      assert m in a'.stacks[k];
    }
  }

  lemma SimAlloc(s: State, a: Abs, t: nat, n: nat)
    requires Rel(s, a) && t < |s.pc| && n != 0 && n !in s.next
    ensures Legal(a, Allocated(t, n)) && Rel(Step(s, Alloc(t, n)), Apply(a, Allocated(t, n)))
  {
    assert Allocatable(a, n) by {
      forall l | 0 <= l < |a.stacks| ensures n !in a.stacks[l] {
        assert Chain(s.next, s.lifos[l].head, a.stacks[l]);
      }
    }
    var s', a' := Step(s, Alloc(t, n)), Apply(a, Allocated(t, n));
    ExclusiveAlloc(a, t, n);
    forall l | 0 <= l < |s.lifos| ensures Chain(s'.next, s'.lifos[l].head, a'.stacks[l]) {
      assert Chain(s.next, s.lifos[l].head, a.stacks[l]);
    }
    forall m | m in s'.next ensures InStack(a', m) || InHand(a', m) {
      assert m == n || m in s.next;
      Moved(a, Allocated(t, n), m);
    }
    forall u | 0 <= u < |s.pc| ensures PcOk(s', u) {
      PcFrame(s, s', u);
    }
  }

  lemma SimPushCas(s: State, a: Abs, t: nat)
    requires Rel(s, a) && t < |s.pc| && s.pc[t].PushCas?
    requires s.lifos[s.pc[t].l] == Cell(s.pc[t].rax, s.pc[t].rdx)
    ensures Legal(a, Pushed(t, s.pc[t].l, s.pc[t].n))
    ensures Rel(Instr(s, t), Apply(a, Pushed(t, s.pc[t].l, s.pc[t].n)))
  {
    assert PcOk(s, t);
    var l, n := s.pc[t].l, s.pc[t].n;
    var s', a' := Instr(s, t), Apply(a, Pushed(t, l, n));
    ConsChain(s.next, n, a.stacks[l]);
    ExclusivePush(a, t, l, n);
    forall m | m in s'.next ensures InStack(a', m) || InHand(a', m) {
      Moved(a, Pushed(t, l, n), m);
    }
    forall u | 0 <= u < |s.pc| ensures PcOk(s', u) {
      PcPush(s, t, u);
    }
  }

  /** A committed compare-and-swap raises `sync`, which disarms every compare-and-swap prepared before. */
  lemma PcPush(s: State, t: nat, u: nat)
    requires Wf(s) && t < |s.pc| && u < |s.pc| && PcOk(s, t) && PcOk(s, u)
    requires s.pc[t].PushCas? && s.lifos[s.pc[t].l] == Cell(s.pc[t].rax, s.pc[t].rdx)
    requires u != t ==> s.pc[t].n !in s.held[u]
    ensures Wf(Instr(s, t)) && PcOk(Instr(s, t), u)
  {
  }

  lemma SimPopCas(s: State, a: Abs, t: nat)
    requires Rel(s, a) && t < |s.pc| && s.pc[t].PopCas?
    requires s.lifos[s.pc[t].l] == Cell(s.pc[t].rax, s.pc[t].rdx)
    ensures Legal(a, Popped(t, s.pc[t].l, s.pc[t].rax))
    ensures Rel(Instr(s, t), Apply(a, Popped(t, s.pc[t].l, s.pc[t].rax)))
  {
    assert PcOk(s, t);
    var l, n := s.pc[t].l, s.pc[t].rax;
    assert a.stacks[l] != [] && a.stacks[l][0] == n by {
      assert Chain(s.next, n, a.stacks[l]);
    }
    var s', a' := Instr(s, t), Apply(a, Popped(t, l, n));
    TailChain(s.next, n, a.stacks[l]);
    ExclusivePop(a, t, l, n);
    forall m | m in s'.next ensures InStack(a', m) || InHand(a', m) {
      Moved(a, Popped(t, l, n), m);
    }
    forall u | 0 <= u < |s.pc| ensures PcOk(s', u) {
      PcPop(s, t, u);
    }
  }

  lemma PcPop(s: State, t: nat, u: nat)
    requires Wf(s) && t < |s.pc| && u < |s.pc| && PcOk(s, t) && PcOk(s, u)
    requires s.pc[t].PopCas? && s.lifos[s.pc[t].l] == Cell(s.pc[t].rax, s.pc[t].rdx)
    ensures Wf(Instr(s, t)) && PcOk(Instr(s, t), u)
  {
  }

  /** A store to `node->next` touches only a node the storing thread owns, so no chain and no value a
      committed compare-and-swap could use. */
  lemma SimStoreNext(s: State, a: Abs, t: nat)
    requires Rel(s, a) && t < |s.pc| && s.pc[t].PushStoreNext?
    ensures Rel(Instr(s, t), a)
  {
    assert PcOk(s, t);
    var n, s' := s.pc[t].n, Instr(s, t);
    forall l | 0 <= l < |s.lifos| ensures Chain(s'.next, s'.lifos[l].head, a.stacks[l]) {
      assert n !in a.stacks[l];
    }
    forall m | m in s'.next ensures InStack(a, m) || InHand(a, m) {
      assert m in s.next;
    }
    forall u | 0 <= u < |s.pc| ensures PcOk(s', u) {
      assert PcOk(s, u);
      if u != t && s.pc[u].PopCas? && s.lifos[s.pc[u].l] == Cell(s.pc[u].rax, s.pc[u].rdx) {
        assert a.stacks[s.pc[u].l][0] == s.pc[u].rax;
      }
    }
  }

  lemma SimRest(s: State, a: Abs, t: nat)
    requires Rel(s, a) && t < |s.pc| && !s.pc[t].PushStoreNext?
    requires EventOf(s, Exec(t)).Silent? || EventOf(s, Exec(t)).SawEmpty?
    ensures Rel(Instr(s, t), a)
  {
    assert PcOk(s, t);
    var s' := Instr(s, t);
    assert s'.lifos == s.lifos && s'.next == s.next && s'.held == s.held;
    forall u | 0 <= u < |s.pc| ensures PcOk(s', u) {
      if u != t {
        PcFrame(s, s', u);
      } else {
        PcRest(s, a, t);
      }
    }
  }

  lemma PcRest(s: State, a: Abs, t: nat)
    requires Rel(s, a) && t < |s.pc| && !s.pc[t].PushStoreNext?
    requires EventOf(s, Exec(t)).Silent? || EventOf(s, Exec(t)).SawEmpty?
    ensures PcOk(Instr(s, t), t)
  {
    assert PcOk(s, t);
    if !s.pc[t].Idle? {
      assert Chain(s.next, s.lifos[s.pc[t].l].head, a.stacks[s.pc[t].l]);
    }
  }

  /** Forward simulation: whatever action comes next, it is one legal event of the abstract stacks. */
  lemma Simulation(s: State, a: Abs, act: Action)
    requires Rel(s, a)
    ensures Legal(a, EventOf(s, act)) && Rel(Step(s, act), Apply(a, EventOf(s, act)))
  {
    match act
    case Alloc(t, n) =>
      if t < |s.pc| && n != 0 && n !in s.next {
        SimAlloc(s, a, t, n);
      }
    case CallPush(t, l, n) => SimCall(s, a, act);
    case CallPop(t, l) => SimCall(s, a, act);
    case Exec(t) =>
      if t < |s.pc| {
        if EventOf(s, act).Pushed? {
          SimPushCas(s, a, t);
        } else if EventOf(s, act).Popped? {
          SimPopCas(s, a, t);
        } else if s.pc[t].PushStoreNext? {
          SimStoreNext(s, a, t);
        } else {
          SimRest(s, a, t);
          if s.pc[t].PopLoadHead? {
            assert Chain(s.next, s.lifos[s.pc[t].l].head, a.stacks[s.pc[t].l]);
          }
        }
      }
  }

  lemma SimCall(s: State, a: Abs, act: Action)
    requires Rel(s, a) && (act.CallPush? || act.CallPop?)
    ensures Rel(Step(s, act), a)
  {
    var s' := Step(s, act);
    forall u | 0 <= u < |s.pc| ensures PcOk(s', u) {
      if u != act.t {
        PcFrame(s, s', u);
      }
    }
  }

  // ---------------------------------------------------------------------------------------------
  // Whole runs

  ghost function Final(s: State, acts: seq<Action>): (s': State)
    requires Wf(s)
    ensures Wf(s')
    decreases |acts|
  {
    if acts == [] then s else Final(Step(s, acts[0]), acts[1..])
  }

  ghost function Events(s: State, acts: seq<Action>): seq<Event>
    requires Wf(s)
    decreases |acts|
  {
    if acts == [] then [] else [EventOf(s, acts[0])] + Events(Step(s, acts[0]), acts[1..])
  }

  /** A sequential execution of the events, one after the other, on stacks. */
  ghost predicate LegalRun(a: Abs, es: seq<Event>)
    decreases |es|
  {
    es == [] || (Legal(a, es[0]) && LegalRun(Apply(a, es[0]), es[1..]))
  }

  ghost function Replay(a: Abs, es: seq<Event>): Abs
    requires LegalRun(a, es)
    decreases |es|
  {
    if es == [] then a else Replay(Apply(a, es[0]), es[1..])
  }

  /** Linearization: the events of any interleaving, replayed one at a time, are a legal sequential run,
      and memory ends up representing the stacks that run produces. */
  lemma {:induction false} RunLinearizes(s: State, a: Abs, acts: seq<Action>)
    requires Rel(s, a)
    ensures LegalRun(a, Events(s, acts))
    ensures Rel(Final(s, acts), Replay(a, Events(s, acts)))
    decreases |acts|
  {
    if acts != [] {
      Simulation(s, a, acts[0]);
      RunLinearizes(Step(s, acts[0]), Apply(a, EventOf(s, acts[0])), acts[1..]);
      var es := Events(s, acts);
      assert es[0] == EventOf(s, acts[0]) && es[1..] == Events(Step(s, acts[0]), acts[1..]);
    }
  }

  lemma StepSync(s: State, a: Abs, act: Action, l: nat)
    requires Rel(s, a) && l < |s.lifos|
    requires Legal(a, EventOf(s, act))
    ensures |Step(s, act).lifos| == |s.lifos|
    ensures s.lifos[l].sync <= Step(s, act).lifos[l].sync
    ensures s.lifos[l].sync == Step(s, act).lifos[l].sync ==>
              s.lifos[l] == Step(s, act).lifos[l] && a.stacks[l] == Apply(a, EventOf(s, act)).stacks[l]
  {
    if act.Exec? && act.t < |s.pc| && !s.pc[act.t].Idle? {
      assert PcOk(s, act.t);
    }
  }

  /** ABA cannot happen: if `sync` is what it was, then the head pointer, the whole chain and every link
      in it are what they were, whatever the threads did in between. */
  lemma {:induction false} SyncUnchangedMeansChainUnchanged(s: State, a: Abs, acts: seq<Action>, l: nat)
    requires Rel(s, a) && l < |s.lifos|
    ensures LegalRun(a, Events(s, acts)) && |Replay(a, Events(s, acts)).stacks| == |s.lifos|
    ensures |Final(s, acts).lifos| == |s.lifos| && s.lifos[l].sync <= Final(s, acts).lifos[l].sync
    ensures Final(s, acts).lifos[l].sync == s.lifos[l].sync ==>
              && Final(s, acts).lifos[l].head == s.lifos[l].head
              && Replay(a, Events(s, acts)).stacks[l] == a.stacks[l]
              && (forall n :: n in a.stacks[l] ==>
                    n in s.next && n in Final(s, acts).next && Final(s, acts).next[n] == s.next[n])
    decreases |acts|
  {
    RunLinearizes(s, a, acts);
    if acts != [] {
      var s1, a1 := Step(s, acts[0]), Apply(a, EventOf(s, acts[0]));
      Simulation(s, a, acts[0]);
      StepSync(s, a, acts[0], l);
      SyncUnchangedMeansChainUnchanged(s1, a1, acts[1..], l);
      var es := Events(s, acts);
      assert es[0] == EventOf(s, acts[0]) && es[1..] == Events(s1, acts[1..]);
    }
    if Final(s, acts).lifos[l].sync == s.lifos[l].sync {
      assert Chain(s.next, s.lifos[l].head, a.stacks[l]);
      assert Chain(Final(s, acts).next, s.lifos[l].head, a.stacks[l]);
    }
  }

  /** The stacks that memory represents are a function of memory alone. */
  lemma MemoryFixesStacks(s: State, a: Abs, a': Abs)
    requires Rel(s, a) && Rel(s, a')
    ensures a == a'
  {
    forall l | 0 <= l < |s.lifos| ensures a.stacks[l] == a'.stacks[l] {
      ChainUnique(s.next, s.lifos[l].head, a.stacks[l], a'.stacks[l]);
    }
  }

  ghost predicate OnlyRel(s: State, a: Abs) {
    Rel(s, a) && forall a' :: Rel(s, a') ==> a' == a
  }

  /** From empty stacks, under any schedule: the run is a legal sequential run, and the stacks it leaves are
      the only ones that memory then represents. */
  lemma RunFromInit(stacks: nat, threads: nat, acts: seq<Action>)
    ensures var s0, a0 := Init(stacks, threads), Abs(seq(stacks, _ => []), seq(threads, _ => {}));
            && Wf(s0) && LegalRun(a0, Events(s0, acts))
            && OnlyRel(Final(s0, acts), Replay(a0, Events(s0, acts)))
  {
    var s0, a0 := Init(stacks, threads), Abs(seq(stacks, _ => []), seq(threads, _ => {}));
    InitRel(stacks, threads);
    RelFacts(s0, a0);
    RunLinearizes(s0, a0, acts);
    hide Rel;
    forall a' | Rel(Final(s0, acts), a') ensures a' == Replay(a0, Events(s0, acts)) {
      MemoryFixesStacks(Final(s0, acts), a', Replay(a0, Events(s0, acts)));
    }
  }

  // ---------------------------------------------------------------------------------------------
  // One event per operation

  /** Thread t is inside an operation that has not taken effect yet. */
  function Pending(s: State, t: nat): nat
    requires Wf(s) && t < |s.pc|
  {
    match s.pc[t]
    case Idle => 0
    case PopLoadSync(_, rax) => if rax == 0 then 0 else 1
    case PopTest(_, rax, _) => if rax == 0 then 0 else 1
    case _ => 1
  }

  function Calls(s: State, a: Action, t: nat): nat
    requires Wf(s) && t < |s.pc|
  {
    if (a.CallPush? || a.CallPop?) && a.t == t && s.pc[t].Idle? && !Step(s, a).pc[t].Idle? then 1 else 0
  }

  function TakesEffect(e: Event, t: nat): nat {
    if (e.Pushed? || e.Popped? || e.SawEmpty?) && e.t == t then 1 else 0
  }

  ghost function CallCount(s: State, acts: seq<Action>, t: nat): nat
    requires Wf(s) && t < |s.pc|
    decreases |acts|
  {
    if acts == [] then 0 else Calls(s, acts[0], t) + CallCount(Step(s, acts[0]), acts[1..], t)
  }

  ghost function EffectCount(es: seq<Event>, t: nat): nat
    decreases |es|
  {
    if es == [] then 0 else TakesEffect(es[0], t) + EffectCount(es[1..], t)
  }

  lemma StepCounts(s: State, act: Action, t: nat)
    requires Wf(s) && t < |s.pc| && (act.Exec? && act.t < |s.pc| ==> PcOk(s, act.t))
    ensures |Step(s, act).pc| == |s.pc|
    ensures TakesEffect(EventOf(s, act), t) + Pending(Step(s, act), t) == Calls(s, act, t) + Pending(s, t)
  {
  }

  /** Over any run the operations of a thread and its events correspond one to one: each call takes
      effect exactly once, and the only call without an event yet is the one still pending. */
  lemma {:induction false} OneEventPerCall(s: State, a: Abs, acts: seq<Action>, t: nat)
    requires Rel(s, a) && t < |s.pc|
    ensures |Final(s, acts).pc| == |s.pc|
    ensures EffectCount(Events(s, acts), t) + Pending(Final(s, acts), t) == CallCount(s, acts, t) + Pending(s, t)
    decreases |acts|
  {
    if acts != [] {
      var s1 := Step(s, acts[0]);
      Simulation(s, a, acts[0]);
      OneEventPerCall(s1, Apply(a, EventOf(s, acts[0])), acts[1..], t);
      var es := Events(s, acts);
      assert es[0] == EventOf(s, acts[0]) && es[1..] == Events(s1, acts[1..]);
      StepCounts(s, acts[0], t);
    }
  }

  /** What clients of the stacks need to know about memory. */
  lemma RelFacts(s: State, a: Abs)
    requires Rel(s, a)
    ensures Wf(s) && |a.stacks| == |s.lifos| && a.held == s.held
    ensures forall t :: 0 <= t < |s.pc| ==> PcOk(s, t)
    ensures forall t, n :: 0 <= t < |a.held| && n in a.held[t] ==>
                             n != 0 && n in s.next && (forall u :: 0 <= u < |a.held| && u != t ==> n !in a.held[u])
    ensures forall l, n :: 0 <= l < |a.stacks| && n in a.stacks[l] ==>
                             n in s.next && (forall t :: 0 <= t < |a.held| ==> n !in a.held[t])
  {
    forall l, n | 0 <= l < |a.stacks| && n in a.stacks[l] ensures n in s.next {
      assert Chain(s.next, s.lifos[l].head, a.stacks[l]);
    }
  }

  /** Every pointer an instruction follows is an allocated node. */
  lemma NoWildAccess(s: State, a: Abs, t: nat)
    requires Rel(s, a) && t < |s.pc|
    ensures s.pc[t].PopLoadNext? ==> s.pc[t].rax in s.next
    ensures s.pc[t].PushStoreNext? ==> s.pc[t].n in s.next
  {
    assert PcOk(s, t);
  }

  lemma StepWf(s: State, a: Action)
    requires Wf(s)
    ensures Wf(Step(s, a))
  {
  }

  // ---------------------------------------------------------------------------------------------
  // The same machine with its memory updated in place

  class Machine {
    var lifos: seq<Cell>
    var next: map<nat, nat>
    var pc: seq<Pc>
    var held: seq<set<nat>>

    function View(): State
      reads this
    {
      State(lifos, next, pc, held)
    }

    constructor (stacks: nat, threads: nat)
      ensures View() == Init(stacks, threads)
    {
      lifos := seq(stacks, _ => Cell(0, 0));
      next := map[];
      pc := seq(threads, _ => Idle);
      held := seq(threads, _ => {});
    }

    /** lock cmpxchg16b: writes `desired` iff memory still holds `expected`; reports what it saw. */
    method Cmpxchg16b(l: nat, expected: Cell, desired: Cell) returns (zf: bool, seen: Cell)
      requires l < |lifos|
      modifies `lifos
      ensures seen == old(lifos)[l] && zf == (seen == expected)
      ensures lifos == if zf then old(lifos)[l := desired] else old(lifos)
    {
      seen := lifos[l];
      zf := seen == expected;
      if zf {
        lifos := lifos[l := desired];
      }
    }

    /** One instruction of thread t, written to memory. */
    method Exec(t: nat)
      requires Wf(View()) && t < |pc|
      modifies this
      ensures View() == Instr(old(View()), t)
    {
      match pc[t]
      case Idle =>
      case PushLoadHead(l, n) =>
        var rax := lifos[l].head;
        pc := pc[t := PushLoadSync(l, n, rax)];
      case PushLoadSync(l, n, rax) =>
        var rdx := lifos[l].sync;
        pc := pc[t := PushStoreNext(l, n, rax, rdx)];
      case PushStoreNext(l, n, rax, rdx) =>
        next := next[n := rax];
        pc := pc[t := PushCas(l, n, rax, rdx)];
      case PushCas(l, n, rax, rdx) =>
        var zf, seen := Cmpxchg16b(l, Cell(rax, rdx), Cell(n, rdx + 1));
        if zf {
          held := held[t := held[t] - {n}];
          pc := pc[t := Idle];
        } else {
          pc := pc[t := PushStoreNext(l, n, seen.head, seen.sync)];
        }
      case PopLoadHead(l) =>
        var rax := lifos[l].head;
        pc := pc[t := PopLoadSync(l, rax)];
      case PopLoadSync(l, rax) =>
        var rdx := lifos[l].sync;
        pc := pc[t := PopTest(l, rax, rdx)];
      case PopTest(l, rax, rdx) =>
        if rax == 0 {
          pc := pc[t := Idle];
        } else {
          pc := pc[t := PopLoadNext(l, rax, rdx)];
        }
      case PopLoadNext(l, rax, rdx) =>
        var rbx := Deref(next, rax);
        pc := pc[t := PopCas(l, rax, rdx, rbx)];
      case PopCas(l, rax, rdx, rbx) =>
        var zf, seen := Cmpxchg16b(l, Cell(rax, rdx), Cell(rbx, rdx + 1));
        if zf {
          held := held[t := held[t] + {rax}];
          pc := pc[t := Idle];
        } else {
          pc := pc[t := PopLoadHead(l)];
        }
    }

    method Take(act: Action)
      requires Wf(View())
      modifies this
      ensures View() == Step(old(View()), act)
    {
      match act
      case Alloc(t, n) =>
        if t < |pc| && n != 0 && n !in next {
          next := next[n := 0];
          held := held[t := held[t] + {n}];
        }
      case CallPush(t, l, n) =>
        if t < |pc| && pc[t].Idle? && l < |lifos| && n in held[t] {
          pc := pc[t := PushLoadHead(l, n)];
        }
      case CallPop(t, l) =>
        if t < |pc| && pc[t].Idle? && l < |lifos| {
          pc := pc[t := PopLoadHead(l)];
        }
      case Exec(t) =>
        if t < |pc| {
          Exec(t);
        }
    }

    /** Any schedule, run in place, reaches the state RunLinearizes speaks of. */
    method Run(schedule: seq<Action>)
      requires Wf(View())
      modifies this
      ensures View() == Final(old(View()), schedule)
    {
      hide Instr, Step;
      ghost var result := Final(View(), schedule);
      var i := 0;
      while i < |schedule|
        invariant i <= |schedule|
        invariant Wf(View()) && Final(View(), schedule[i..]) == result
      {
        assert schedule[i..][0] == schedule[i] && schedule[i..][1..] == schedule[i + 1..];
        StepWf(View(), schedule[i]);
        Take(schedule[i]);
        i := i + 1;
      }
    }
  }
}
