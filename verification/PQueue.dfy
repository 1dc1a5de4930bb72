/** container/pqueue.h: the linked queue with one lock for pushing and one for popping.  Any number of
    threads run push, flush and front one memory access at a time. */
module PQueue {
  import opened Sums

  const WORD: nat := 0x1_0000_0000  // size is a uint32_t

  datatype Lock = Free | By(t: nat)

  /** Where a thread is; n and p are the node pointers in its variables, d marks the push that flush makes. */
  datatype Pc =
    | Idle
    | PushLock(n: nat, d: bool)      // autolock<PQeue_write_t>
    | PushLink(n: nat, d: bool)      // tail->next = qn
    | PushTail(n: nat, d: bool)      // tail = qn
    | PushUnlock(n: nat, d: bool)
    | PushAdd(d: bool)               // AtomicAdd(&size, 1)
    | SetFlushed                     // flush: flushed = true
    | FrontLock                      // autolock<PQeue_read_t>
    | FrontHead                      // p = head.next
    | FrontTail(p: nat)              // tail == p
    | FrontNull(p: nat)              // p == NULL
    | FrontNext(p: nat)              // p->next
    | FrontStore(p: nat, nx: nat)    // head.next = p->next
    | FrontUnlock(p: nat)
    | FrontFail                      // return -1 out of the locked scope
    | FrontRead(p: nat)              // t = p->val
    | FrontDelete(p: nat, v: int)    // delete p
    | FrontSub(v: int)               // AtomicSub(&size, 1)

  /** `next` and `val` are the fields of the allocated nodes; tail 0 stands for the address of `head`. */
  datatype State = State(next: map<nat, nat>, val: map<nat, int>, headNext: nat, tail: nat,
                         writeLock: Lock, readLock: Lock, size: nat, flushed: bool, pc: seq<Pc>)

  datatype Action =
    | Spawn                                      // a new thread
    | CallPush(t: nat, x: int, n: nat, d: bool)  // new returns n; d for the push inside flush
    | CallFront(t: nat)
    | Exec(t: nat)

  function Deref(next: map<nat, nat>, p: nat): nat {
    if p in next then next[p] else 0
  }

  function ValOf(val: map<nat, int>, p: nat): int {
    if p in val then val[p] else 0
  }

  predicate IsFront(pc: Pc) {
    || pc.FrontLock? || pc.FrontHead? || pc.FrontTail? || pc.FrontNull? || pc.FrontNext? || pc.FrontStore?
    || pc.FrontUnlock? || pc.FrontFail? || pc.FrontRead? || pc.FrontDelete? || pc.FrontSub?
  }

  /** A memory access of push or flush. */
  function PushInstr(s: State, t: nat): State
    requires t < |s.pc|
  {
    match s.pc[t]
    case PushLock(n, d) => if s.writeLock.Free? then s.(writeLock := By(t), pc := s.pc[t := PushLink(n, d)]) else s
    case PushLink(n, d) =>
      if s.tail == 0 then s.(headNext := n, pc := s.pc[t := PushTail(n, d)])
      else s.(next := s.next[s.tail := n], pc := s.pc[t := PushTail(n, d)])
    case PushTail(n, d) => s.(tail := n, pc := s.pc[t := PushUnlock(n, d)])
    case PushUnlock(n, d) => s.(writeLock := Free, pc := s.pc[t := PushAdd(d)])
    case PushAdd(d) => s.(size := (s.size + 1) % WORD, pc := s.pc[t := if d then SetFlushed else Idle])
    case SetFlushed => s.(flushed := true, pc := s.pc[t := Idle])
    case _ => s
  }

  /** A memory access of front. */
  function FrontInstr(s: State, t: nat): State
    requires t < |s.pc|
  {
    match s.pc[t]
    case FrontLock => if s.readLock.Free? then s.(readLock := By(t), pc := s.pc[t := FrontHead]) else s
    case FrontHead => s.(pc := s.pc[t := FrontTail(s.headNext)])
    case FrontTail(p) => s.(pc := s.pc[t := if s.tail == p && p != 0 then FrontFail else FrontNull(p)])
    case FrontNull(p) => s.(pc := s.pc[t := if p == 0 then FrontFail else FrontNext(p)])
    case FrontNext(p) => s.(pc := s.pc[t := FrontStore(p, Deref(s.next, p))])
    case FrontStore(p, nx) => s.(headNext := nx, pc := s.pc[t := FrontUnlock(p)])
    case FrontUnlock(p) => s.(readLock := Free, pc := s.pc[t := FrontRead(p)])
    case FrontFail => s.(readLock := Free, pc := s.pc[t := Idle])
    case FrontRead(p) => s.(pc := s.pc[t := FrontDelete(p, ValOf(s.val, p))])
    case FrontDelete(p, v) => s.(next := s.next - {p}, val := s.val - {p}, pc := s.pc[t := FrontSub(v)])
    case FrontSub(v) => s.(size := (s.size + WORD - 1) % WORD, pc := s.pc[t := Idle])
    case _ => s
  }

  function Instr(s: State, t: nat): State
    requires t < |s.pc|
  {
    if IsFront(s.pc[t]) then FrontInstr(s, t) else PushInstr(s, t)
  }

  /** An action its thread cannot take leaves the state alone, so any schedule is allowed. */
  function Step(s: State, a: Action): State {
    match a
    case Spawn => s.(pc := s.pc + [Idle])
    case CallPush(t, x, n, d) =>
      if t < |s.pc| && s.pc[t].Idle? && n != 0 && n !in s.next then
        s.(next := s.next[n := 0], val := s.val[n := x], pc := s.pc[t := PushLock(n, d)])
      else s
    case CallFront(t) => if t < |s.pc| && s.pc[t].Idle? then s.(pc := s.pc[t := FrontLock]) else s
    case Exec(t) => if t < |s.pc| then Instr(s, t) else s
  }

  const INIT: State := State(map[], map[], 0, 0, Free, Free, 0, false, [])

  /** all_poped */
  predicate AllPoped(s: State) {
    s.flushed && s.size == 1
  }

  // ---------------------------------------------------------------------------------------------
  // The abstract queue

  datatype Item = Item(node: nat, v: int, dummy: bool)

  datatype Taken = Nothing | Got(item: Item)

  /** Everything pushed, in linking order; the first `out` of it has been popped; `taken[t]` is the item
      thread t has popped and not yet returned. */
  datatype Abs = Abs(pushed: seq<Item>, out: nat, taken: seq<Taken>)

  datatype Event = Silent | Started | Linked(t: nat, item: Item) | Unlinked(t: nat) | Returned(t: nat, v: int)

  function EventOf(s: State, a: Action): Event {
    match a
    case Spawn => Started
    case Exec(t) =>
      if t >= |s.pc| then Silent else (
        match s.pc[t]
        case PushLink(n, d) => Linked(t, Item(n, ValOf(s.val, n), d))
        case FrontStore(p, nx) => Unlinked(t)
        case FrontSub(v) => Returned(t, v)
        case _ => Silent
      )
    case _ => Silent
  }

  /** What a first-in first-out queue demands: a pop takes the oldest item left, never the last one, and
      front returns the value of the item it took. */
  predicate Legal(a: Abs, e: Event) {
    match e
    case Unlinked(t) => a.out + 1 < |a.pushed| && t < |a.taken|
    case Returned(t, v) => t < |a.taken| && a.taken[t].Got? && a.taken[t].item.v == v
    case _ => true
  }

  function Apply(a: Abs, e: Event): Abs
    requires Legal(a, e)
  {
    match e
    case Silent => a
    case Started => a.(taken := a.taken + [Nothing])
    case Linked(t, item) => a.(pushed := a.pushed + [item])
    case Unlinked(t) => a.(out := a.out + 1, taken := a.taken[t := Got(a.pushed[a.out])])
    case Returned(t, v) => a.(taken := a.taken[t := Nothing])
  }

  function Live(a: Abs): seq<Item>
    requires a.out <= |a.pushed|
  {
    a.pushed[a.out..]
  }

  // ---------------------------------------------------------------------------------------------
  // The invariant

  predicate Writing(pc: Pc) {
    pc.PushLink? || pc.PushTail? || pc.PushUnlock?
  }

  predicate Reading(pc: Pc) {
    || pc.FrontHead? || pc.FrontTail? || pc.FrontNull? || pc.FrontNext? || pc.FrontStore?
    || pc.FrontUnlock? || pc.FrontFail?
  }

  /** The node a thread owns outside the list, 0 for none. */
  function Owned(pc: Pc): nat {
    match pc
    case PushLock(n, d) => n
    case PushLink(n, d) => n
    case FrontUnlock(p) => p
    case FrontRead(p) => p
    case FrontDelete(p, v) => p
    case _ => 0
  }

  ghost predicate LocksOk(s: State) {
    && (forall t :: 0 <= t < |s.pc| ==> (Writing(s.pc[t]) <==> s.writeLock == By(t)))
    && (forall t :: 0 <= t < |s.pc| ==> (Reading(s.pc[t]) <==> s.readLock == By(t)))
    && (s.writeLock.By? ==> s.writeLock.t < |s.pc|)
    && (s.readLock.By? ==> s.readLock.t < |s.pc|)
  }

  ghost predicate OwnedOk(s: State, live: seq<Item>) {
    && (forall t :: 0 <= t < |s.pc| && Owned(s.pc[t]) != 0 ==>
          && Owned(s.pc[t]) in s.next && Owned(s.pc[t]) in s.val
          && forall i :: 0 <= i < |live| ==> live[i].node != Owned(s.pc[t]))
    && (forall t :: 0 <= t < |s.pc| && (s.pc[t].PushLock? || s.pc[t].PushLink?) ==>
          s.pc[t].n != 0 && s.next[s.pc[t].n] == 0)
    && (forall t, u :: 0 <= t < u < |s.pc| && Owned(s.pc[t]) != 0 ==> Owned(s.pc[t]) != Owned(s.pc[u]))
  }

  function NodeAt(live: seq<Item>, i: nat): nat {
    if i < |live| then live[i].node else 0
  }

  /** head.next starts the chain of live nodes, each allocated and with its item's value. */
  ghost predicate ListOk(s: State, live: seq<Item>) {
    && s.headNext == NodeAt(live, 0)
    && (forall i :: 0 <= i < |live| ==>
          && live[i].node != 0 && live[i].node in s.next && live[i].node in s.val
          && s.next[live[i].node] == NodeAt(live, i + 1) && s.val[live[i].node] == live[i].v)
    && (forall i, j :: 0 <= i < j < |live| ==> live[i].node != live[j].node)
  }

  /** A push is between its two stores. */
  ghost predicate InWindow(s: State) {
    s.writeLock.By? && s.writeLock.t < |s.pc| && s.pc[s.writeLock.t].PushTail?
  }

  /** tail points to the last node, to &head while there is none, and while a push is between its two stores to
      the node before the last.  If by then a front has taken that one, tail is stale; it is so too in the
      window of the first push. */
  ghost predicate TailOk(s: State, live: seq<Item>) {
    if InWindow(s) then
      && live != [] && s.pc[s.writeLock.t].n == live[|live| - 1].node
      && if |live| == 1 then s.tail != live[0].node else s.tail == live[|live| - 2].node
    else if live == [] then s.tail == 0
    else s.tail == live[|live| - 1].node
  }

  ghost predicate PcOk(s: State, a: Abs, t: nat)
    requires t < |s.pc| == |a.taken| && a.out <= |a.pushed|
  {
    var live := Live(a);
    match s.pc[t]
    case FrontTail(p) => p == 0 || p == NodeAt(live, 0)  // 0 if read before the first push linked its node
    case FrontNull(p) => p == 0 || p == NodeAt(live, 0)
    case FrontNext(p) => p == NodeAt(live, 0) != 0
    case FrontStore(p, nx) => p == NodeAt(live, 0) != 0 && (nx == 0 || nx == NodeAt(live, 1))
    case FrontUnlock(p) => a.taken[t].Got? && a.taken[t].item.node == p != 0 && ValOf(s.val, p) == a.taken[t].item.v
    case FrontRead(p) => a.taken[t].Got? && a.taken[t].item.node == p != 0 && ValOf(s.val, p) == a.taken[t].item.v
    case FrontDelete(p, v) => a.taken[t].Got? && p != 0 && a.taken[t].item.v == v
    case FrontSub(v) => a.taken[t].Got? && a.taken[t].item.v == v
    case _ => true
  }

  ghost predicate Rel(s: State, a: Abs) {
    && |a.taken| == |s.pc|
    && a.out <= |a.pushed| && (a.out < |a.pushed| || a.pushed == [])
    && LocksOk(s)
    && OwnedOk(s, Live(a))
    && ListOk(s, Live(a))
    && TailOk(s, Live(a))
    && (forall t :: 0 <= t < |s.pc| ==> PcOk(s, a, t))
  }

  // ---------------------------------------------------------------------------------------------
  // Every step is a legal operation of the abstract queue

  /** Steps that read, or take and drop locks, and leave the list alone. */
  predicate Quiet(s: State, act: Action) {
    match act
    case Spawn => false
    case CallPush(t, x, n, d) => false
    case CallFront(t) => t < |s.pc| && s.pc[t].Idle?
    case Exec(t) =>
      t < |s.pc| && !s.pc[t].PushLink? && !s.pc[t].PushTail? && !s.pc[t].FrontStore? && !s.pc[t].FrontDelete?
  }

  ghost predicate OthersSame(s: State, s': State, t: nat) {
    && t < |s.pc| == |s'.pc|
    && forall u :: 0 <= u < |s.pc| && u != t ==> s'.pc[u] == s.pc[u]
  }

  /** The lock a move of thread t takes or drops fits where the thread goes. */
  predicate LockMove(l: Lock, l': Lock, t: nat, inside: bool, inside': bool) {
    || (l' == l && inside' == inside)
    || (l == Free && l' == By(t) && !inside && inside')
    || (l' == Free && inside && !inside')
  }

  lemma QuietMemory(s: State, act: Action)
    requires Quiet(s, act)
    ensures var s' := Step(s, act);
            && OthersSame(s, s', act.t)
            && s'.next == s.next && s'.val == s.val && s'.headNext == s.headNext && s'.tail == s.tail
  {
  }

  lemma QuietPush(s: State, t: nat)
    requires t < |s.pc| && !s.pc[t].PushLink? && !s.pc[t].PushTail?
    ensures |PushInstr(s, t).pc| == |s.pc|
    ensures var pc, pc' := s.pc[t], PushInstr(s, t).pc[t];
            match pc
            case PushLock(n, d) => pc' == if s.writeLock.Free? then PushLink(n, d) else pc
            case PushUnlock(n, d) => pc' == PushAdd(d)
            case PushAdd(d) => pc' == if d then SetFlushed else Idle
            case SetFlushed => pc' == Idle
            case _ => pc' == pc
    ensures PushInstr(s, t).readLock == s.readLock
    ensures PushInstr(s, t).writeLock ==
            if s.pc[t].PushLock? && s.writeLock.Free? then By(t) else if s.pc[t].PushUnlock? then Free else s.writeLock
  {
  }

  lemma QuietFront(s: State, t: nat)
    requires t < |s.pc| && IsFront(s.pc[t]) && !s.pc[t].FrontStore? && !s.pc[t].FrontDelete?
    ensures |FrontInstr(s, t).pc| == |s.pc|
    ensures var pc, pc' := s.pc[t], FrontInstr(s, t).pc[t];
            match pc
            case FrontLock => pc' == if s.readLock.Free? then FrontHead else pc
            case FrontHead => pc' == FrontTail(s.headNext)
            case FrontTail(p) => pc' == FrontFail || pc' == FrontNull(p)
            case FrontNull(p) => pc' == FrontFail || pc' == FrontNext(p)
            case FrontNext(p) => pc'.FrontStore?
            case FrontUnlock(p) => pc' == FrontRead(p)
            case FrontFail => pc' == Idle
            case FrontRead(p) => pc'.FrontDelete? && pc'.p == p
            case FrontSub(v) => pc' == Idle
            case _ => pc' == pc
    ensures FrontInstr(s, t).writeLock == s.writeLock
    ensures FrontInstr(s, t).readLock ==
            if s.pc[t].FrontLock? && s.readLock.Free? then By(t)
            else if s.pc[t].FrontUnlock? || s.pc[t].FrontFail? then Free else s.readLock
  {
    hide Deref, ValOf;
  }

  lemma QuietPc(s: State, t: nat)
    requires Quiet(s, Exec(t))
    ensures |Instr(s, t).pc| == |s.pc|
    ensures var pc, pc' := s.pc[t], Instr(s, t).pc[t];
            match pc
            case PushLock(n, d) => pc' == if s.writeLock.Free? then PushLink(n, d) else pc
            case PushUnlock(n, d) => pc' == PushAdd(d)
            case PushAdd(d) => pc' == if d then SetFlushed else Idle
            case SetFlushed => pc' == Idle
            case FrontLock => pc' == if s.readLock.Free? then FrontHead else pc
            case FrontHead => pc' == FrontTail(s.headNext)
            case FrontTail(p) => pc' == FrontFail || pc' == FrontNull(p)
            case FrontNull(p) => pc' == FrontFail || pc' == FrontNext(p)
            case FrontNext(p) => pc'.FrontStore?
            case FrontUnlock(p) => pc' == FrontRead(p)
            case FrontFail => pc' == Idle
            case FrontRead(p) => pc'.FrontDelete? && pc'.p == p
            case FrontSub(v) => pc' == Idle
            case _ => pc' == pc
    ensures Instr(s, t).writeLock ==
            if s.pc[t].PushLock? && s.writeLock.Free? then By(t) else if s.pc[t].PushUnlock? then Free else s.writeLock
    ensures Instr(s, t).readLock ==
            if s.pc[t].FrontLock? && s.readLock.Free? then By(t)
            else if s.pc[t].FrontUnlock? || s.pc[t].FrontFail? then Free else s.readLock
  {
    if IsFront(s.pc[t]) {
      QuietFront(s, t);
    } else {
      QuietPush(s, t);
    }
    hide PushInstr, FrontInstr;
  }

  lemma QuietLocks(s: State, act: Action)
    requires Quiet(s, act)
    ensures |Step(s, act).pc| == |s.pc|
    ensures LockMove(s.writeLock, Step(s, act).writeLock, act.t, Writing(s.pc[act.t]), Writing(Step(s, act).pc[act.t]))
    ensures LockMove(s.readLock, Step(s, act).readLock, act.t, Reading(s.pc[act.t]), Reading(Step(s, act).pc[act.t]))
  {
    hide Instr;
    if act.Exec? {
      QuietPc(s, act.t);
    }
  }

  lemma QuietShape(s: State, act: Action)
    requires Quiet(s, act)
    ensures var s' := Step(s, act);
            && OthersSame(s, s', act.t)
            && s'.next == s.next && s'.val == s.val && s'.headNext == s.headNext && s'.tail == s.tail
            && LockMove(s.writeLock, s'.writeLock, act.t, Writing(s.pc[act.t]), Writing(s'.pc[act.t]))
            && LockMove(s.readLock, s'.readLock, act.t, Reading(s.pc[act.t]), Reading(s'.pc[act.t]))
            && !s'.pc[act.t].PushTail? && !s.pc[act.t].PushTail?
            && (Owned(s'.pc[act.t]) == Owned(s.pc[act.t]) || Owned(s'.pc[act.t]) == 0)
            && (s'.pc[act.t].PushLock? ==> s.pc[act.t] == s'.pc[act.t])
            && (s'.pc[act.t].PushLink? ==> s.pc[act.t] == PushLock(s'.pc[act.t].n, s'.pc[act.t].d))
  {
    QuietMemory(s, act);
    QuietLocks(s, act);
    if act.Exec? {
      QuietPc(s, act.t);
    }
    hide Instr, LockMove, Writing, Reading;
  }

  lemma LocksKept(s: State, s': State, t: nat)
    requires LocksOk(s) && OthersSame(s, s', t)
    requires LockMove(s.writeLock, s'.writeLock, t, Writing(s.pc[t]), Writing(s'.pc[t]))
    requires LockMove(s.readLock, s'.readLock, t, Reading(s.pc[t]), Reading(s'.pc[t]))
    ensures LocksOk(s')
  {
    hide Writing, Reading;
  }

  lemma QuietOwned(s: State, act: Action, live: seq<Item>)
    requires OwnedOk(s, live) && Quiet(s, act)
    ensures OwnedOk(Step(s, act), live)
  {
    QuietShape(s, act);
    hide Step, Instr, Owned;
  }

  lemma QuietTail(s: State, act: Action, live: seq<Item>)
    requires LocksOk(s) && TailOk(s, live) && Quiet(s, act)
    ensures TailOk(Step(s, act), live)
  {
    QuietShape(s, act);
    hide Step, Instr;
  }

  /** What a thread knows survives the steps of others while the list is only appended to: a null link it has
      read may become stale, a node it has read may not. */
  lemma PcKept(s: State, a: Abs, s': State, a': Abs, u: nat)
    requires u < |s.pc| == |a.taken| && u < |s'.pc| == |a'.taken| && a.out <= |a.pushed| && a'.out <= |a'.pushed|
    requires s'.pc[u] == s.pc[u] && a'.taken[u] == a.taken[u] && PcOk(s, a, u)
    requires Reading(s.pc[u]) && !s.pc[u].FrontUnlock? && NodeAt(Live(a), 0) != 0 ==>
               && NodeAt(Live(a'), 0) == NodeAt(Live(a), 0)
               && (s.pc[u].FrontStore? && s.pc[u].nx != 0 ==> NodeAt(Live(a'), 1) == NodeAt(Live(a), 1))
    requires Owned(s.pc[u]) != 0 ==> ValOf(s'.val, Owned(s.pc[u])) == ValOf(s.val, Owned(s.pc[u]))
    ensures PcOk(s', a', u)
  {
  }

  lemma QuietActor(s: State, a: Abs, act: Action)
    requires |a.taken| == |s.pc| && a.out <= |a.pushed| && Quiet(s, act)
    requires PcOk(s, a, act.t) && ListOk(s, Live(a))
    ensures Legal(a, EventOf(s, act)) && |Step(s, act).pc| == |s.pc| == |Apply(a, EventOf(s, act)).taken|
    ensures PcOk(Step(s, act), Apply(a, EventOf(s, act)), act.t)
  {
  }

  /** A quiet step appends and removes nothing. */
  lemma QuietAbs(s: State, a: Abs, act: Action)
    requires |a.taken| == |s.pc| && Quiet(s, act) && Legal(a, EventOf(s, act))
    ensures var a' := Apply(a, EventOf(s, act));
            && a'.pushed == a.pushed && a'.out == a.out && |a'.taken| == |a.taken|
            && forall u :: 0 <= u < |a.taken| && u != act.t ==> a'.taken[u] == a.taken[u]
  {
  }

  lemma SimQuiet(s: State, a: Abs, act: Action)
    requires Rel(s, a) && Quiet(s, act)
    ensures Legal(a, EventOf(s, act)) && Rel(Step(s, act), Apply(a, EventOf(s, act)))
  {
    hide LocksOk, OwnedOk, TailOk, ListOk, PcOk, Instr, Owned, LockMove, Writing, Reading, ValOf;
    QuietShape(s, act);
    QuietActor(s, a, act);
    QuietAbs(s, a, act);
    var s', a' := Step(s, act), Apply(a, EventOf(s, act));
    LocksKept(s, s', act.t);
    QuietOwned(s, act, Live(a));
    QuietTail(s, act, Live(a));
    QuietList(s, s', Live(a));
    hide Step, Apply, EventOf, Legal;
    forall u | 0 <= u < |s'.pc| ensures PcOk(s', a', u) {
      if u != act.t {
        PcKept(s, a, s', a', u);
      }
    }
  }

  lemma QuietList(s: State, s': State, live: seq<Item>)
    requires ListOk(s, live) && s'.next == s.next && s'.val == s.val && s'.headNext == s.headNext
    ensures ListOk(s', live)
  {
  }

  /** What linking item does to memory and to the abstract queue. */
  lemma LinkShape(s: State, a: Abs, t: nat, item: Item)
    requires a.out <= |a.pushed| && t < |s.pc| && s.pc[t].PushLink?
    requires item == Item(s.pc[t].n, ValOf(s.val, s.pc[t].n), s.pc[t].d)
    ensures EventOf(s, Exec(t)) == Linked(t, item)
    ensures Apply(a, Linked(t, item)) == a.(pushed := a.pushed + [item])
    ensures Live(Apply(a, Linked(t, item))) == Live(a) + [item]
    ensures var s' := Instr(s, t);
            && s'.val == s.val && s'.pc == s.pc[t := PushTail(item.node, item.dummy)]
            && s'.writeLock == s.writeLock && s'.readLock == s.readLock && s'.tail == s.tail
            && (if s.tail == 0 then s'.headNext == item.node && s'.next == s.next
                else s'.headNext == s.headNext && s'.next == s.next[s.tail := item.node])
  {
  }

  lemma LinkMemory(s: State, a: Abs, t: nat, item: Item)
    requires Rel(s, a) && t < |s.pc| && s.pc[t].PushLink?
    requires item == Item(s.pc[t].n, ValOf(s.val, s.pc[t].n), s.pc[t].d)
    ensures var s', live := Instr(s, t), Live(a) + [item];
            LocksOk(s') && ListOk(s', live) && OwnedOk(s', live) && TailOk(s', live)
  {
    hide Instr, PcOk, Apply, EventOf, Live;
    LinkShape(s, a, t, item);
    var s', live := Instr(s, t), Live(a);
    assert s.writeLock == By(t) && !InWindow(s) && (s.tail == 0 <==> live == []);
    LocksKept(s, s', t);
    hide LocksOk;
    if live == [] {
      LinkFirst(s, s', t);
      assert [] + [item] == [item];
    } else {
      assert OwnedOk(s, live) && Owned(s.pc[t]) == s.pc[t].n;
      LinkList(s, live, s.pc[t].n, s'.next, item);
      LinkOwned(s, s', live, t);
      hide OwnedOk, Owned;
    }
  }

  lemma LiveIsAllocated(s: State, live: seq<Item>)
    requires ListOk(s, live)
    ensures forall i :: 0 <= i < |live| ==> live[i].node != 0
  {
  }

  lemma SimLink(s: State, a: Abs, t: nat)
    requires Rel(s, a) && t < |s.pc| && s.pc[t].PushLink?
    ensures Rel(Instr(s, t), Apply(a, EventOf(s, Exec(t))))
  {
    hide LocksOk, OwnedOk, ListOk, PcOk, TailOk, Instr, Apply, EventOf, Live, ValOf;
    var item := Item(s.pc[t].n, ValOf(s.val, s.pc[t].n), s.pc[t].d);
    LinkShape(s, a, t, item);
    LinkMemory(s, a, t, item);
    LiveIsAllocated(s, Live(a));
    var s', a' := Instr(s, t), Apply(a, EventOf(s, Exec(t)));
    forall u | 0 <= u < |s'.pc| ensures PcOk(s', a', u) {
      if u != t {
        LinkPc(s, a, s', a', item, u);
      } else {
        NoClaim(s', a', t);
      }
    }
  }

  lemma LinkFirst(s: State, s': State, t: nat)
    requires ListOk(s, []) && OwnedOk(s, []) && t < |s.pc| && s.pc[t].PushLink?
    requires s'.next == s.next && s'.val == s.val && s'.headNext == s.pc[t].n
    requires s'.pc == s.pc[t := PushTail(s.pc[t].n, s.pc[t].d)]
    ensures var item := Item(s.pc[t].n, ValOf(s.val, s.pc[t].n), s.pc[t].d);
            ListOk(s', [item]) && OwnedOk(s', [item])
  {
    assert Owned(s.pc[t]) == s.pc[t].n && Owned(s'.pc[t]) == 0;
    hide Owned;
  }

  /** Positions of which PcOk demands nothing. */
  lemma NoClaim(s: State, a: Abs, t: nat)
    requires t < |s.pc| == |a.taken| && a.out <= |a.pushed|
    requires s.pc[t].Idle? || s.pc[t].PushLock? || s.pc[t].PushTail? || s.pc[t].PushUnlock?
    ensures PcOk(s, a, t)
  {
  }

  lemma LinkList(s: State, live: seq<Item>, n: nat, next: map<nat, nat>, item: Item)
    requires ListOk(s, live) && live != [] && s.tail == live[|live| - 1].node && next == s.next[s.tail := n]
    requires n != 0 && n in s.next && n in s.val && s.next[n] == 0 && item.node == n && item.v == s.val[n]
    requires forall i :: 0 <= i < |live| ==> live[i].node != n
    ensures ListOk(s.(next := next), live + [item])
  {
  }

  lemma LinkOwned(s: State, s': State, live: seq<Item>, t: nat)
    requires OwnedOk(s, live) && ListOk(s, live) && t < |s.pc| && s.pc[t].PushLink?
    requires live != [] && s.tail == live[|live| - 1].node
    requires s'.next == s.next[s.tail := s.pc[t].n] && s'.val == s.val
    requires s'.pc == s.pc[t := PushTail(s.pc[t].n, s.pc[t].d)]
    ensures OwnedOk(s', live + [Item(s.pc[t].n, ValOf(s.val, s.pc[t].n), s.pc[t].d)])
  {
    assert Owned(s.pc[t]) == s.pc[t].n && Owned(s'.pc[t]) == 0;
    hide Owned, ListOk;
  }

  /** An append changes neither the first node nor the second for a reader that has seen them. */
  lemma LinkPc(s: State, a: Abs, s': State, a': Abs, item: Item, u: nat)
    requires u < |s.pc| == |a.taken| && |s'.pc| == |s.pc| && a.out <= |a.pushed| && PcOk(s, a, u)
    requires a' == a.(pushed := a.pushed + [item]) && Live(a') == Live(a) + [item]
    requires s'.val == s.val && s'.pc[u] == s.pc[u]
    requires forall i :: 0 <= i < |Live(a)| ==> Live(a)[i].node != 0
    ensures PcOk(s', a', u)
  {
    assert NodeAt(Live(a), 0) != 0 ==> NodeAt(Live(a'), 0) == NodeAt(Live(a), 0);
    assert NodeAt(Live(a), 1) != 0 ==> NodeAt(Live(a'), 1) == NodeAt(Live(a), 1);
    PcKept(s, a, s', a', u);
  }

  lemma SimTail(s: State, a: Abs, t: nat)
    requires Rel(s, a) && t < |s.pc| && s.pc[t].PushTail?
    ensures Rel(Instr(s, t), a)
  {
    var s', live := Instr(s, t), Live(a);
    assert s.writeLock == By(t) && live != [] && s.pc[t].n == live[|live| - 1].node;
    LocksKept(s, s', t);
    assert TailOk(s', live);
    TailOwned(s, s', live, t);
    QuietList(s, s', live);
    hide LocksOk, OwnedOk, TailOk, ListOk, PcOk;
    forall u | 0 <= u < |s'.pc| ensures PcOk(s', a, u) {
      if u != t {
        PcKept(s, a, s', a, u);
      } else {
        NoClaim(s', a, t);
      }
    }
  }

  lemma TailOwned(s: State, s': State, live: seq<Item>, t: nat)
    requires OwnedOk(s, live) && t < |s.pc| && s.pc[t].PushTail? && s'.next == s.next && s'.val == s.val
    requires s'.pc == s.pc[t := PushUnlock(s.pc[t].n, s.pc[t].d)]
    ensures OwnedOk(s', live)
  {
    assert Owned(s.pc[t]) == 0 && Owned(s'.pc[t]) == 0;
    hide Owned;
  }

  lemma SimStore(s: State, a: Abs, t: nat)
    requires Rel(s, a) && t < |s.pc| && s.pc[t].FrontStore? && s.pc[t].nx != 0
    ensures Legal(a, Unlinked(t)) && Rel(Instr(s, t), Apply(a, Unlinked(t)))
  {
    var s', live := Instr(s, t), Live(a);
    assert PcOk(s, a, t);
    assert s.readLock == By(t);
    assert 2 <= |live|;
    var a' := Apply(a, Unlinked(t));
    assert Live(a') == live[1..] && a'.taken[t] == Got(live[0]);
    LocksKept(s, s', t);
    StoreList(s, s', live);
    StoreTail(s, s', live, t);
    StoreOwned(s, s', live, t);
    assert PcOk(s', a', t);
    hide OwnedOk, TailOk, ListOk, PcOk;
    forall u | 0 <= u < |s'.pc| ensures PcOk(s', a', u) {
      if u != t {
        assert !Reading(s.pc[u]);
        PcKept(s, a, s', a', u);
      }
    }
  }

  lemma StoreList(s: State, s': State, live: seq<Item>)
    requires ListOk(s, live) && 2 <= |live| && s'.next == s.next && s'.val == s.val && s'.headNext == live[1].node
    ensures ListOk(s', live[1..])
  {
  }

  lemma StoreTail(s: State, s': State, live: seq<Item>, t: nat)
    requires ListOk(s, live) && TailOk(s, live) && 2 <= |live| && t < |s.pc| && s.pc[t].FrontStore?
    requires s'.tail == s.tail && s'.writeLock == s.writeLock
    requires s'.pc == s.pc[t := FrontUnlock(s.pc[t].p)]
    ensures TailOk(s', live[1..])
  {
  }

  lemma StoreOwned(s: State, s': State, live: seq<Item>, t: nat)
    requires OwnedOk(s, live) && ListOk(s, live) && 2 <= |live| && t < |s.pc|
    requires s.pc[t].FrontStore? && s.pc[t].p == live[0].node
    requires s'.next == s.next && s'.val == s.val && s'.pc == s.pc[t := FrontUnlock(s.pc[t].p)]
    ensures OwnedOk(s', live[1..])
  {
    assert Owned(s.pc[t]) == 0 && Owned(s'.pc[t]) == live[0].node;
    hide Owned;
  }

  lemma SimDelete(s: State, a: Abs, t: nat)
    requires Rel(s, a) && t < |s.pc| && s.pc[t].FrontDelete?
    ensures Rel(Instr(s, t), a)
  {
    hide LocksOk, OwnedOk, TailOk, ListOk, PcOk;
    var s', live := Instr(s, t), Live(a);
    assert PcOk(s, a, t);
    DeleteFacts(s, a, t);
    LocksKept(s, s', t);
    DeleteOwned(s, s', live, t);
    hide Owned;
    forall u | 0 <= u < |s'.pc| ensures PcOk(s', a, u) {
      if u != t {
        PcKept(s, a, s', a, u);
      }
    }
  }

  lemma DeleteFacts(s: State, a: Abs, t: nat)
    requires |a.taken| == |s.pc| && a.out <= |a.pushed| && t < |s.pc| && s.pc[t].FrontDelete?
    requires LocksOk(s) && OwnedOk(s, Live(a)) && ListOk(s, Live(a)) && TailOk(s, Live(a)) && PcOk(s, a, t)
    ensures ListOk(Instr(s, t), Live(a)) && TailOk(Instr(s, t), Live(a)) && PcOk(Instr(s, t), a, t)
    ensures s.pc[t].p != 0
    ensures forall u :: 0 <= u < |s.pc| && u != t && Owned(s.pc[u]) != 0 ==> Owned(s.pc[u]) != s.pc[t].p
  {
    assert Owned(s.pc[t]) == s.pc[t].p;
  }

  lemma DeleteOwned(s: State, s': State, live: seq<Item>, t: nat)
    requires OwnedOk(s, live) && t < |s.pc| && s.pc[t].FrontDelete? && s.pc[t].p != 0
    requires s'.next == s.next - {s.pc[t].p} && s'.val == s.val - {s.pc[t].p} && s'.pc == s.pc[t := FrontSub(s.pc[t].v)]
    ensures OwnedOk(s', live)
  {
    assert Owned(s.pc[t]) == s.pc[t].p && Owned(s'.pc[t]) == 0;
    forall u | 0 <= u < |s.pc| && u != t && Owned(s.pc[u]) != 0 ensures Owned(s.pc[u]) != s.pc[t].p {
    }
  }

  lemma SimAlloc(s: State, a: Abs, act: Action)
    requires Rel(s, a) && act.CallPush? && act.t < |s.pc| && s.pc[act.t].Idle? && act.n != 0 && act.n !in s.next
    ensures Rel(Step(s, act), a)
  {
    hide LocksOk, OwnedOk, TailOk, ListOk, PcOk, Owned, Step, ValOf, Reading, Writing;
    var s', live, t := Step(s, act), Live(a), act.t;
    AllocShape(s, act);
    LocksKept(s, s', t);
    AllocList(s, s', live, act);
    AllocOwned(s, s', live, act);
    AllocIsNew(s, live, act.n);
    forall u | 0 <= u < |s'.pc| ensures PcOk(s', a, u) {
      if u != t {
        PcKept(s, a, s', a, u);
      } else {
        NoClaim(s', a, t);
      }
    }
  }

  lemma AllocShape(s: State, act: Action)
    requires act.CallPush? && act.t < |s.pc| && s.pc[act.t].Idle? && act.n != 0 && act.n !in s.next
    ensures var s', t := Step(s, act), act.t;
            && s' == s.(next := s'.next, val := s'.val, pc := s'.pc)
            && s'.next == s.next[act.n := 0] && s'.val == s.val[act.n := act.x]
            && s'.pc == s.pc[t := PushLock(act.n, act.d)]
            && (forall m :: m != act.n ==> ValOf(s'.val, m) == ValOf(s.val, m))
            && LockMove(s.writeLock, s'.writeLock, t, Writing(s.pc[t]), Writing(s'.pc[t]))
            && LockMove(s.readLock, s'.readLock, t, Reading(s.pc[t]), Reading(s'.pc[t]))
  {
    hide Instr;
  }

  lemma AllocList(s: State, s': State, live: seq<Item>, act: Action)
    requires ListOk(s, live) && TailOk(s, live) && act.CallPush? && act.t < |s.pc| && s.pc[act.t].Idle?
    requires act.n !in s.next && s'.next == s.next[act.n := 0] && s'.val == s.val[act.n := act.x]
    requires s'.pc == s.pc[act.t := PushLock(act.n, act.d)]
    requires s'.tail == s.tail && s'.headNext == s.headNext && s'.writeLock == s.writeLock
    ensures ListOk(s', live) && TailOk(s', live)
  {
  }

  lemma AllocIsNew(s: State, live: seq<Item>, n: nat)
    requires OwnedOk(s, live) && n !in s.next
    ensures forall u :: 0 <= u < |s.pc| && Owned(s.pc[u]) != 0 ==> Owned(s.pc[u]) != n
  {
    hide Owned;
  }

  lemma AllocOwned(s: State, s': State, live: seq<Item>, act: Action)
    requires OwnedOk(s, live) && ListOk(s, live) && act.CallPush? && act.t < |s.pc| && s.pc[act.t].Idle?
    requires act.n != 0 && act.n !in s.next
    requires s'.next == s.next[act.n := 0] && s'.val == s.val[act.n := act.x]
    requires s'.pc == s.pc[act.t := PushLock(act.n, act.d)]
    ensures OwnedOk(s', live)
  {
    assert Owned(s.pc[act.t]) == 0 && Owned(s'.pc[act.t]) == act.n;
    hide Owned;
  }

  lemma SpawnKeeps(s: State, live: seq<Item>)
    requires LocksOk(s) && OwnedOk(s, live) && TailOk(s, live)
    ensures LocksOk(Step(s, Spawn)) && OwnedOk(Step(s, Spawn), live) && TailOk(Step(s, Spawn), live)
  {
    var s' := Step(s, Spawn);
    assert forall u :: 0 <= u < |s'.pc| ==> s'.pc[u] == if u < |s.pc| then s.pc[u] else Idle;
    assert Owned(Idle) == 0;
    hide Owned;
  }

  lemma SimSpawn(s: State, a: Abs)
    requires Rel(s, a)
    ensures Rel(Step(s, Spawn), Apply(a, Started))
  {
    var s', a' := Step(s, Spawn), Apply(a, Started);
    SpawnKeeps(s, Live(a));
    QuietList(s, s', Live(a));
    assert s'.pc == s.pc + [Idle] && a'.taken == a.taken + [Nothing] && Live(a') == Live(a);
    hide LocksOk, OwnedOk, TailOk, ListOk, PcOk, Step, Apply, Owned, ValOf, Reading;
    forall u | 0 <= u < |s'.pc| ensures PcOk(s', a', u) {
      if u < |s.pc| {
        PcKept(s, a, s', a', u);
      } else {
        NoClaim(s', a', u);
      }
    }
  }

  /** A front stores into head.next the null link of a node that was the last when it read it. */
  predicate StoresNull(s: State, act: Action) {
    act.Exec? && act.t < |s.pc| && s.pc[act.t].FrontStore? && s.pc[act.t].nx == 0
  }

  /** Forward simulation: whatever action comes next, unless it stores null into head.next, it is one legal
      event of the abstract queue. */
  lemma Simulation(s: State, a: Abs, act: Action)
    requires Rel(s, a) && !StoresNull(s, act)
    ensures Legal(a, EventOf(s, act)) && Rel(Step(s, act), Apply(a, EventOf(s, act)))
  {
    hide Rel;
    match act
    case Spawn => SimSpawn(s, a);
    case CallPush(t, x, n, d) =>
      if t < |s.pc| && s.pc[t].Idle? && n != 0 && n !in s.next {
        SimAlloc(s, a, act);
      }
    case CallFront(t) =>
      if t < |s.pc| && s.pc[t].Idle? {
        SimQuiet(s, a, act);
      }
    case Exec(t) =>
      if t < |s.pc| {
        if s.pc[t].PushLink? {
          SimLink(s, a, t);
        } else if s.pc[t].PushTail? {
          SimTail(s, a, t);
        } else if s.pc[t].FrontStore? {
          SimStore(s, a, t);
        } else if s.pc[t].FrontDelete? {
          SimDelete(s, a, t);
        } else {
          SimQuiet(s, a, act);
        }
      }
  }

  // ---------------------------------------------------------------------------------------------
  // Whole runs

  function Final(s: State, acts: seq<Action>): State
    decreases |acts|
  {
    if acts == [] then s else Final(Step(s, acts[0]), acts[1..])
  }

  function Events(s: State, acts: seq<Action>): seq<Event>
    decreases |acts|
  {
    if acts == [] then [] else [EventOf(s, acts[0])] + Events(Step(s, acts[0]), acts[1..])
  }

  /** A sequential run of a first-in first-out queue. */
  predicate LegalRun(a: Abs, es: seq<Event>)
    decreases |es|
  {
    es == [] || (Legal(a, es[0]) && LegalRun(Apply(a, es[0]), es[1..]))
  }

  function Replay(a: Abs, es: seq<Event>): Abs
    requires LegalRun(a, es)
    decreases |es|
  {
    if es == [] then a else Replay(Apply(a, es[0]), es[1..])
  }

  /** No step of the run stores null into head.next. */
  predicate Intact(s: State, acts: seq<Action>)
    decreases |acts|
  {
    acts == [] || (!StoresNull(s, acts[0]) && Intact(Step(s, acts[0]), acts[1..]))
  }

  /** As long as no front stores null into head.next, every interleaving of pushes and fronts is a legal
      first-in first-out run: what was popped, followed by what is still linked, is what was pushed, in
      linking order. */
  lemma {:induction false} RunIsFifo(s: State, a: Abs, acts: seq<Action>)
    requires Rel(s, a) && Intact(s, acts)
    ensures LegalRun(a, Events(s, acts)) && Rel(Final(s, acts), Replay(a, Events(s, acts)))
    ensures Replay(a, Events(s, acts)).out <= |Replay(a, Events(s, acts)).pushed|
    ensures a.pushed <= Replay(a, Events(s, acts)).pushed && a.out <= Replay(a, Events(s, acts)).out
    decreases |acts|
  {
    RelOut(s, a);
    hide Rel, StoresNull;
    if acts != [] {
      Simulation(s, a, acts[0]);
      var s1, a1 := Step(s, acts[0]), Apply(a, EventOf(s, acts[0]));
      RunIsFifo(s1, a1, acts[1..]);
      var es := Events(s, acts);
      assert es[0] == EventOf(s, acts[0]) && es[1..] == Events(s1, acts[1..]);
      assert a.pushed <= a1.pushed;
    }
  }

  lemma RelOut(s: State, a: Abs)
    requires Rel(s, a)
    ensures a.out <= |a.pushed| && (Live(a) == [] <==> a.pushed == [])
  {
  }

  /** A front that has found a node gives up exactly when tail points to it: one node is left and its push has
      moved tail, or a second one is linked whose push has not.  It passes the null test iff it has found a
      node. */
  lemma FrontFailsIff(s: State, a: Abs, t: nat)
    requires Rel(s, a) && t < |s.pc|
    ensures |Instr(s, t).pc| == |s.pc|
    ensures s.pc[t].FrontTail? && s.pc[t].p != 0 ==>
              (Instr(s, t).pc[t].FrontFail? <==>
               |Live(a)| == if exists u :: 0 <= u < |s.pc| && s.pc[u].PushTail? then 2 else 1)
    ensures s.pc[t].FrontTail? && s.pc[t].p == 0 ==> Instr(s, t).pc[t] == FrontNull(0)
    ensures s.pc[t].FrontNull? ==> (Instr(s, t).pc[t].FrontNext? <==> s.pc[t].p != 0)
  {
    assert PcOk(s, a, t);
    var live := Live(a);
    if s.pc[t].FrontTail? && s.pc[t].p != 0 {
      assert s.pc[t].p == live[0].node != 0;
      assert (exists u :: 0 <= u < |s.pc| && s.pc[u].PushTail?) <==> InWindow(s);
    }
  }

  /** Every node a step touches is allocated. */
  lemma NoWildAccess(s: State, a: Abs, t: nat)
    requires Rel(s, a) && t < |s.pc|
    ensures s.pc[t].PushLink? && s.tail != 0 ==> s.tail in s.next
    ensures s.pc[t].FrontNext? ==> s.pc[t].p in s.next
    ensures s.pc[t].FrontRead? ==> s.pc[t].p in s.val
    ensures s.pc[t].FrontDelete? ==> s.pc[t].p in s.next
  {
    assert PcOk(s, a, t);
    if s.pc[t].FrontRead? || s.pc[t].FrontDelete? {
      assert Owned(s.pc[t]) == s.pc[t].p;
    }
    if s.pc[t].PushLink? {
      assert s.writeLock == By(t) && !InWindow(s);
    }
  }

  /** Following next from `from` through the nodes of path. */
  ghost predicate IsPath(next: map<nat, nat>, from: nat, path: seq<nat>) {
    && path != [] && path[0] == from
    && (forall i :: 0 <= i < |path| ==> path[i] != 0 && path[i] in next)
    && (forall i :: 0 <= i < |path| - 1 ==> next[path[i]] == path[i + 1])
  }

  /** The node tail points to, if it is a node, is allocated and reachable from head. */
  ghost predicate TailLinked(s: State) {
    s.tail == 0 || exists path :: IsPath(s.next, s.headNext, path) && path[|path| - 1] == s.tail
  }

  ghost predicate TailLive(s: State, live: seq<Item>) {
    exists i :: 0 <= i < |live| && live[i].node == s.tail
  }

  lemma LiveIsLinked(s: State, live: seq<Item>)
    requires ListOk(s, live) && TailLive(s, live)
    ensures s.tail != 0 && TailLinked(s)
  {
    var k :| 0 <= k < |live| && live[k].node == s.tail;
    var path := seq(k + 1, i requires 0 <= i <= k => live[i].node);
    assert IsPath(s.next, s.headNext, path) && path[|path| - 1] == s.tail;
  }

  /** Whoever follows the links from head meets the live nodes, one after the other. */
  lemma {:induction false} PathIsLive(s: State, live: seq<Item>, path: seq<nat>, i: nat)
    requires ListOk(s, live) && IsPath(s.next, s.headNext, path) && i < |path|
    ensures i < |live| && path[i] == live[i].node
  {
    if i > 0 {
      PathIsLive(s, live, path, i - 1);
      assert s.next[path[i - 1]] == path[i];
    }
  }

  lemma LinkedIsLive(s: State, live: seq<Item>)
    requires ListOk(s, live) && TailLinked(s) && s.tail != 0
    ensures TailLive(s, live)
  {
    var path :| IsPath(s.next, s.headNext, path) && path[|path| - 1] == s.tail;
    PathIsLive(s, live, path, |path| - 1);
  }

  // ---------------------------------------------------------------------------------------------
  // size and all_poped

  function Adding(): Pc -> nat { (pc: Pc) => if pc.PushTail? || pc.PushUnlock? || pc.PushAdd? then 1 else 0 }
  function Subtracting(): Pc -> nat {
    (pc: Pc) => if pc.FrontUnlock? || pc.FrontRead? || pc.FrontDelete? || pc.FrontSub? then 1 else 0
  }

  /** size counts the linked nodes, less the pushes not yet counted, plus the pops not yet discounted. */
  ghost predicate SizeOk(s: State, a: Abs)
    requires a.out <= |a.pushed|
  {
    0 <= s.size < WORD && (s.size + Sum(s.pc, Adding()) - |Live(a)| - Sum(s.pc, Subtracting())) % WORD == 0
  }

  /** size relative to the abstract queue. */
  ghost function Drift(s: State, a: Abs, adding: int, subtracting: int): int
    requires a.out <= |a.pushed|
  {
    s.size + adding - (|a.pushed| - a.out) - subtracting
  }

  lemma SpawnSize(s: State, a: Abs)
    requires a.out <= |a.pushed| && SizeOk(s, a)
    ensures SizeOk(Step(s, Spawn), Apply(a, Started))
  {
    SumAppend(s.pc, Idle, Adding());
    SumAppend(s.pc, Idle, Subtracting());
    assert Live(Apply(a, Started)) == Live(a);
    hide Sum;
  }

  lemma ActorSize(s: State, a: Abs, act: Action)
    requires a.out <= |a.pushed| && SizeOk(s, a) && Legal(a, EventOf(s, act)) && !act.Spawn? && act.t < |s.pc|
    ensures Apply(a, EventOf(s, act)).out <= |Apply(a, EventOf(s, act)).pushed|
    ensures SizeOk(Step(s, act), Apply(a, EventOf(s, act)))
  {
    PcShape(s, act);
    DriftSteps(s, a, act);
    hide Step, Apply, EventOf, Legal, Adding, Subtracting;
    var s', a' := Step(s, act), Apply(a, EventOf(s, act));
    SumUpdate(s.pc, act.t, s'.pc[act.t], Adding());
    SumUpdate(s.pc, act.t, s'.pc[act.t], Subtracting());
    SameRemainder(s.size + Sum(s.pc, Adding()) - |Live(a)| - Sum(s.pc, Subtracting()),
                  s'.size + Sum(s'.pc, Adding()) - |Live(a')| - Sum(s'.pc, Subtracting()));
  }

  lemma StepSize(s: State, a: Abs, act: Action)
    requires a.out <= |a.pushed| && SizeOk(s, a) && Legal(a, EventOf(s, act))
    ensures Apply(a, EventOf(s, act)).out <= |Apply(a, EventOf(s, act)).pushed|
    ensures SizeOk(Step(s, act), Apply(a, EventOf(s, act)))
  {
    hide SizeOk;
    if act.Spawn? {
      SpawnSize(s, a);
    } else if act.t < |s.pc| {
      ActorSize(s, a, act);
    }
  }

  lemma SameRemainder(x: int, y: int)
    requires y - x == 0 || y - x == WORD || y - x == 0 - WORD
    ensures x % WORD == y % WORD
  {
  }

  lemma OnlyOne(size: nat, n: nat)
    requires size < WORD && 1 <= n <= WORD && (size - n) % WORD == 0
    ensures size == 1 <==> n == 1
  {
  }

  lemma PcShape(s: State, act: Action)
    requires !act.Spawn? && act.t < |s.pc|
    ensures |Step(s, act).pc| == |s.pc| && Step(s, act).pc == s.pc[act.t := Step(s, act).pc[act.t]]
  {
    assert s.pc == s.pc[act.t := s.pc[act.t]];
  }

  lemma Wraps(x: int)
    requires 0 <= x < WORD
    ensures (x + 1) % WORD == if x + 1 < WORD then x + 1 else 0
    ensures (x + WORD - 1) % WORD == if x > 0 then x - 1 else WORD - 1
  {
  }

  /** How far a step moves size away from the count of live and moving nodes: not at all, or once round. */
  ghost predicate NoDrift(s: State, a: Abs, act: Action)
    requires a.out <= |a.pushed| && Legal(a, EventOf(s, act)) && !act.Spawn? && act.t < |s.pc|
  {
    var s', a' := Step(s, act), Apply(a, EventOf(s, act));
    && |s'.pc| == |s.pc| && 0 <= s'.size < WORD && a'.out <= |a'.pushed|
    && (var d := Drift(s', a', Adding()(s'.pc[act.t]), Subtracting()(s'.pc[act.t]))
                 - Drift(s, a, Adding()(s.pc[act.t]), Subtracting()(s.pc[act.t]));
        d == 0 || d == WORD || d == 0 - WORD)
  }

  lemma DriftPush(s: State, a: Abs, t: nat)
    requires a.out <= |a.pushed| && Legal(a, EventOf(s, Exec(t))) && t < |s.pc| && 0 <= s.size < WORD
    requires !IsFront(s.pc[t])
    ensures NoDrift(s, a, Exec(t))
  {
    Wraps(s.size);
    hide ValOf;
  }

  lemma DriftFront(s: State, a: Abs, t: nat)
    requires a.out <= |a.pushed| && Legal(a, EventOf(s, Exec(t))) && t < |s.pc| && 0 <= s.size < WORD
    requires IsFront(s.pc[t])
    ensures NoDrift(s, a, Exec(t))
  {
    Wraps(s.size);
    hide Deref, ValOf;
  }

  lemma DriftSteps(s: State, a: Abs, act: Action)
    requires a.out <= |a.pushed| && Legal(a, EventOf(s, act)) && !act.Spawn? && act.t < |s.pc| && 0 <= s.size < WORD
    ensures NoDrift(s, a, act)
  {
    if act.Exec? {
      hide NoDrift, IsFront;
      if IsFront(s.pc[act.t]) {
        DriftFront(s, a, act.t);
      } else {
        DriftPush(s, a, act.t);
      }
    } else {
      hide Instr;
    }
  }

  lemma {:induction false} RunSize(s: State, a: Abs, acts: seq<Action>)
    requires Rel(s, a) && a.out <= |a.pushed| && SizeOk(s, a) && Intact(s, acts)
    ensures LegalRun(a, Events(s, acts))
    ensures Replay(a, Events(s, acts)).out <= |Replay(a, Events(s, acts)).pushed|
    ensures SizeOk(Final(s, acts), Replay(a, Events(s, acts)))
    decreases |acts|
  {
    hide Rel, SizeOk, StoresNull;
    RunIsFifo(s, a, acts);
    if acts != [] {
      Simulation(s, a, acts[0]);
      StepSize(s, a, acts[0]);
      var s1, a1 := Step(s, acts[0]), Apply(a, EventOf(s, acts[0]));
      RunSize(s1, a1, acts[1..]);
      var es := Events(s, acts);
      assert es[0] == EventOf(s, acts[0]) && es[1..] == Events(s1, acts[1..]);
    }
  }

  /** A thread inside flush has linked its dummy and not yet set the flag. */
  predicate Flushing(pc: Pc) {
    pc.SetFlushed? || ((pc.PushTail? || pc.PushUnlock? || pc.PushAdd?) && pc.d)
  }

  ghost predicate FlushSeen(s: State) {
    s.flushed || exists t :: 0 <= t < |s.pc| && Flushing(s.pc[t])
  }

  predicate LinksDummy(e: Event) {
    e.Linked? && e.item.dummy
  }

  /** Some event links a dummy. */
  ghost predicate SomeDummy(es: seq<Event>) {
    exists i :: 0 <= i < |es| && LinksDummy(es[i])
  }

  lemma SomeDummyCons(e: Event, es: seq<Event>)
    ensures SomeDummy([e] + es) <==> LinksDummy(e) || SomeDummy(es)
  {
    var fs := [e] + es;
    hide LinksDummy;
    assert fs[0] == e;
    if i :| 0 <= i < |es| && LinksDummy(es[i]) {
      assert fs[i + 1] == es[i];
    }
    if i :| 0 <= i < |fs| && LinksDummy(fs[i]) {
      assert i > 0 ==> fs[i] == es[i - 1];
    }
  }

  /** What a step of a thread does to the flag is what it does to its own place and the list. */
  ghost predicate FlagMoves(s: State, act: Action)
    requires !act.Spawn? && act.t < |s.pc|
  {
    var s' := Step(s, act);
    && |s'.pc| == |s.pc|
    && (s.flushed || Flushing(s.pc[act.t]) || LinksDummy(EventOf(s, act)) <==> s'.flushed || Flushing(s'.pc[act.t]))
    && (s.flushed ==> s'.flushed)
  }

  lemma PushFlag(s: State, t: nat)
    requires t < |s.pc| && !IsFront(s.pc[t])
    ensures FlagMoves(s, Exec(t))
  {
    hide ValOf;
  }

  lemma FrontFlag(s: State, t: nat)
    requires t < |s.pc| && IsFront(s.pc[t])
    ensures FlagMoves(s, Exec(t))
  {
    hide Deref, ValOf;
  }

  lemma StepFlush(s: State, act: Action)
    requires !act.Spawn? && act.t < |s.pc|
    ensures FlagMoves(s, act)
  {
    if act.Exec? {
      hide FlagMoves, IsFront;
      if IsFront(s.pc[act.t]) {
        FrontFlag(s, act.t);
      } else {
        PushFlag(s, act.t);
      }
    } else {
      hide Instr;
    }
  }

  lemma FlushKept(s: State, act: Action)
    ensures FlushSeen(Step(s, act)) <==> FlushSeen(s) || LinksDummy(EventOf(s, act))
  {
    var s' := Step(s, act);
    if act.Spawn? {
      assert forall t :: 0 <= t < |s.pc| ==> s'.pc[t] == s.pc[t];
      assert !Flushing(s'.pc[|s.pc|]);
    } else if act.t < |s.pc| {
      StepFlush(s, act);
      PcShape(s, act);
      hide Step, EventOf, Flushing;
      if t :| 0 <= t < |s.pc| && Flushing(s.pc[t]) && t != act.t {
        assert s'.pc[t] == s.pc[t];
      }
      if t :| 0 <= t < |s'.pc| && Flushing(s'.pc[t]) && t != act.t {
        assert s'.pc[t] == s.pc[t];
      }
    }
  }

  /** Over every run whatever: the flag is up, or on its way up in some flush, iff some dummy has been linked. */
  lemma {:induction false} RunFlush(s: State, acts: seq<Action>)
    ensures FlushSeen(Final(s, acts)) <==> FlushSeen(s) || SomeDummy(Events(s, acts))
    decreases |acts|
  {
    hide Step, EventOf, FlushSeen, SomeDummy;
    if acts != [] {
      FlushKept(s, acts[0]);
      RunFlush(Step(s, acts[0]), acts[1..]);
      SomeDummyCons(EventOf(s, acts[0]), Events(Step(s, acts[0]), acts[1..]));
    } else {
      NoDummy([]);
    }
  }

  lemma NoDummy(es: seq<Event>)
    requires es == []
    ensures !SomeDummy(es)
  {
  }

  ghost predicate HasDummy(items: seq<Item>) {
    exists i :: 0 <= i < |items| && items[i].dummy
  }

  lemma {:induction false} DummyPushed(a: Abs, es: seq<Event>)
    requires LegalRun(a, es)
    ensures HasDummy(Replay(a, es).pushed) <==> HasDummy(a.pushed) || SomeDummy(es)
    decreases |es|
  {
    if es != [] {
      DummyPushed(Apply(a, es[0]), es[1..]);
      DummyOnce(a, es[0]);
      SomeDummyCons(es[0], es[1..]);
      assert [es[0]] + es[1..] == es;
    }
    hide Apply, Legal, HasDummy;
  }

  lemma DummyOnce(a: Abs, e: Event)
    requires Legal(a, e)
    ensures HasDummy(Apply(a, e).pushed) <==> HasDummy(a.pushed) || LinksDummy(e)
  {
    if e.Linked? {
      assert Apply(a, e).pushed[|a.pushed|] == e.item;
      if i :| 0 <= i < |a.pushed| && a.pushed[i].dummy {
        assert Apply(a, e).pushed[i] == a.pushed[i];
      }
    }
  }

  /** In every state, with threads anywhere (and fewer than 2^32 nodes about): all_poped holds iff the flag is up and
      the nodes still linked, with those popped and not yet discounted, are one more than those linked and not yet
      counted. */
  lemma AllPopedIff(s: State, a: Abs)
    requires a.out <= |a.pushed| && SizeOk(s, a)
    requires 1 - WORD < |Live(a)| + Sum(s.pc, Subtracting()) - Sum(s.pc, Adding()) <= WORD
    ensures AllPoped(s) <==> s.flushed && |Live(a)| + Sum(s.pc, Subtracting()) == 1 + Sum(s.pc, Adding())
  {
    hide Sum;
    SmallRemainder(s.size - (|Live(a)| + Sum(s.pc, Subtracting()) - Sum(s.pc, Adding())));
  }

  lemma SmallRemainder(x: int)
    requires x % WORD == 0 && 0 - WORD <= x < 2 * WORD - 1
    ensures x == 0 || x == WORD || x == 0 - WORD
  {
  }

  /** At rest, with nothing pushed after the flush, all_poped holds exactly when every real value has been
      popped (short of 2^32 nodes at once, which would not fit in memory). */
  lemma AllPopedAtRest(s: State, a: Abs)
    requires Rel(s, a) && a.out <= |a.pushed| && SizeOk(s, a) && |Live(a)| <= WORD
    requires forall t :: 0 <= t < |s.pc| ==> s.pc[t].Idle?
    requires s.flushed && a.pushed != [] && a.pushed[|a.pushed| - 1].dummy
    requires forall i :: 0 <= i < |a.pushed| - 1 ==> !a.pushed[i].dummy
    ensures AllPoped(s) <==> forall i :: 0 <= i < |a.pushed| && !a.pushed[i].dummy ==> i < a.out
  {
    RelOut(s, a);
    hide Rel, Sum;
    SumZero(s.pc, Adding());
    SumZero(s.pc, Subtracting());
    OnlyOne(s.size, |Live(a)|);
    assert |a.pushed| >= 2 ==> !a.pushed[|a.pushed| - 2].dummy;
  }

  // ---------------------------------------------------------------------------------------------
  // Whole runs from the empty queue

  const EMPTY: Abs := Abs([], 0, [])

  /** Memory represents the abstract queue, and size is right. */
  ghost predicate Sound(s: State, a: Abs) {
    Rel(s, a) && a.out <= |a.pushed| && SizeOk(s, a)
  }

  lemma InitSound()
    ensures Sound(INIT, EMPTY)
  {
    assert Live(EMPTY) == [];
  }

  /** From the empty queue, any threads pushing, flushing and popping in any interleaving: as long as no front
      stores null into head.next, the whole run is a legal run of a first-in first-out queue. */
  lemma QueueIsFifo(acts: seq<Action>)
    requires Intact(INIT, acts)
    ensures LegalRun(EMPTY, Events(INIT, acts))
    ensures Sound(Final(INIT, acts), Replay(EMPTY, Events(INIT, acts)))
  {
    InitSound();
    hide Rel, SizeOk, Step;
    RunSize(INIT, EMPTY, acts);
    RunIsFifo(INIT, EMPTY, acts);
  }

  /** After such a run, when no thread is inside flush, the flag is up iff a dummy has been pushed; until then
      all_poped is false. */
  lemma FlushedIff(acts: seq<Action>)
    requires Intact(INIT, acts)
    requires forall t :: 0 <= t < |Final(INIT, acts).pc| ==> !Flushing(Final(INIT, acts).pc[t])
    ensures LegalRun(EMPTY, Events(INIT, acts))
    ensures Final(INIT, acts).flushed <==> HasDummy(Replay(EMPTY, Events(INIT, acts)).pushed)
    ensures AllPoped(Final(INIT, acts)) ==> HasDummy(Replay(EMPTY, Events(INIT, acts)).pushed)
  {
    hide Rel, Step, SizeOk, Legal, Apply;
    QueueIsFifo(acts);
    RunFlush(INIT, acts);
    DummyPushed(EMPTY, Events(INIT, acts));
  }

  /** At rest after such a run, with nothing pushed after the one flush, all_poped holds exactly when every
      real value has been popped (short of 2^32 nodes at once, which would not fit in memory). */
  lemma AllPopedExact(acts: seq<Action>)
    requires Intact(INIT, acts)
    requires forall t :: 0 <= t < |Final(INIT, acts).pc| ==> Final(INIT, acts).pc[t].Idle?
    ensures LegalRun(EMPTY, Events(INIT, acts))
    ensures var s, a := Final(INIT, acts), Replay(EMPTY, Events(INIT, acts));
            && a.out <= |a.pushed| && (a.pushed != [] ==> a.out < |a.pushed|)
            && (!HasDummy(a.pushed) ==> !AllPoped(s))
            && (a.pushed != [] && a.pushed[|a.pushed| - 1].dummy
                && (forall i :: 0 <= i < |a.pushed| - 1 ==> !a.pushed[i].dummy)
                && |a.pushed| - a.out <= WORD
                ==> (AllPoped(s) <==> forall i :: 0 <= i < |a.pushed| && !a.pushed[i].dummy ==> i < a.out))
  {
    hide Rel, Step, SizeOk, Legal, Apply, AllPoped;
    QueueIsFifo(acts);
    FlushedIff(acts);
    var s, a := Final(INIT, acts), Replay(EMPTY, Events(INIT, acts));
    RelOut(s, a);
    if a.pushed != [] && a.pushed[|a.pushed| - 1].dummy && (forall i :: 0 <= i < |a.pushed| - 1 ==> !a.pushed[i].dummy)
       && |a.pushed| - a.out <= WORD {
      assert HasDummy(a.pushed);
      AllPopedAtRest(s, a);
    }
  }

  lemma {:induction false} FinalConcat(s: State, before: seq<Action>, after: seq<Action>)
    ensures Final(s, before + after) == Final(Final(s, before), after)
    decreases |before|
  {
    if before == [] {
      assert before + after == after;
    } else {
      assert (before + after)[0] == before[0] && (before + after)[1..] == before[1..] + after;
      FinalConcat(Step(s, before[0]), before[1..], after);
    }
  }

  // ---------------------------------------------------------------------------------------------
  // The same queue with its memory updated in place

  class Machine {
    var next: map<nat, nat>
    var val: map<nat, int>
    var headNext: nat
    var tail: nat
    var writeLock: Lock
    var readLock: Lock
    var size: nat
    var flushed: bool
    var pc: seq<Pc>

    function View(): State
      reads this
    {
      State(next, val, headNext, tail, writeLock, readLock, size, flushed, pc)
    }

    constructor ()
      ensures View() == INIT
    {
      next, val, headNext, tail := map[], map[], 0, 0;
      writeLock, readLock := Free, Free;
      size, flushed, pc := 0, false, [];
    }

    /** One memory access of thread t inside push or flush. */
    method ExecPush(t: nat)
      requires t < |pc|
      requires Writing(pc[t]) || pc[t].PushLock? || pc[t].PushAdd? || pc[t].SetFlushed?
      modifies this
      ensures View() == Instr(old(View()), t)
    {
      match pc[t]
      case PushLock(n, d) =>
        if writeLock.Free? {
          writeLock := By(t);
          pc := pc[t := PushLink(n, d)];
        }
      case PushLink(n, d) =>
        if tail == 0 {
          headNext := n;
        } else {
          next := next[tail := n];
        }
        pc := pc[t := PushTail(n, d)];
      case PushTail(n, d) =>
        tail := n;
        pc := pc[t := PushUnlock(n, d)];
      case PushUnlock(n, d) =>
        writeLock := Free;
        pc := pc[t := PushAdd(d)];
      case PushAdd(d) =>
        size := (size + 1) % WORD;
        pc := pc[t := if d then SetFlushed else Idle];
      case SetFlushed =>
        flushed := true;
        pc := pc[t := Idle];
    }

    /** One memory access of thread t inside front: taking the lock, and looking and unlinking under it. */
    method ExecLocked(t: nat)
      requires t < |pc| && IsFront(pc[t])
      requires !pc[t].FrontUnlock? && !pc[t].FrontFail? && !pc[t].FrontRead? && !pc[t].FrontDelete? && !pc[t].FrontSub?
      modifies this
      ensures View() == Instr(old(View()), t)
    {
      match pc[t]
      case FrontLock =>
        if readLock.Free? {
          readLock := By(t);
          pc := pc[t := FrontHead];
        }
      case FrontHead =>
        pc := pc[t := FrontTail(headNext)];
      case FrontTail(p) =>
        pc := pc[t := if tail == p && p != 0 then FrontFail else FrontNull(p)];
      case FrontNull(p) =>
        pc := pc[t := if p == 0 then FrontFail else FrontNext(p)];
      case FrontNext(p) =>
        pc := pc[t := FrontStore(p, Deref(next, p))];
      case FrontStore(p, nx) =>
        headNext := nx;
        pc := pc[t := FrontUnlock(p)];
    }

    /** Giving the lock back, and what front does with its node afterwards. */
    method ExecUnlocked(t: nat)
      requires t < |pc|
      requires pc[t].FrontUnlock? || pc[t].FrontFail? || pc[t].FrontRead? || pc[t].FrontDelete? || pc[t].FrontSub?
      modifies this
      ensures View() == Instr(old(View()), t)
    {
      match pc[t]
      case FrontUnlock(p) =>
        readLock := Free;
        pc := pc[t := FrontRead(p)];
      case FrontFail =>
        readLock := Free;
        pc := pc[t := Idle];
      case FrontRead(p) =>
        pc := pc[t := FrontDelete(p, ValOf(val, p))];
      case FrontDelete(p, v) =>
        next, val := next - {p}, val - {p};
        pc := pc[t := FrontSub(v)];
      case FrontSub(v) =>
        size := (size + WORD - 1) % WORD;
        pc := pc[t := Idle];
    }

    method ExecFront(t: nat)
      requires t < |pc| && IsFront(pc[t])
      modifies this
      ensures View() == Instr(old(View()), t)
    {
      hide Instr;
      if pc[t].FrontUnlock? || pc[t].FrontFail? || pc[t].FrontRead? || pc[t].FrontDelete? || pc[t].FrontSub? {
        ExecUnlocked(t);
      } else {
        ExecLocked(t);
      }
    }

    method Take(act: Action)
      modifies this
      ensures View() == Step(old(View()), act)
    {
      match act
      case Spawn =>
        pc := pc + [Idle];
      case CallPush(t, x, n, d) =>
        if t < |pc| && pc[t].Idle? && n != 0 && n !in next {
          next, val := next[n := 0], val[n := x];
          pc := pc[t := PushLock(n, d)];
        }
      case CallFront(t) =>
        if t < |pc| && pc[t].Idle? {
          pc := pc[t := FrontLock];
        }
      case Exec(t) =>
        if t < |pc| && !pc[t].Idle? {
          if IsFront(pc[t]) {
            ExecFront(t);
          } else {
            ExecPush(t);
          }
        }
    }
  }
}
