/** What callers of container/pqueue.h see: the values and the answers of every call over a run. */
module PQueueCalls {
  import opened PQueue
  import opened Sums

  /** The value a push or flush hands over, with the mark of the push that flush makes. */
  datatype Op = Push(x: int, dummy: bool) | Front

  datatype Answer = Pushed | Flushed | Failed | Got(v: int)

  // ---------------------------------------------------------------------------------------------
  // What is linked is what was pushed

  /** The call that the action makes, read from the schedule: accepted iff the thread is idle and, for a push,
      new has returned a node. */
  function CallBy(s: State, act: Action, t: nat): seq<Op>
    requires t < |s.pc|
  {
    match act
    case CallPush(u, x, n, d) => if u == t && s.pc[t].Idle? && n != 0 && n !in s.next then [Push(x, d)] else []
    case CallFront(u) => if u == t && s.pc[t].Idle? then [Front] else []
    case _ => []
  }

  function PushesIn(ops: seq<Op>): seq<Op> {
    if ops == [] then [] else (if ops[0].Push? then [ops[0]] else []) + PushesIn(ops[1..])
  }

  lemma {:induction false} PushesConcat(a: seq<Op>, b: seq<Op>)
    ensures PushesIn(a + b) == PushesIn(a) + PushesIn(b)
  {
    if a == [] {
      assert a + b == b;
    } else {
      assert (a + b)[0] == a[0] && (a + b)[1..] == a[1..] + b;
      PushesConcat(a[1..], b);
    }
  }

  /** The value that an event of thread t links into the queue. */
  function LinkedBy(e: Event, t: nat): seq<Op> {
    if e.Linked? && e.t == t then [Push(e.item.v, e.item.dummy)] else []
  }

  function AllLinked(es: seq<Event>, t: nat): seq<Op> {
    if es == [] then [] else LinkedBy(es[0], t) + AllLinked(es[1..], t)
  }

  /** The value that thread t has put into a node and not yet linked. */
  function ToLink(s: State, t: nat): seq<Op>
    requires t < |s.pc|
  {
    if s.pc[t].PushLock? || s.pc[t].PushLink? then [Push(ValOf(s.val, s.pc[t].n), s.pc[t].d)] else []
  }

  ghost function CallLog(s: State, acts: seq<Action>, t: nat): seq<Op>
    requires t < |s.pc|
    decreases |acts|
  {
    if acts == [] then [] else
      Threads(s, acts[0]);
      CallBy(s, acts[0], t) + CallLog(Step(s, acts[0]), acts[1..], t)
  }

  /** Threads stay, and only the actor moves. */
  lemma Threads(s: State, act: Action)
    ensures |s.pc| <= |Step(s, act).pc|
    ensures forall u :: 0 <= u < |s.pc| && (act.Spawn? || act.t != u) ==> Step(s, act).pc[u] == s.pc[u]
  {
    if !act.Spawn? && act.t < |s.pc| {
      PcShape(s, act);
    }
    hide Instr;
  }

  /** Where a step of push or flush leads. */
  lemma PushNext(s: State, t: nat)
    requires t < |s.pc| && !IsFront(s.pc[t])
    ensures |PushInstr(s, t).pc| == |s.pc|
    ensures PushInstr(s, t).pc[t] ==
            match s.pc[t]
            case PushLock(n, d) => if s.writeLock.Free? then PushLink(n, d) else s.pc[t]
            case PushLink(n, d) => PushTail(n, d)
            case PushTail(n, d) => PushUnlock(n, d)
            case PushUnlock(n, d) => PushAdd(d)
            case PushAdd(d) => if d then SetFlushed else Idle
            case _ => Idle
  {
  }

  lemma FrontMoves(s: State, t: nat)
    requires t < |s.pc| && IsFront(s.pc[t])
    ensures |FrontInstr(s, t).pc| == |s.pc|
    ensures FrontInstr(s, t).pc[t] ==
            match s.pc[t]
            case FrontLock => if s.readLock.Free? then FrontHead else FrontLock
            case FrontHead => FrontTail(s.headNext)
            case FrontTail(p) => if s.tail == p && p != 0 then FrontFail else FrontNull(p)
            case FrontNull(p) => if p == 0 then FrontFail else FrontNext(p)
            case FrontNext(p) => FrontStore(p, Deref(s.next, p))
            case FrontStore(p, nx) => FrontUnlock(p)
            case FrontUnlock(p) => FrontRead(p)
            case FrontRead(p) => FrontDelete(p, ValOf(s.val, p))
            case FrontDelete(p, v) => FrontSub(v)
            case _ => Idle
  {
    hide Deref, ValOf;
  }

  /** Only push writes values, into nodes of its own; the values of other threads' nodes stay. */
  lemma ValuesStay(s: State, a: Abs, act: Action, t: nat)
    requires Rel(s, a) && t < |s.pc| && (s.pc[t].PushLock? || s.pc[t].PushLink?)
    ensures ValOf(Step(s, act).val, s.pc[t].n) == ValOf(s.val, s.pc[t].n)
  {
    assert Owned(s.pc[t]) == s.pc[t].n && Owned(s.pc[t]) in s.next;
    if act.Exec? && act.t < |s.pc| && s.pc[act.t].FrontDelete? {
      assert Owned(s.pc[act.t]) == s.pc[act.t].p;
      DeletesOwn(s, act.t);
    } else {
      ValChanges(s, act);
    }
    hide Step, Instr;
  }

  lemma DeletesOwn(s: State, t: nat)
    requires t < |s.pc| && s.pc[t].FrontDelete?
    ensures Step(s, Exec(t)).val == s.val - {s.pc[t].p}
  {
  }

  lemma ValChanges(s: State, act: Action)
    requires !(act.Exec? && act.t < |s.pc| && s.pc[act.t].FrontDelete?)
    ensures || Step(s, act).val == s.val
            || (act.CallPush? && act.n !in s.next && Step(s, act).val == s.val[act.n := act.x])
  {
    hide Deref, ValOf;
  }

  lemma LinkStep(s: State, a: Abs, act: Action, t: nat)
    requires Rel(s, a) && t < |s.pc| && t < |Step(s, act).pc|
    ensures LinkedBy(EventOf(s, act), t) + ToLink(Step(s, act), t) == ToLink(s, t) + PushesIn(CallBy(s, act, t))
  {
    hide Rel, Deref, Step, ValOf, EventOf, LinkedBy;
    if s.pc[t].PushLock? || s.pc[t].PushLink? {
      ValuesStay(s, a, act, t);
    }
    Threads(s, act);
    if act.Spawn? || act.t != t {
      OthersLink(s, act, t);
    } else if act.Exec? {
      OwnLink(s, t);
    } else {
      OwnCall(s, act);
    }
  }

  lemma OwnCall(s: State, act: Action)
    requires !act.Spawn? && !act.Exec? && act.t < |s.pc| && act.t < |Step(s, act).pc|
    ensures LinkedBy(EventOf(s, act), act.t) == []
    ensures ToLink(Step(s, act), act.t)
            == if s.pc[act.t].Idle? then PushesIn(CallBy(s, act, act.t)) else ToLink(s, act.t)
    ensures !s.pc[act.t].Idle? ==> CallBy(s, act, act.t) == []
  {
  }

  lemma OthersLink(s: State, act: Action, t: nat)
    requires act.Spawn? || act.t != t
    ensures LinkedBy(EventOf(s, act), t) == []
  {
    hide ValOf;
  }

  lemma OwnLink(s: State, t: nat)
    requires t < |s.pc|
    ensures |Step(s, Exec(t)).pc| == |s.pc|
    ensures LinkedBy(EventOf(s, Exec(t)), t)
            == if s.pc[t].PushLink? then [Push(ValOf(s.val, s.pc[t].n), s.pc[t].d)] else []
    ensures var pc' := Step(s, Exec(t)).pc[t];
            if pc'.PushLock? || pc'.PushLink? then s.pc[t].PushLock? && pc'.n == s.pc[t].n && pc'.d == s.pc[t].d
            else !s.pc[t].PushLock?
  {
    hide Deref, ValOf, PushInstr, FrontInstr;
    if IsFront(s.pc[t]) {
      FrontMoves(s, t);
    } else {
      PushNext(s, t);
    }
  }

  /** Over any run that stores no null: what thread t has linked, with the value still in its hands, is what it
      called push and flush with, value by value and in that order. */
  lemma {:induction false} LinkedInOrder(s: State, a: Abs, acts: seq<Action>, t: nat)
    requires Rel(s, a) && Intact(s, acts) && t < |s.pc|
    ensures t < |Final(s, acts).pc|
    ensures AllLinked(Events(s, acts), t) + ToLink(Final(s, acts), t) == ToLink(s, t) + PushesIn(CallLog(s, acts, t))
    decreases |acts|
  {
    hide Rel, StoresNull, Step, EventOf, LinkedBy, ToLink, CallBy;
    if acts != [] {
      Simulation(s, a, acts[0]);
      var s1, a1 := Step(s, acts[0]), Apply(a, EventOf(s, acts[0]));
      Threads(s, acts[0]);
      LinkStep(s, a, acts[0], t);
      LinkedInOrder(s1, a1, acts[1..], t);
      var es := Events(s, acts);
      assert es[0] == EventOf(s, acts[0]) && es[1..] == Events(s1, acts[1..]);
      PushesConcat(CallBy(s, acts[0], t), CallLog(s1, acts[1..], t));
      Chop(LinkedBy(es[0], t), ToLink(s1, t), ToLink(s, t), PushesIn(CallBy(s, acts[0], t)),
           AllLinked(es[1..], t), ToLink(Final(s1, acts[1..]), t), PushesIn(CallLog(s1, acts[1..], t)));
    }
  }

  // ---------------------------------------------------------------------------------------------
  // No node is lost

  ghost predicate InList(live: seq<Item>, n: nat) {
    exists i :: 0 <= i < |live| && live[i].node == n
  }

  ghost predicate InHand(pcs: seq<Pc>, n: nat) {
    exists t :: 0 <= t < |pcs| && Owned(pcs[t]) == n
  }

  /** Every allocated node is linked, or in the hands of a thread that has yet to link or to delete it. */
  ghost predicate AllPlaced(s: State, a: Abs)
    requires a.out <= |a.pushed|
  {
    forall n :: n in s.next && n != 0 ==> InList(Live(a), n) || InHand(s.pc, n)
  }

  /** What a step does to the nodes: where the actor's node goes, which node is new, and what leaves the list. */
  lemma OwnNode(s: State, t: nat)
    requires t < |s.pc|
    ensures |Step(s, Exec(t)).pc| == |s.pc|
    ensures Owned(Step(s, Exec(t)).pc[t]) ==
            match s.pc[t]
            case PushLink(n, d) => 0
            case FrontStore(p, nx) => p
            case FrontDelete(p, v) => 0
            case _ => Owned(s.pc[t])
  {
    hide Deref, ValOf, PushInstr, FrontInstr;
    if IsFront(s.pc[t]) {
      FrontMoves(s, t);
    } else {
      PushNext(s, t);
    }
  }

  lemma PushKeys(s: State, t: nat)
    requires t < |s.pc| && !IsFront(s.pc[t]) && (s.pc[t].PushLink? && s.tail != 0 ==> s.tail in s.next)
    ensures PushInstr(s, t).next.Keys == s.next.Keys
  {
  }

  lemma FrontKeys(s: State, t: nat)
    requires t < |s.pc| && IsFront(s.pc[t])
    ensures FrontInstr(s, t).next.Keys == s.next.Keys - (if s.pc[t].FrontDelete? then {s.pc[t].p} else {})
  {
    hide Deref, ValOf;
  }

  /** Nodes come with a push and go with a front. */
  lemma NextKeys(s: State, a: Abs, act: Action)
    requires Rel(s, a)
    ensures var s' := Step(s, act);
            match act
            case CallPush(t, x, n, d) =>
              s'.next.Keys == s.next.Keys || (s'.next.Keys == s.next.Keys + {n} && InHand(s'.pc, n))
            case Exec(t) =>
              s'.next.Keys == s.next.Keys - (if t < |s.pc| && s.pc[t].FrontDelete? then {s.pc[t].p} else {})
            case _ => s'.next == s.next
  {
    match act
    case CallPush(t, x, n, d) => NewNode(s, act);
    case Exec(t) =>
      if t < |s.pc| {
        NoWildAccess(s, a, t);
        hide Rel, PushInstr, FrontInstr;
        if IsFront(s.pc[t]) {
          FrontKeys(s, t);
        } else {
          PushKeys(s, t);
        }
      }
    case _ =>
  }

  lemma NewNode(s: State, act: Action)
    requires act.CallPush?
    ensures Step(s, act) == s || (Step(s, act).next.Keys == s.next.Keys + {act.n} && InHand(Step(s, act).pc, act.n))
  {
    var s' := Step(s, act);
    if s' != s {
      assert Owned(s'.pc[act.t]) == act.n;
    }
  }

  lemma OwnPlaced(s: State, a: Abs, act: Action, n: nat)
    requires Rel(s, a) && !act.Spawn? && act.t < |s.pc| && Legal(a, EventOf(s, act)) && n != 0
    requires n in Step(s, act).next && Owned(s.pc[act.t]) == n
    ensures Apply(a, EventOf(s, act)).out <= |Apply(a, EventOf(s, act)).pushed|
    ensures InList(Live(Apply(a, EventOf(s, act))), n) || InHand(Step(s, act).pc, n)
  {
    Threads(s, act);
    NextKeys(s, a, act);
    if act.Exec? {
      OwnNode(s, act.t);
      if s.pc[act.t].PushLink? {
        var live' := Live(Apply(a, EventOf(s, act)));
        assert live'[|live'| - 1].node == n;
      } else if !s.pc[act.t].FrontDelete? {
        assert Owned(Step(s, act).pc[act.t]) == n;
      }
    } else {
      assert Step(s, act).pc[act.t] == s.pc[act.t];
    }
    hide Rel, Step, Legal;
  }

  lemma ListPlaced(s: State, a: Abs, act: Action, n: nat)
    requires Rel(s, a) && Legal(a, EventOf(s, act)) && a.out <= |a.pushed| && InList(Live(a), n)
    ensures Apply(a, EventOf(s, act)).out <= |Apply(a, EventOf(s, act)).pushed|
    ensures InList(Live(Apply(a, EventOf(s, act))), n) || InHand(Step(s, act).pc, n)
  {
    var live, live' := Live(a), Live(Apply(a, EventOf(s, act)));
    var i :| 0 <= i < |live| && live[i].node == n;
    if EventOf(s, act).Unlinked? {
      assert PcOk(s, a, act.t);
      if i == 0 {
        OwnNode(s, act.t);
        assert Owned(Step(s, act).pc[act.t]) == n;
      } else {
        assert live'[i - 1] == live[i];
      }
    } else {
      assert live'[i] == live[i];
    }
    hide Rel, Step, Instr;
  }

  lemma OthersHand(s: State, act: Action, u: nat, n: nat)
    requires u < |s.pc| && Owned(s.pc[u]) == n && (act.Spawn? || act.t != u)
    ensures InHand(Step(s, act).pc, n)
  {
    Threads(s, act);
    assert Step(s, act).pc[u] == s.pc[u];
    hide Step;
  }

  lemma NodePlaced(s: State, a: Abs, act: Action, n: nat)
    requires Rel(s, a) && Legal(a, EventOf(s, act)) && a.out <= |a.pushed| && AllPlaced(s, a)
    requires n in Step(s, act).next && n != 0
    ensures Apply(a, EventOf(s, act)).out <= |Apply(a, EventOf(s, act)).pushed|
    ensures InList(Live(Apply(a, EventOf(s, act))), n) || InHand(Step(s, act).pc, n)
  {
    OutKept(a, EventOf(s, act));
    hide Rel, Step, Apply, Legal, EventOf, InHand, InList, Live;
    if n !in s.next {
      NextKeys(s, a, act);
    } else if InList(Live(a), n) {
      ListPlaced(s, a, act, n);
    } else {
      HandPlaced(s, a, act, n);
    }
  }

  lemma HandPlaced(s: State, a: Abs, act: Action, n: nat)
    requires Rel(s, a) && Legal(a, EventOf(s, act)) && a.out <= |a.pushed| && InHand(s.pc, n)
    requires n in Step(s, act).next && n != 0
    ensures Apply(a, EventOf(s, act)).out <= |Apply(a, EventOf(s, act)).pushed|
    ensures InList(Live(Apply(a, EventOf(s, act))), n) || InHand(Step(s, act).pc, n)
  {
    OutKept(a, EventOf(s, act));
    var u :| 0 <= u < |s.pc| && Owned(s.pc[u]) == n;
    hide Rel, Step, Apply, Legal, EventOf, InHand, InList, Live, Owned;
    if act.Spawn? || act.t != u {
      OthersHand(s, act, u, n);
    } else {
      OwnPlaced(s, a, act, n);
    }
  }

  lemma OutKept(a: Abs, e: Event)
    requires a.out <= |a.pushed| && Legal(a, e)
    ensures Apply(a, e).out <= |Apply(a, e).pushed|
  {
  }

  /** Over any run that stores no null, every node that is allocated is linked or in some thread's hands: front
      deletes what it takes, and nothing is lost. */
  lemma {:induction false} NoNodeLost(s: State, a: Abs, acts: seq<Action>)
    requires Rel(s, a) && Intact(s, acts) && a.out <= |a.pushed| && AllPlaced(s, a)
    ensures LegalRun(a, Events(s, acts))
    ensures Replay(a, Events(s, acts)).out <= |Replay(a, Events(s, acts)).pushed|
    ensures AllPlaced(Final(s, acts), Replay(a, Events(s, acts)))
    decreases |acts|
  {
    hide Rel, StoresNull, Step, EventOf, Apply, Legal, InList, InHand, Live;
    if acts != [] {
      Simulation(s, a, acts[0]);
      var s1, a1 := Step(s, acts[0]), Apply(a, EventOf(s, acts[0]));
      OutKept(a, EventOf(s, acts[0]));
      forall n | n in s1.next && n != 0 ensures InList(Live(a1), n) || InHand(s1.pc, n) {
        NodePlaced(s, a, acts[0], n);
      }
      NoNodeLost(s1, a1, acts[1..]);
      var es := Events(s, acts);
      assert es[0] == EventOf(s, acts[0]) && es[1..] == Events(s1, acts[1..]);
    }
  }

  /** From the empty queue. */
  lemma NothingLost(acts: seq<Action>)
    requires Intact(INIT, acts)
    ensures LegalRun(EMPTY, Events(INIT, acts))
    ensures var s, a := Final(INIT, acts), Replay(EMPTY, Events(INIT, acts));
            a.out <= |a.pushed| && AllPlaced(s, a)
  {
    InitSound();
    NoNodeLost(INIT, EMPTY, acts);
  }

  // ---------------------------------------------------------------------------------------------
  // Every call returns with its own kind of answer

  datatype Kind = ToPush | ToFlush | ToFront

  function KindOf(op: Op): Kind {
    if op.Front? then ToFront else if op.dummy then ToFlush else ToPush
  }

  function KindOfAnswer(r: Answer): Kind {
    match r
    case Pushed => ToPush
    case Flushed => ToFlush
    case Failed => ToFront
    case Got(v) => ToFront
  }

  /** The operation thread t is inside. */
  function Inside(pc: Pc): seq<Kind> {
    if pc.Idle? then [] else if IsFront(pc) then [ToFront] else if pc.SetFlushed? || pc.d then [ToFlush] else [ToPush]
  }

  /** What the step returns to the caller in thread t: push and flush 0, front -1, or 0 with the value it read. */
  function ReturnBy(s: State, act: Action, t: nat): seq<Answer>
    requires t < |s.pc|
  {
    if act != Exec(t) then [] else
      match s.pc[t]
      case PushAdd(d) => if d then [] else [Pushed]
      case SetFlushed => [Flushed]
      case FrontFail => [Failed]
      case FrontSub(v) => [Answer.Got(v)]
      case _ => []
  }

  ghost function ReturnLog(s: State, acts: seq<Action>, t: nat): seq<Answer>
    requires t < |s.pc|
    decreases |acts|
  {
    if acts == [] then [] else
      Threads(s, acts[0]);
      ReturnBy(s, acts[0], t) + ReturnLog(Step(s, acts[0]), acts[1..], t)
  }

  function Kinds(ops: seq<Op>): seq<Kind> {
    seq(|ops|, i requires 0 <= i < |ops| => KindOf(ops[i]))
  }

  function AnswerKinds(rs: seq<Answer>): seq<Kind> {
    seq(|rs|, i requires 0 <= i < |rs| => KindOfAnswer(rs[i]))
  }

  lemma KindsConcat(a: seq<Op>, b: seq<Op>)
    ensures Kinds(a + b) == Kinds(a) + Kinds(b)
  {
  }

  lemma AnswerKindsConcat(a: seq<Answer>, b: seq<Answer>)
    ensures AnswerKinds(a + b) == AnswerKinds(a) + AnswerKinds(b)
  {
  }

  lemma OwnKind(s: State, t: nat)
    requires t < |s.pc|
    ensures |Step(s, Exec(t)).pc| == |s.pc|
    ensures Inside(Step(s, Exec(t)).pc[t]) == if ReturnBy(s, Exec(t), t) == [] then Inside(s.pc[t]) else []
    ensures ReturnBy(s, Exec(t), t) != [] ==> [KindOfAnswer(ReturnBy(s, Exec(t), t)[0])] == Inside(s.pc[t])
  {
    hide Deref, ValOf, PushInstr, FrontInstr;
    if IsFront(s.pc[t]) {
      FrontMoves(s, t);
    } else {
      PushNext(s, t);
    }
  }

  lemma KindStep(s: State, act: Action, t: nat)
    requires t < |s.pc| && t < |Step(s, act).pc|
    ensures AnswerKinds(ReturnBy(s, act, t)) + Inside(Step(s, act).pc[t]) == Inside(s.pc[t]) + Kinds(CallBy(s, act, t))
  {
    Threads(s, act);
    if act == Exec(t) {
      OwnKind(s, t);
      hide Step, Inside;
    } else {
      hide Instr;
    }
  }

  /** Over every run whatever: the calls of thread t return in order, each with an answer of its own kind, and only
      the last can still be running. */
  lemma {:induction false} CallsReturnInOrder(s: State, acts: seq<Action>, t: nat)
    requires t < |s.pc|
    ensures t < |Final(s, acts).pc|
    ensures AnswerKinds(ReturnLog(s, acts, t)) + Inside(Final(s, acts).pc[t])
            == Inside(s.pc[t]) + Kinds(CallLog(s, acts, t))
    decreases |acts|
  {
    hide Step, Inside, ReturnBy, CallBy, Kinds, AnswerKinds;
    if acts == [] {
      assert AnswerKinds([]) == [] == Kinds([]) by {
        NoKinds();
      }
    } else {
      var s1 := Step(s, acts[0]);
      Threads(s, acts[0]);
      KindStep(s, acts[0], t);
      CallsReturnInOrder(s1, acts[1..], t);
      KindsConcat(CallBy(s, acts[0], t), CallLog(s1, acts[1..], t));
      AnswerKindsConcat(ReturnBy(s, acts[0], t), ReturnLog(s1, acts[1..], t));
      Chop(AnswerKinds(ReturnBy(s, acts[0], t)), Inside(s1.pc[t]), Inside(s.pc[t]), Kinds(CallBy(s, acts[0], t)),
           AnswerKinds(ReturnLog(s1, acts[1..], t)), Inside(Final(s1, acts[1..]).pc[t]),
           Kinds(CallLog(s1, acts[1..], t)));
    }
  }

  lemma NoKinds()
    ensures AnswerKinds([]) == [] && Kinds([]) == []
  {
  }

  // ---------------------------------------------------------------------------------------------
  // A thread that runs alone

  /** No other thread has the lock that thread t is waiting for. */
  predicate Free(s: State, t: nat)
    requires t < |s.pc|
  {
    (s.pc[t].PushLock? ==> s.writeLock.Free?) && (s.pc[t].FrontLock? ==> s.readLock.Free?)
  }

  /** A bound on the accesses thread t has left. */
  function Work(pc: Pc): nat {
    match pc
    case Idle => 0
    case PushLock(_, _) => 6
    case PushLink(_, _) => 5
    case PushTail(_, _) => 4
    case PushUnlock(_, _) => 3
    case PushAdd(_) => 2
    case SetFlushed => 1
    case FrontLock => 10
    case FrontHead => 9
    case FrontTail(_) => 8
    case FrontNull(_) => 7
    case FrontNext(_) => 6
    case FrontStore(_, _) => 5
    case FrontUnlock(_) => 4
    case FrontFail => 1
    case FrontRead(_) => 3
    case FrontDelete(_, _) => 2
    case FrontSub(_) => 1
  }

  lemma AloneStep(s: State, t: nat)
    requires t < |s.pc| && Free(s, t) && !s.pc[t].Idle?
    ensures |Instr(s, t).pc| == |s.pc| && Work(Instr(s, t).pc[t]) < Work(s.pc[t]) && Free(Instr(s, t), t)
  {
    hide Deref, ValOf, PushInstr, FrontInstr;
    if IsFront(s.pc[t]) {
      FrontMoves(s, t);
    } else {
      PushNext(s, t);
    }
  }

  function Execs(t: nat, n: nat): seq<Action> {
    seq(n, _ => Exec(t))
  }

  /** A thread that finds its lock free and runs alone finishes its operation within ten accesses. */
  lemma {:induction false} AloneReturns(s: State, t: nat, n: nat)
    requires t < |s.pc| && Free(s, t) && Work(s.pc[t]) <= n
    ensures Work(s.pc[t]) <= 10
    ensures t < |Final(s, Execs(t, n)).pc| && Final(s, Execs(t, n)).pc[t].Idle?
    decreases n
  {
    hide Instr;
    var acts := Execs(t, n);
    if n > 0 {
      assert acts[0] == Exec(t) && acts[1..] == Execs(t, n - 1);
      if s.pc[t].Idle? {
        IdleStays(s, t);
        AloneReturns(s, t, n - 1);
      } else {
        AloneStep(s, t);
        AloneReturns(Step(s, Exec(t)), t, n - 1);
      }
    }
  }

  lemma IdleStays(s: State, t: nat)
    requires t < |s.pc| && s.pc[t].Idle?
    ensures Step(s, Exec(t)) == s
  {
  }
}
