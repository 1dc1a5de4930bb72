/** What callers of util/lifo.hpp see: the arguments and results of every push and pop over a run, why a
    compare-and-swap fails, and how long a thread needs when it runs alone. */
module LifoCalls {
  import opened Lifo
  import opened Sums

  datatype Op = Push(l: nat, n: nat) | Pop(l: nat)

  /** Node(0) is the null pointer. */
  datatype Result = Done | Node(n: nat)

  // ---------------------------------------------------------------------------------------------
  // Calls, effects and results of one thread

  /** The call that the action makes, read from the schedule: accepted iff the thread is idle, the stack exists and
      a node to push is the caller's. */
  function CallBy(s: State, act: Action, t: nat): seq<Op>
    requires Wf(s) && t < |s.pc|
  {
    match act
    case CallPush(u, l, n) => if u == t && s.pc[t].Idle? && l < |s.lifos| && n in s.held[t] then [Push(l, n)] else []
    case CallPop(u, l) => if u == t && s.pc[t].Idle? && l < |s.lifos| then [Pop(l)] else []
    case _ => []
  }

  function OpOf(e: Event, t: nat): seq<Op> {
    match e
    case Pushed(u, l, n) => if u == t then [Push(l, n)] else []
    case Popped(u, l, n) => if u == t then [Pop(l)] else []
    case SawEmpty(u, l) => if u == t then [Pop(l)] else []
    case _ => []
  }

  function ResultOf(e: Event, t: nat): seq<Result> {
    match e
    case Pushed(u, l, n) => if u == t then [Done] else []
    case Popped(u, l, n) => if u == t then [Node(n)] else []
    case SawEmpty(u, l) => if u == t then [Node(0)] else []
    case _ => []
  }

  function Ops(es: seq<Event>, t: nat): seq<Op> {
    if es == [] then [] else OpOf(es[0], t) + Ops(es[1..], t)
  }

  function Results(es: seq<Event>, t: nat): seq<Result> {
    if es == [] then [] else ResultOf(es[0], t) + Results(es[1..], t)
  }

  /** The operation that the thread is inside and that has not taken effect yet. */
  function Waiting(pc: Pc): seq<Op> {
    match pc
    case Idle => []
    case PushLoadHead(l, n) => [Push(l, n)]
    case PushLoadSync(l, n, _) => [Push(l, n)]
    case PushStoreNext(l, n, _, _) => [Push(l, n)]
    case PushCas(l, n, _, _) => [Push(l, n)]
    case PopLoadSync(l, rax) => if rax == 0 then [] else [Pop(l)]
    case PopTest(l, rax, _) => if rax == 0 then [] else [Pop(l)]
    case _ => [Pop(pc.l)]
  }

  /** A pop that has loaded a null head is about to return it. */
  function Leaving(pc: Pc): seq<Result> {
    if SawNull(pc) then [Node(0)] else []
  }

  /** What the step returns to the caller in thread t: pop leaves its result in rax. */
  function ReturnBy(s: State, act: Action, t: nat): seq<Result>
    requires Wf(s) && t < |s.pc|
  {
    if act != Exec(t) || !(t < |Instr(s, t).pc| && Instr(s, t).pc[t].Idle?) then [] else
      match s.pc[t]
      case PushCas(_, _, _, _) => [Done]
      case PopTest(_, rax, _) => [Node(rax)]
      case PopCas(_, rax, _, _) => [Node(rax)]
      case _ => []
  }

  ghost function CallLog(s: State, acts: seq<Action>, t: nat): seq<Op>
    requires Wf(s) && t < |s.pc|
    decreases |acts|
  {
    if acts == [] then [] else
      Threads(s, acts[0]);
      CallBy(s, acts[0], t) + CallLog(Step(s, acts[0]), acts[1..], t)
  }

  ghost function ReturnLog(s: State, acts: seq<Action>, t: nat): seq<Result>
    requires Wf(s) && t < |s.pc|
    decreases |acts|
  {
    if acts == [] then [] else
      Threads(s, acts[0]);
      ReturnBy(s, acts[0], t) + ReturnLog(Step(s, acts[0]), acts[1..], t)
  }

  lemma Threads(s: State, act: Action)
    requires Wf(s)
    ensures Wf(Step(s, act)) && |Step(s, act).pc| == |s.pc| && |Step(s, act).lifos| == |s.lifos|
    ensures forall u :: 0 <= u < |s.pc| && act.t != u ==> Step(s, act).pc[u] == s.pc[u]
  {
  }

  /** The ledger of one step. */
  ghost predicate Kept(s: State, act: Action, t: nat)
    requires Wf(s) && t < |s.pc|
  {
    && |Step(s, act).pc| == |s.pc|
    && OpOf(EventOf(s, act), t) + Waiting(Step(s, act).pc[t]) == Waiting(s.pc[t]) + CallBy(s, act, t)
    && ReturnBy(s, act, t) + Leaving(Step(s, act).pc[t]) == Leaving(s.pc[t]) + ResultOf(EventOf(s, act), t)
  }

  lemma PushKept(s: State, t: nat)
    requires Wf(s) && t < |s.pc| && IsPush(s.pc[t])
    ensures Kept(s, Exec(t), t)
  {
  }

  lemma PopKept(s: State, t: nat)
    requires Wf(s) && t < |s.pc| && PcOk(s, t) && !IsPush(s.pc[t])
    ensures Kept(s, Exec(t), t)
  {
  }

  lemma CallKept(s: State, act: Action, t: nat)
    requires Wf(s) && t < |s.pc| && !act.Exec?
    ensures Kept(s, act, t)
  {
    hide Instr;
  }

  lemma StepOps(s: State, act: Action, t: nat)
    requires Wf(s) && t < |s.pc| && PcOk(s, t)
    ensures Kept(s, act, t)
  {
    if act == Exec(t) {
      hide Kept;
      if IsPush(s.pc[t]) {
        PushKept(s, t);
      } else {
        PopKept(s, t);
      }
    } else if act.Exec? {
      Threads(s, act);
      OthersEvent(s, act, t);
      hide Step, Instr;
    } else {
      CallKept(s, act, t);
    }
  }

  lemma OthersEvent(s: State, act: Action, t: nat)
    requires Wf(s) && act.t != t
    ensures OpOf(EventOf(s, act), t) == [] && ResultOf(EventOf(s, act), t) == []
  {
  }

  /** Over any run: the operations of thread t that took effect, with the one still waiting, are its calls in the
      order it made them, on the stacks and with the nodes of the calls; the results it got, with the null on its
      way, are those of its events in the same order. */
  lemma {:induction false} CallsInOrder(s: State, a: Abs, acts: seq<Action>, t: nat)
    requires Rel(s, a) && t < |s.pc|
    ensures |Final(s, acts).pc| == |s.pc|
    ensures Ops(Events(s, acts), t) + Waiting(Final(s, acts).pc[t]) == Waiting(s.pc[t]) + CallLog(s, acts, t)
    ensures ReturnLog(s, acts, t) + Leaving(Final(s, acts).pc[t]) == Leaving(s.pc[t]) + Results(Events(s, acts), t)
    decreases |acts|
  {
    RelFacts(s, a);
    hide Rel, Step, EventOf, OpOf, ResultOf, CallBy, ReturnBy, Waiting, Leaving, PcOk;
    if acts != [] {
      Simulation(s, a, acts[0]);
      StepOps(s, acts[0], t);
      var s1, a1 := Step(s, acts[0]), Apply(a, EventOf(s, acts[0]));
      CallsInOrder(s1, a1, acts[1..], t);
      var es, es1, f := Events(s, acts), Events(s1, acts[1..]), Final(s1, acts[1..]);
      assert es[0] == EventOf(s, acts[0]) && es[1..] == es1;
      Chop(OpOf(es[0], t), Waiting(s1.pc[t]), Waiting(s.pc[t]), CallBy(s, acts[0], t),
           Ops(es1, t), Waiting(f.pc[t]), CallLog(s1, acts[1..], t));
      Chop(ReturnBy(s, acts[0], t), Leaving(s1.pc[t]), Leaving(s.pc[t]), ResultOf(es[0], t),
           ReturnLog(s1, acts[1..], t), Leaving(f.pc[t]), Results(es1, t));
    }
  }

  // ---------------------------------------------------------------------------------------------
  // Why a compare-and-swap fails

  predicate AtCas(pc: Pc) {
    pc.PushCas? || pc.PopCas?
  }

  predicate CasSucceeds(s: State, t: nat)
    requires Wf(s) && t < |s.pc|
  {
    AtCas(s.pc[t]) && s.lifos[s.pc[t].l] == Cell(s.pc[t].rax, s.pc[t].rdx)
  }

  /** Thread t starts an attempt: it is about to load (head, sync), or its compare-and-swap has just failed and
      reported them. */
  predicate Starts(s: State, t: nat)
    requires Wf(s) && t < |s.pc|
  {
    s.pc[t].PushLoadHead? || s.pc[t].PopLoadHead? || (AtCas(s.pc[t]) && !CasSucceeds(s, t))
  }

  /** What the registers hold of the cell while the cell stays what it is. */
  predicate Holds(pc: Pc, c: Cell) {
    match pc
    case Idle => true
    case PushLoadHead(_, _) => true
    case PushLoadSync(_, _, rax) => rax == c.head
    case PopLoadHead(_) => true
    case PopLoadSync(_, rax) => rax == c.head
    case _ => Cell(pc.rax, pc.rdx) == c
  }

  /** Thread t goes on with one attempt: it does not come to execute a compare-and-swap, nor return. */
  ghost predicate SameAttempt(s: State, acts: seq<Action>, t: nat)
    requires Wf(s) && t < |s.pc|
    decreases |acts|
  {
    acts != [] ==>
      && (acts[0] == Exec(t) ==> !AtCas(s.pc[t]))
      && (Threads(s, acts[0]); !Step(s, acts[0]).pc[t].Idle? && SameAttempt(Step(s, acts[0]), acts[1..], t))
  }

  /** Some other thread than t pushes onto or pops off stack l. */
  ghost predicate OtherCommits(es: seq<Event>, l: nat, t: nat) {
    exists i :: 0 <= i < |es| && (es[i].Pushed? || es[i].Popped?) && es[i].l == l && es[i].t != t
  }

  lemma OtherCommitsLater(e: Event, es: seq<Event>, l: nat, t: nat)
    requires OtherCommits(es, l, t) || ((e.Pushed? || e.Popped?) && e.l == l && e.t != t)
    ensures OtherCommits([e] + es, l, t)
  {
    var fs := [e] + es;
    assert fs[0] == e;
    if i :| 0 <= i < |es| && (es[i].Pushed? || es[i].Popped?) && es[i].l == l && es[i].t != t {
      assert fs[i + 1] == es[i];
    }
  }

  /** A step keeps the stack's cell, and then what t holds of it, unless another thread commits there. */
  lemma HoldsStep(s: State, act: Action, t: nat)
    requires Wf(s) && t < |s.pc| && !s.pc[t].Idle? && Holds(s.pc[t], s.lifos[s.pc[t].l])
    requires act == Exec(t) ==> !AtCas(s.pc[t])
    requires |Step(s, act).pc| == |s.pc| && !Step(s, act).pc[t].Idle?
    ensures |Step(s, act).lifos| == |s.lifos| && Step(s, act).pc[t].l == s.pc[t].l
    ensures var e, l, s' := EventOf(s, act), s.pc[t].l, Step(s, act);
            || ((e.Pushed? || e.Popped?) && e.l == l && e.t != t)
            || (s'.lifos[l] == s.lifos[l] && Holds(s'.pc[t], s'.lifos[l]))
  {
  }

  lemma {:induction false} AttemptHolds(s: State, acts: seq<Action>, t: nat)
    requires Wf(s) && t < |s.pc| && !s.pc[t].Idle? && Holds(s.pc[t], s.lifos[s.pc[t].l]) && SameAttempt(s, acts, t)
    ensures var s' := Final(s, acts);
            && t < |s'.pc| && !s'.pc[t].Idle? && s'.pc[t].l == s.pc[t].l
            && (OtherCommits(Events(s, acts), s.pc[t].l, t) || Holds(s'.pc[t], s'.lifos[s.pc[t].l]))
    decreases |acts|
  {
    hide Step, EventOf, Holds, OtherCommits;
    if acts != [] {
      Threads(s, acts[0]);
      HoldsStep(s, acts[0], t);
      var s1, e, l := Step(s, acts[0]), EventOf(s, acts[0]), s.pc[t].l;
      if (e.Pushed? || e.Popped?) && e.l == l && e.t != t {
        AttemptStays(s1, acts[1..], t);
        OtherCommitsLater(e, Events(s1, acts[1..]), l, t);
      } else {
        AttemptHolds(s1, acts[1..], t);
        if OtherCommits(Events(s1, acts[1..]), l, t) {
          OtherCommitsLater(e, Events(s1, acts[1..]), l, t);
        }
      }
    }
  }

  lemma {:induction false} AttemptStays(s: State, acts: seq<Action>, t: nat)
    requires Wf(s) && t < |s.pc| && !s.pc[t].Idle? && SameAttempt(s, acts, t)
    ensures var s' := Final(s, acts);
            t < |s'.pc| && !s'.pc[t].Idle? && s'.pc[t].l == s.pc[t].l
    decreases |acts|
  {
    hide Step;
    if acts != [] {
      Threads(s, acts[0]);
      SameStack(s, acts[0], t);
      AttemptStays(Step(s, acts[0]), acts[1..], t);
    }
  }

  lemma SameStack(s: State, act: Action, t: nat)
    requires Wf(s) && t < |s.pc| && !s.pc[t].Idle?
    requires |Step(s, act).pc| == |s.pc| && !Step(s, act).pc[t].Idle?
    ensures Step(s, act).pc[t].l == s.pc[t].l
  {
  }

  /** A compare-and-swap fails only if another thread has pushed or popped on that stack since this thread began to
      read (head, sync), or since its last compare-and-swap failed and reported them. */
  lemma FailedCasMeansInterference(s: State, act: Action, acts: seq<Action>, t: nat)
    requires Wf(s) && t < |s.pc| && act == Exec(t) && Starts(s, t)
    requires Wf(Step(s, act)) && |Step(s, act).pc| == |s.pc| && SameAttempt(Step(s, act), acts, t)
    requires var s' := Final(Step(s, act), acts); t < |s'.pc| && AtCas(s'.pc[t]) && !CasSucceeds(s', t)
    ensures OtherCommits(Events(Step(s, act), acts), s.pc[t].l, t)
  {
    FirstLoad(s, t);
    AttemptHolds(Step(s, act), acts, t);
    hide OtherCommits, Step;
  }

  lemma FirstLoad(s: State, t: nat)
    requires Wf(s) && t < |s.pc| && Starts(s, t)
    ensures var s' := Step(s, Exec(t));
            && Wf(s') && |s'.pc| == |s.pc| && |s'.lifos| == |s.lifos| && !s'.pc[t].Idle? && s'.pc[t].l == s.pc[t].l
            && Holds(s'.pc[t], s'.lifos[s.pc[t].l])
  {
  }

  // ---------------------------------------------------------------------------------------------
  // A thread that runs alone

  /** How many instructions thread t has left if nobody disturbs it: a stale register costs one more round. */
  function Work(s: State, t: nat): nat
    requires Wf(s) && t < |s.pc|
  {
    var pc := s.pc[t];
    if pc.Idle? then 0 else
      var again := if Holds(pc, s.lifos[pc.l]) then 0 else if pc.l < |s.lifos| && IsPush(pc) then 2 else 5;
      match pc
      case PushLoadHead(_, _) => 4
      case PushLoadSync(_, _, _) => 3 + again
      case PushStoreNext(_, _, _, _) => 2 + again
      case PushCas(_, _, _, _) => 1 + again
      case PopLoadHead(_) => 5
      case PopLoadSync(_, _) => 4 + again
      case PopTest(_, _, _) => 3 + again
      case PopLoadNext(_, _, _) => 2 + again
      case PopCas(_, _, _, _) => 1 + again
  }

  predicate IsPush(pc: Pc) {
    pc.PushLoadHead? || pc.PushLoadSync? || pc.PushStoreNext? || pc.PushCas?
  }

  lemma AloneStep(s: State, t: nat)
    requires Wf(s) && t < |s.pc| && !s.pc[t].Idle?
    ensures Wf(Instr(s, t)) && |Instr(s, t).pc| == |s.pc| && Work(Instr(s, t), t) < Work(s, t) <= 9
  {
  }

  function Execs(t: nat, n: nat): seq<Action> {
    seq(n, _ => Exec(t))
  }

  /** push and pop are obstruction-free: from any state, a thread that runs alone returns within nine
      instructions, wherever the other threads have stopped. */
  lemma {:induction false} AloneReturns(s: State, t: nat, n: nat)
    requires Wf(s) && t < |s.pc| && Work(s, t) <= n
    ensures Work(s, t) <= 9
    ensures t < |Final(s, Execs(t, n)).pc| && Final(s, Execs(t, n)).pc[t].Idle?
    decreases n
  {
    hide Instr, Work;
    if s.pc[t].Idle? {
      NoWork(s, t);
    } else {
      AloneStep(s, t);
    }
    if n > 0 {
      var acts := Execs(t, n);
      assert acts[0] == Exec(t) && acts[1..] == Execs(t, n - 1);
      AloneReturns(Step(s, Exec(t)), t, n - 1);
    }
  }

  lemma NoWork(s: State, t: nat)
    requires Wf(s) && t < |s.pc| && s.pc[t].Idle?
    ensures Work(s, t) == 0 && Instr(s, t) == s
  {
  }
}
