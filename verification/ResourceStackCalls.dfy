/** What callers of container/resource_stack.h see: the arguments and the outcome of every call over a run, when
    push and pop come back with nothing, and how long a thread needs when it runs alone. */
module ResourceStackCalls {
  import opened ResourceStack
  import opened Sums
  import L = Lifo
  import C = LifoCalls

  /** A call by its instance and resource; produce by the resource that it can hand out, null without an element or
      without a holder for it. */
  datatype Op = Push(q: nat, r: nat) | Pop(q: nat) | Make(q: nat) | Produce(q: nat, r: nat)

  // ---------------------------------------------------------------------------------------------
  // Calls and outcomes of one thread

  /** The call that the action makes, read from the schedule: accepted iff the thread is in no operation, and new
      returns null (to produce only) or a fresh holder. */
  function CallBy(s: State, act: Action, t: nat): seq<Op>
    requires t < |s.pc|
  {
    if act.Exec? || act.t != t || !s.pc[t].Out? || act.q >= |s.made| then [] else
      match act
      case CallPush(_, q, r) => [Push(q, r)]
      case CallPop(_, q) => [Pop(q)]
      case CallMake(_, q, n, _) => if Fresh(s, n) then [Make(q)] else []
      case CallProduce(_, q, r, n) =>
        if r == 0 || n == 0 then [Produce(q, 0)] else if Fresh(s, n) then [Produce(q, r)] else []
      case Exec(_) => []
  }

  function OpOf(o: Outcome): seq<Op> {
    match o
    case Running => []
    case PushReturned(q, r, ok) => [Push(q, r)]
    case PopReturned(q, r) => [Pop(q)]
    case MakeReturned(q) => [Make(q)]
    case ProduceReturned(q, r) => [Produce(q, r)]
  }

  function OutcomesBy(s: State, act: Action, t: nat): seq<Outcome>
    requires Wf(s)
  {
    if act.t != t || OutcomeOf(s, act).Running? then [] else [OutcomeOf(s, act)]
  }

  function Ops(os: seq<Outcome>): seq<Op> {
    if os == [] then [] else OpOf(os[0]) + Ops(os[1..])
  }

  /** The operation thread t is inside. */
  function Waiting(pc: Pc): seq<Op> {
    match pc
    case Out => []
    case PushTake(q, r) => [Push(q, r)]
    case PushFill(q, r, _) => [Push(q, r)]
    case PushGive(q, r, _) => [Push(q, r)]
    case MakeGive(q, _) => [Make(q)]
    case ProdGive(q, _, r) => [Produce(q, r)]
    case _ => [Pop(pc.q)]
  }

  ghost function CallLog(s: State, a: L.Abs, acts: seq<Action>, t: nat): seq<Op>
    requires Inv(s, a) && t < |s.pc|
    decreases |acts|
  {
    hide L.Rel;
    if acts == [] then [] else
      StepKeepsInv(s, a, acts[0]);
      Threads(s, a, acts[0]);
      CallBy(s, acts[0], t) + CallLog(Step(s, acts[0]), L.Apply(a, EventOf(s, acts[0])), acts[1..], t)
  }

  ghost function OutcomeLog(s: State, a: L.Abs, acts: seq<Action>, t: nat): seq<Outcome>
    requires Inv(s, a) && t < |s.pc|
    decreases |acts|
  {
    hide L.Rel;
    if acts == [] then [] else
      StepKeepsInv(s, a, acts[0]);
      Threads(s, a, acts[0]);
      OutcomesBy(s, acts[0], t) + OutcomeLog(Step(s, acts[0]), L.Apply(a, EventOf(s, acts[0])), acts[1..], t)
  }

  lemma Threads(s: State, a: L.Abs, act: Action)
    requires Inv(s, a)
    ensures |Step(s, act).pc| == |s.pc|
    ensures forall u :: 0 <= u < |s.pc| && act.t != u ==> Step(s, act).pc[u] == s.pc[u]
    ensures act.t < |s.pc| ==> L.PcOk(s.lifo, act.t)
  {
    hide Inv, Step;
    InvFacts(s, a);
    if act.t < |s.pc| {
      MoveShape(s, a, act);
    } else {
      NoThread(s, act);
    }
  }

  lemma InvFacts(s: State, a: L.Abs)
    requires Inv(s, a)
    ensures Wf(s) && L.Rel(s.lifo, a) && forall t :: 0 <= t < |s.pc| ==> L.PcOk(s.lifo, t)
  {
    L.RelFacts(s.lifo, a);
  }

  /** The ledger of one step: an operation returns as the call it was, and push returns true for no null. */
  ghost predicate Kept(s: State, act: Action, t: nat)
    requires Wf(s) && t < |s.pc| && t < |Step(s, act).pc|
  {
    && Ops(OutcomesBy(s, act, t)) + Waiting(Step(s, act).pc[t]) == Waiting(s.pc[t]) + CallBy(s, act, t)
    && forall o :: o in OutcomesBy(s, act, t) && o.PushReturned? && o.ok ==> o.r != 0
  }

  lemma OneOutcome(s: State, act: Action, t: nat)
    requires Wf(s)
    ensures Ops(OutcomesBy(s, act, t)) == if act.t != t then [] else OpOf(OutcomeOf(s, act))
  {
    var o := OutcomeOf(s, act);
    assert [o][1..] == [];
    hide OutcomeOf;
  }

  lemma CallKept(s: State, act: Action, t: nat)
    requires Wf(s) && t < |s.pc| && t < |Step(s, act).pc| && !act.Exec? && act.t == t
    ensures Kept(s, act, t)
  {
    OneOutcome(s, act, t);
    hide L.Step, Fresh, Ops;
  }

  lemma ExecKept(s: State, t: nat)
    requires Wf(s) && t < |s.pc| && t < |Step(s, Exec(t)).pc| && L.PcOk(s.lifo, t)
    ensures Kept(s, Exec(t), t)
  {
    assert Coupled(s, t);
    CallProgress(s, t);
    OneOutcome(s, Exec(t), t);
    hide Instr, OutcomeOf, L.PcOk, L.Wf, Ops;
  }

  lemma StepKept(s: State, a: L.Abs, act: Action, t: nat)
    requires Inv(s, a) && t < |s.pc|
    ensures t < |Step(s, act).pc| && Kept(s, act, t)
  {
    InvFacts(s, a);
    Threads(s, a, act);
    hide Inv;
    if act.t != t {
      hide Step, Wf, OutcomeOf;
    } else if act.Exec? {
      hide Kept;
      ExecKept(s, t);
    } else {
      hide Kept;
      CallKept(s, act, t);
    }
  }

  lemma {:induction false} OpsConcat(a: seq<Outcome>, b: seq<Outcome>)
    ensures Ops(a + b) == Ops(a) + Ops(b)
  {
    if a == [] {
      assert a + b == b;
    } else {
      assert (a + b)[0] == a[0] && (a + b)[1..] == a[1..] + b;
      OpsConcat(a[1..], b);
    }
  }

  /** Over any run: the operations of thread t that have returned, with the one still running, are its calls in the
      order it made them, with their instances and resources: produce hands out what the producer returned unless
      there was no holder for it, and a push of null returns false. */
  lemma {:induction false} CallsInOrder(s: State, a: L.Abs, acts: seq<Action>, t: nat)
    requires Inv(s, a) && t < |s.pc|
    ensures t < |Final(s, a, acts).0.pc|
    ensures Ops(OutcomeLog(s, a, acts, t)) + Waiting(Final(s, a, acts).0.pc[t])
            == Waiting(s.pc[t]) + CallLog(s, a, acts, t)
    ensures forall o :: o in OutcomeLog(s, a, acts, t) && o.PushReturned? && o.ok ==> o.r != 0
    decreases |acts|
  {
    hide Inv, Step, EventOf, OutcomesBy, CallBy, Waiting, OpOf;
    if acts != [] {
      var act, rest := acts[0], acts[1..];
      InvFacts(s, a);
      StepKeepsInv(s, a, act);
      Threads(s, a, act);
      StepKept(s, a, act, t);
      var s1, a1 := Step(s, act), L.Apply(a, EventOf(s, act));
      CallsInOrder(s1, a1, rest, t);
      OpsConcat(OutcomesBy(s, act, t), OutcomeLog(s1, a1, rest, t));
      Chop(Ops(OutcomesBy(s, act, t)), Waiting(s1.pc[t]), Waiting(s.pc[t]), CallBy(s, act, t),
           Ops(OutcomeLog(s1, a1, rest, t)), Waiting(Final(s1, a1, rest).0.pc[t]), CallLog(s1, a1, rest, t));
    }
  }

  // ---------------------------------------------------------------------------------------------
  // When push and pop come back with nothing

  /** The stack that a push or a pop takes its holder from. */
  function Source(op: Op): nat
    requires op.Push? || op.Pop?
  {
    if op.Push? then Empty(op.q) else Avail(op.q)
  }

  /** Thread t finds stack l empty at some step of the run; by L.Legal the stack is empty then. */
  ghost predicate EmptySeen(s: State, a: L.Abs, acts: seq<Action>, t: nat, l: nat)
    requires Inv(s, a)
    decreases |acts|
  {
    acts != [] && (
      EventOf(s, acts[0]) == L.SawEmpty(t, l)
      || (StepKeepsInv(s, a, acts[0]);
          EmptySeen(Step(s, acts[0]), L.Apply(a, EventOf(s, acts[0])), acts[1..], t, l)))
  }

  /** Thread t does not return during the run. */
  ghost predicate Busy(s: State, a: L.Abs, acts: seq<Action>, t: nat)
    requires Inv(s, a)
    decreases |acts|
  {
    && t < |s.pc| && !s.pc[t].Out?
    && (acts != [] ==>
          (StepKeepsInv(s, a, acts[0]); Busy(Step(s, acts[0]), L.Apply(a, EventOf(s, acts[0])), acts[1..], t)))
  }

  ghost predicate Running(s: State, t: nat, op: Op)
    requires Wf(s)
  {
    t < |s.pc| && (op.Push? || op.Pop?) && Waiting(s.pc[t]) == [op]
  }

  /** A step of a push or a pop that does not return: a null is seen now, or was seen before, or not yet. */
  lemma OwnNull(s: State, t: nat, op: Op)
    requires Wf(s) && Running(s, t, op) && L.PcOk(s.lifo, t)
    ensures |Step(s, Exec(t)).pc| == |s.pc| == |Step(s, Exec(t)).lifo.pc|
    ensures !Step(s, Exec(t)).pc[t].Out? ==>
              && Waiting(Step(s, Exec(t)).pc[t]) == [op]
              && (L.SawNull(Step(s, Exec(t)).lifo.pc[t])
                  <==> L.SawNull(s.lifo.pc[t]) || EventOf(s, Exec(t)) == L.SawEmpty(t, Source(op)))
  {
    assert Coupled(s, t);
    CallProgress(s, t);
  }

  lemma OtherNull(s: State, a: L.Abs, act: Action, t: nat)
    requires Inv(s, a) && t < |s.pc| && act.t != t
    ensures |Step(s, act).pc| == |s.pc| == |Step(s, act).lifo.pc|
    ensures Step(s, act).pc[t] == s.pc[t] && Step(s, act).lifo.pc[t] == s.lifo.pc[t]
    ensures forall l :: EventOf(s, act) != L.SawEmpty(t, l)
  {
    InvFacts(s, a);
    Threads(s, a, act);
    OtherSilent(s, act, t);
    hide Inv;
    if act.t >= |s.pc| {
      NoThread(s, act);
    } else if act.Exec? {
      CallProgress(s, act.t);
      hide Instr;
    } else {
      OtherCalls(s, act, t);
    }
  }

  lemma OtherSilent(s: State, act: Action, t: nat)
    requires Wf(s) && act.t != t
    ensures forall l :: EventOf(s, act) != L.SawEmpty(t, l)
  {
  }

  lemma OtherCalls(s: State, act: Action, t: nat)
    requires Wf(s) && t < |s.pc| && act.t != t && !act.Exec?
    ensures |Step(s, act).lifo.pc| == |s.pc| && Step(s, act).lifo.pc[t] == s.lifo.pc[t]
  {
    hide Fresh, Coupled;
  }

  lemma BusyCall(s: State, act: Action, t: nat)
    requires Wf(s) && t < |s.pc| && !s.pc[t].Out? && !act.Exec? && act.t == t
    ensures Step(s, act) == s && EventOf(s, act) == L.Silent
  {
  }

  lemma NullStep(s: State, a: L.Abs, act: Action, t: nat, op: Op)
    requires Inv(s, a) && Running(s, t, op)
    ensures |Step(s, act).pc| == |s.pc| == |Step(s, act).lifo.pc| && t < |s.lifo.pc|
    ensures !Step(s, act).pc[t].Out? ==>
              && Waiting(Step(s, act).pc[t]) == [op]
              && (L.SawNull(Step(s, act).lifo.pc[t])
                  <==> L.SawNull(s.lifo.pc[t]) || EventOf(s, act) == L.SawEmpty(t, Source(op)))
  {
    InvFacts(s, a);
    hide Inv, Step, EventOf, L.SawNull;
    if act.t != t {
      OtherNull(s, a, act, t);
    } else if act.Exec? {
      OwnNull(s, t, op);
    } else {
      BusyCall(s, act, t);
    }
  }

  lemma {:induction false} NullSeen(s: State, a: L.Abs, acts: seq<Action>, t: nat, op: Op)
    requires Inv(s, a) && Running(s, t, op) && Busy(s, a, acts, t)
    ensures var s' := Final(s, a, acts).0;
            && Running(s', t, op) && t < |s'.lifo.pc| && t < |s.lifo.pc|
            && (L.SawNull(s'.lifo.pc[t]) <==> L.SawNull(s.lifo.pc[t]) || EmptySeen(s, a, acts, t, Source(op)))
    decreases |acts|
  {
    InvFacts(s, a);
    hide Inv, Step, EventOf, L.SawNull, Waiting, L.Legal, L.Apply;
    if acts != [] {
      StepKeepsInv(s, a, acts[0]);
      NullStep(s, a, acts[0], t, op);
      var s1, a1 := Step(s, acts[0]), L.Apply(a, EventOf(s, acts[0]));
      InvFacts(s1, a1);
      NullSeen(s1, a1, acts[1..], t, op);
    }
  }

  /** The operation comes back empty-handed: false from push, null from pop. */
  predicate Nothing(o: Outcome) {
    (o.PushReturned? && !o.ok) || (o.PopReturned? && o.r == 0)
  }

  lemma ReturnsNothing(s: State, t: nat, op: Op)
    requires Wf(s) && Running(s, t, op) && L.PcOk(s.lifo, t)
    ensures !OutcomeOf(s, Exec(t)).Running? ==> (Nothing(OutcomeOf(s, Exec(t))) <==> L.SawNull(s.lifo.pc[t]))
  {
    assert Coupled(s, t);
    CallProgress(s, t);
  }

  /** From its call to its return, through any interleaving: a push of a resource returns false iff it has found
      _empty empty on the way, and a pop returns null iff it has found _aviable empty. */
  lemma CallReturns(s: State, a: L.Abs, call: Action, acts: seq<Action>)
    requires Inv(s, a) && (call.CallPush? || call.CallPop?) && call.t < |s.pc| && s.pc[call.t].Out?
    requires call.q < |s.made| && (call.CallPush? ==> call.r != 0)
    requires Inv(Step(s, call), a) && Busy(Step(s, call), a, acts, call.t)
    ensures var s1, t := Step(s, call), call.t;
            var s2, l := Final(s1, a, acts).0, if call.CallPush? then Empty(call.q) else Avail(call.q);
            && t < |s2.pc|
            && (!OutcomeOf(s2, Exec(t)).Running? ==>
                  && (Nothing(OutcomeOf(s2, Exec(t))) <==> EmptySeen(s1, a, acts, t, l))
                  && OpOf(OutcomeOf(s2, Exec(t))) == (if call.CallPush? then [Push(call.q, call.r)] else [Pop(call.q)]))
  {
    var s1, t := Step(s, call), call.t;
    var op := if call.CallPush? then Push(call.q, call.r) else Pop(call.q);
    Called(s, call);
    hide Inv, Step;
    NullSeen(s1, a, acts, t, op);
    var (s2, a2) := Final(s1, a, acts);
    InvFacts(s2, a2);
    ReturnsNothing(s2, t, op);
    CallProgress(s2, t);
    hide OutcomeOf, Instr;
  }

  lemma Called(s: State, call: Action)
    requires Wf(s) && (call.CallPush? || call.CallPop?) && call.t < |s.pc| && s.pc[call.t].Out?
    requires call.q < |s.made| && (call.CallPush? ==> call.r != 0)
    requires Wf(Step(s, call))
    ensures Running(Step(s, call), call.t, if call.CallPush? then Push(call.q, call.r) else Pop(call.q))
    ensures !L.SawNull(Step(s, call).lifo.pc[call.t])
  {
    assert Coupled(s, call.t);
  }

  // ---------------------------------------------------------------------------------------------
  // Empty holders are clean

  /** The thread has holder n in hand, and it carries no resource. */
  predicate HasEmpty(pc: Pc, n: nat) {
    (pc.PushFill? || pc.PopGive? || pc.MakeGive? || pc.ProdGive?) && pc.h == n
  }

  ghost predicate InEmpty(stacks: seq<seq<nat>>, n: nat) {
    exists q: nat :: Empty(q) < |stacks| && n in stacks[Empty(q)]
  }

  ghost predicate HandEmpty(pcs: seq<Pc>, n: nat) {
    exists t :: 0 <= t < |pcs| && HasEmpty(pcs[t], n)
  }

  /** The holders that create has made and no push has filled yet: their _p is whatever new left there. */
  ghost function RawAfter(s: State, act: Action, raw: set<nat>): set<nat>
    requires Wf(s)
  {
    match act
    case CallMake(t, q, n, junk) => if EventOf(s, act).Allocated? then raw + {n} else raw
    case Exec(t) => if t < |s.pc| && s.pc[t].PushFill? then raw - {s.pc[t].h} else raw
    case _ => raw
  }

  /** Apart from raw ones, empty holders hold null. */
  ghost predicate Clean(s: State, a: L.Abs, raw: set<nat>) {
    forall n: nat :: InEmpty(a.stacks, n) || HandEmpty(s.pc, n) ==> n in raw || L.Deref(s.p, n) == 0
  }

  /** How a holder can come to be among the empty ones. */
  ghost predicate Comes(s: State, act: Action, n: nat)
    requires Wf(s) && act.t < |s.pc|
  {
    || (act.Exec? && s.pc[act.t].PopWipe? && s.pc[act.t].h == n)
    || (EventOf(s, act).Allocated? && act.CallMake? && act.n == n)
    || (EventOf(s, act).Allocated? && act.CallProduce? && act.n == n)
  }

  lemma ExecComes(s: State, a: L.Abs, t: nat, n: nat)
    requires Wf(s) && |a.stacks| == 2 * |s.made| && t < |s.pc| && L.PcOk(s.lifo, t)
    requires L.Legal(a, EventOf(s, Exec(t))) && |L.Apply(a, EventOf(s, Exec(t))).stacks| == |a.stacks|
    requires |Step(s, Exec(t)).pc| == |s.pc| && Step(s, Exec(t)).pc == s.pc[t := Step(s, Exec(t)).pc[t]]
    ensures HasEmpty(Step(s, Exec(t)).pc[t], n) ==> InEmpty(a.stacks, n) || HasEmpty(s.pc[t], n) || Comes(s, Exec(t), n)
    ensures InEmpty(L.Apply(a, EventOf(s, Exec(t))).stacks, n) ==> InEmpty(a.stacks, n) || HasEmpty(s.pc[t], n)
  {
    hide L.Instr, L.EventOf;
    assert Coupled(s, t);
    var pc, e := s.pc[t], L.EventOf(s.lifo, L.Exec(t));
    if pc.PushTake? || pc.PopTake? {
      PopProgress(s.lifo, t, if pc.PushTake? then Empty(pc.q) else Avail(pc.q));
      PoppedFrom(a, e, n);
    } else if ResourceStack.Inside(pc) {
      PushProgress(s.lifo, t, if pc.PushGive? then Avail(pc.q) else Empty(pc.q), pc.h);
      PushedOnto(a, e, n);
    } else {
      IdleIsSilent(s, t);
    }
  }

  lemma PoppedFrom(a: L.Abs, e: L.Event, n: nat)
    requires L.Legal(a, e) && (e == L.Silent || e.SawEmpty? || e.Popped?)
    ensures InEmpty(L.Apply(a, e).stacks, n) ==> InEmpty(a.stacks, n)
    ensures e.Popped? && e.l % 2 == 1 ==> InEmpty(a.stacks, e.n)
  {
    var a' := L.Apply(a, e);
    if e.Popped? {
      assert a.stacks[e.l] == [e.n] + a'.stacks[e.l];
      assert e.l % 2 == 1 ==> Empty(e.l / 2) == e.l;
    }
    if q: nat :| Empty(q) < |a'.stacks| && n in a'.stacks[Empty(q)] {
      assert n in a.stacks[Empty(q)];
    }
  }

  lemma PushedOnto(a: L.Abs, e: L.Event, n: nat)
    requires L.Legal(a, e) && (e == L.Silent || e.Pushed?)
    ensures InEmpty(L.Apply(a, e).stacks, n) ==> InEmpty(a.stacks, n) || (e.Pushed? && e.n == n && e.l % 2 == 1)
  {
    var a' := L.Apply(a, e);
    if q: nat :| Empty(q) < |a'.stacks| && n in a'.stacks[Empty(q)] {
      assert n in a.stacks[Empty(q)] || (e.Pushed? && e.n == n && e.l == Empty(q));
    }
  }

  lemma CallComes(s: State, a: L.Abs, act: Action, n: nat)
    requires Wf(s) && act.t < |s.pc| && !act.Exec? && L.Legal(a, EventOf(s, act))
    requires |Step(s, act).pc| == |s.pc|
    ensures L.Apply(a, EventOf(s, act)).stacks == a.stacks
    ensures HasEmpty(Step(s, act).pc[act.t], n) ==> HasEmpty(s.pc[act.t], n) || Comes(s, act, n)
  {
    hide L.Step;
  }

  /** A holder that a push has filled is no longer among the empty ones. */
  lemma FillLeaves(s: State, a: L.Abs, t: nat)
    requires Inv(s, a) && t < |s.pc| && s.pc[t].PushFill?
    ensures EventOf(s, Exec(t)) == L.Silent && |Step(s, Exec(t)).pc| == |s.pc|
    ensures !InEmpty(a.stacks, s.pc[t].h) && !HandEmpty(Step(s, Exec(t)).pc, s.pc[t].h)
  {
    InvFacts(s, a);
    Apart(s, a, t, s.pc[t].h);
    assert Coupled(s, t);
    IdleIsSilent(s, t);
    Threads(s, a, Exec(t));
    hide Inv;
    var s', h := Step(s, Exec(t)), s.pc[t].h;
    assert s'.pc[t].PushGive?;
    forall u | 0 <= u < |s'.pc| ensures !HasEmpty(s'.pc[u], h) {
      if u != t {
        assert s'.pc[u] == s.pc[u] && h !in HandOf(s.pc[u]);
      }
    }
  }

  lemma WhereFrom(s: State, a: L.Abs, act: Action, n: nat)
    requires Inv(s, a) && act.t < |s.pc|
    ensures Wf(s) && L.Legal(a, EventOf(s, act))
    ensures InEmpty(L.Apply(a, EventOf(s, act)).stacks, n) || HandEmpty(Step(s, act).pc, n) ==>
              InEmpty(a.stacks, n) || HandEmpty(s.pc, n) || Comes(s, act, n)
  {
    InvFacts(s, a);
    MoveShape(s, a, act);
    Threads(s, a, act);
    hide Inv;
    var s' := Step(s, act);
    if act.Exec? {
      ExecComes(s, a, act.t, n);
    } else {
      CallComes(s, a, act, n);
    }
    hide Step, EventOf, Wf, HasEmpty, InEmpty, Comes;
    if u :| 0 <= u < |s'.pc| && HasEmpty(s'.pc[u], n) {
      assert u != act.t ==> HasEmpty(s.pc[u], n);
    }
  }

  /** Coming among the empty ones, a holder is clean or raw. */
  lemma ComesClean(s: State, act: Action, raw: set<nat>, n: nat)
    requires Wf(s) && act.t < |s.pc| && Comes(s, act, n)
    ensures n in RawAfter(s, act, raw) || L.Deref(Step(s, act).p, n) == 0
  {
  }

  lemma StaysClean(s: State, a: L.Abs, act: Action, raw: set<nat>, n: nat)
    requires Inv(s, a) && Wf(s) && act.t < |s.pc| && (InEmpty(a.stacks, n) || HandEmpty(s.pc, n))
    requires L.Legal(a, EventOf(s, act))
    requires InEmpty(L.Apply(a, EventOf(s, act)).stacks, n) || HandEmpty(Step(s, act).pc, n)
    requires n in raw || L.Deref(s.p, n) == 0
    ensures n in RawAfter(s, act, raw) || L.Deref(Step(s, act).p, n) == 0
  {
    if act.Exec? && s.pc[act.t].PushFill? && s.pc[act.t].h == n {
      FillLeaves(s, a, act.t);
    } else if !act.Exec? && EventOf(s, act).Allocated? && act.n == n {
      NewIsNone(s, a, act);
    } else if L.Deref(Step(s, act).p, n) != L.Deref(s.p, n) {
      Written(s, act, n);
      hide L.Step, Inv;
    } else {
      hide Inv, Step;
    }
  }

  /** A holder that new returns is not among the empty ones yet. */
  lemma NewIsNone(s: State, a: L.Abs, act: Action)
    requires Inv(s, a) && Wf(s) && act.t < |s.pc| && !act.Exec? && EventOf(s, act).Allocated?
    ensures !InEmpty(a.stacks, act.n) && !HandEmpty(s.pc, act.n)
  {
    L.RelFacts(s.lifo, a);
    forall u | 0 <= u < |s.pc| ensures !HasEmpty(s.pc[u], act.n) {
      assert s.lifo.held[u] == HandOf(s.pc[u]);
    }
    hide L.Rel;
  }

  lemma Written(s: State, act: Action, n: nat)
    requires Wf(s) && act.t < |s.pc| && L.Deref(Step(s, act).p, n) != L.Deref(s.p, n)
    ensures if act.Exec? then (s.pc[act.t].PushFill? || s.pc[act.t].PopWipe?) && s.pc[act.t].h == n
            else n == act.n && EventOf(s, act).Allocated?
  {
    hide L.Step, L.Instr;
  }

  lemma CleanStep(s: State, a: L.Abs, act: Action, raw: set<nat>)
    requires Inv(s, a) && Wf(s) && Clean(s, a, raw)
    ensures L.Legal(a, EventOf(s, act))
    ensures Clean(Step(s, act), L.Apply(a, EventOf(s, act)), RawAfter(s, act, raw))
  {
    InvFacts(s, a);
    if act.t >= |s.pc| {
      NoThread(s, act);
      NoneRaw(s, act, raw);
    } else {
      MoveShape(s, a, act);
      hide Inv, Wf, Step, EventOf, L.Apply, L.Legal, InEmpty, HandEmpty, Comes, RawAfter;
      var s', a' := Step(s, act), L.Apply(a, EventOf(s, act));
      forall n: nat | InEmpty(a'.stacks, n) || HandEmpty(s'.pc, n)
        ensures n in RawAfter(s, act, raw) || L.Deref(s'.p, n) == 0
      {
        WhereFrom(s, a, act, n);
        if Comes(s, act, n) {
          ComesClean(s, act, raw, n);
        } else {
          StaysClean(s, a, act, raw, n);
        }
      }
    }
  }

  lemma NoneRaw(s: State, act: Action, raw: set<nat>)
    requires Wf(s) && act.t >= |s.pc|
    ensures RawAfter(s, act, raw) == raw
  {
  }

  ghost function RawRun(s: State, a: L.Abs, acts: seq<Action>, raw: set<nat>): set<nat>
    requires Inv(s, a)
    decreases |acts|
  {
    hide L.Rel;
    if acts == [] then raw else
      StepKeepsInv(s, a, acts[0]);
      RawRun(Step(s, acts[0]), L.Apply(a, EventOf(s, acts[0])), acts[1..], RawAfter(s, acts[0], raw))
  }

  lemma {:induction false} CleanRun(s: State, a: L.Abs, acts: seq<Action>, raw: set<nat>)
    requires Inv(s, a) && Clean(s, a, raw)
    ensures var (s', a') := Final(s, a, acts);
            Clean(s', a', RawRun(s, a, acts, raw))
    decreases |acts|
  {
    InvFacts(s, a);
    hide Inv, Wf, Step, EventOf, L.Apply, L.Legal, Clean, RawAfter;
    if acts != [] {
      StepKeepsInv(s, a, acts[0]);
      CleanStep(s, a, acts[0], raw);
      CleanRun(Step(s, acts[0]), L.Apply(a, EventOf(s, acts[0])), acts[1..], RawAfter(s, acts[0], raw));
    }
  }

  /** pop hands a holder back empty: over any run from init, a holder in _empty, or on its way there or taken from
      there, holds null, unless create made it and no push has filled it yet. */
  lemma EmptyHoldersAreNull(instances: nat, threads: nat, acts: seq<Action>)
    ensures var s0, a0 := Init(instances, threads), L.Abs(seq(2 * instances, _ => []), seq(threads, _ => {}));
            && Inv(s0, a0)
            && (var (s, a) := Final(s0, a0, acts);
                Clean(s, a, RawRun(s0, a0, acts, {})))
  {
    var s0, a0 := Init(instances, threads), L.Abs(seq(2 * instances, _ => []), seq(threads, _ => {}));
    InitInv(instances, threads);
    assert Clean(s0, a0, {});
    hide Inv, Init, Clean;
    CleanRun(s0, a0, acts, {});
  }

  // ---------------------------------------------------------------------------------------------
  // A thread that runs alone

  /** A bound on the steps thread t has left if nobody disturbs it. */
  function Work(s: State, t: nat): nat
    requires Wf(s) && t < |s.pc|
  {
    match s.pc[t]
    case Out => 0
    case PushTake(_, _) => C.Work(s.lifo, t) + 5
    case PushFill(_, _, _) => 5
    case PopTake(_) => C.Work(s.lifo, t) + 6
    case PopRead(_, _) => 6
    case PopWipe(_, _, _) => 5
    case _ => C.Work(s.lifo, t)
  }

  lemma AloneStep(s: State, t: nat)
    requires Wf(s) && t < |s.pc| && !s.pc[t].Out? && L.PcOk(s.lifo, t) && Wf(Instr(s, t))
    ensures |Instr(s, t).pc| == |s.pc| && Work(Instr(s, t), t) < Work(s, t) <= 15
  {
    assert Coupled(s, t);
    CallProgress(s, t);
    if !s.lifo.pc[t].Idle? {
      C.AloneStep(s.lifo, t);
    }
  }

  lemma OutStays(s: State, t: nat)
    requires Wf(s) && t < |s.pc| && s.pc[t].Out?
    ensures Instr(s, t) == s && Work(s, t) == 0
  {
  }

  function Execs(t: nat, n: nat): seq<Action> {
    seq(n, _ => Exec(t))
  }

  /** No operation ever waits for another thread: from any reachable state, a thread that runs alone returns within
      fifteen steps, wherever the other threads have stopped. */
  lemma {:induction false} AloneReturns(s: State, a: L.Abs, t: nat, n: nat)
    requires Inv(s, a) && t < |s.pc|
    requires Wf(s) && Work(s, t) <= n
    ensures Work(s, t) <= 15
    ensures t < |Final(s, a, Execs(t, n)).0.pc| && Final(s, a, Execs(t, n)).0.pc[t].Out?
    decreases n
  {
    hide Inv, Instr, Wf, Work, EventOf, L.Legal, L.Apply;
    AloneOnce(s, a, t);
    if n > 0 {
      var acts := Execs(t, n);
      assert acts[0] == Exec(t) && acts[1..] == Execs(t, n - 1);
      AloneReturns(Step(s, Exec(t)), L.Apply(a, EventOf(s, Exec(t))), t, n - 1);
    }
  }

  lemma AloneOnce(s: State, a: L.Abs, t: nat)
    requires Inv(s, a) && t < |s.pc| && Wf(s)
    ensures L.Legal(a, EventOf(s, Exec(t)))
    ensures var s1 := Step(s, Exec(t));
            && Inv(s1, L.Apply(a, EventOf(s, Exec(t)))) && Wf(s1) && |s1.pc| == |s.pc|
            && Work(s, t) <= 15 && (Work(s1, t) < Work(s, t) || Work(s1, t) == 0)
            && (Work(s, t) == 0 ==> s.pc[t].Out?)
  {
    InvFacts(s, a);
    StepKeepsInv(s, a, Exec(t));
    var s1, a1 := Step(s, Exec(t)), L.Apply(a, EventOf(s, Exec(t)));
    InvFacts(s1, a1);
    hide Inv, Instr, Work, EventOf, L.Legal, L.Apply;
    if s.pc[t].Out? {
      OutStays(s, t);
    } else {
      AloneStep(s, t);
    }
  }
}
