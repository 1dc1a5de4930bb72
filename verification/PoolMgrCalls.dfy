/** What the submitter and the workers of framework/shining_pool.h see: when pop goes on to force_pop and when it
    comes back with nothing, which way the elements flow, and that nobody waits. */
module PoolMgrCalls {
  import opened PoolMgr
  import L = Lifo
  import R = ResourceStack
  import C = ResourceStackCalls

  // ---------------------------------------------------------------------------------------------
  // How often pop goes on to force_pop

  predicate InForce(pc: Pc) {
    pc.SForcePop? || pc.SForceProduce? || pc.SProduce? || pc.SDec?
  }

  /** One if pop calls force_pop in this step. */
  function Forces(s: State, act: Action): nat
    requires Wf(s)
  {
    if !InForce(s.pc[0]) && 0 < |Step(s, act).pc| && InForce(Step(s, act).pc[0]) then 1 else 0
  }

  /** The force_pop calls of a run. */
  ghost function ForceCount(s: State, a: L.Abs, poolSize: nat, acts: seq<Action>): nat
    requires Inv(s, a, poolSize)
    decreases |acts|
  {
    if acts == [] then 0 else
      InvWf(s, a, poolSize);
      StepKeepsInv(s, a, poolSize, acts[0]);
      Forces(s, acts[0]) + ForceCount(Step(s, acts[0]), L.Apply(a, EventOf(s, acts[0])), poolSize, acts[1..])
  }

  /** _p_size, less the force_pop that is running. */
  function Left(s: State): int
    requires Wf(s)
  {
    s.psize - if InForce(s.pc[0]) then 1 else 0
  }

  lemma ForceOnce(s: State, act: Action)
    requires Wf(s) && Wf(Step(s, act))
    ensures Left(Step(s, act)) + Forces(s, act) == Left(s)
  {
    hide R.Wf, R.Step, R.OutcomeOf, R.Fresh;
  }

  lemma {:induction false} ForcesCounted(s: State, a: L.Abs, poolSize: nat, acts: seq<Action>)
    requires Inv(s, a, poolSize)
    ensures Wf(s) && Wf(Final(s, a, poolSize, acts).0)
    ensures Left(Final(s, a, poolSize, acts).0) + ForceCount(s, a, poolSize, acts) == Left(s)
    decreases |acts|
  {
    InvWf(s, a, poolSize);
    hide Inv, Step, Wf, Left, Forces, EventOf, L.Apply, L.Legal;
    if acts != [] {
      StepKeepsInv(s, a, poolSize, acts[0]);
      var s1, a1 := Step(s, acts[0]), L.Apply(a, EventOf(s, acts[0]));
      InvWf(s1, a1, poolSize);
      ForceOnce(s, acts[0]);
      ForcesCounted(s1, a1, poolSize, acts[1..]);
    }
  }

  /** pop's test of _p_size lets it go on. */
  lemma TestGoes(s: State)
    requires Wf(s) && s.pc[0].SCheck?
    ensures var s' := Step(s, Exec(0));
            && |s'.pc| == |s.pc| && (s'.pc[0].SForcePop? || s'.pc[0].SIdle?)
            && (s'.pc[0].SForcePop? <==> s.psize > 0)
            && (s'.pc[0].SIdle? ==> Gain(s, Exec(0)) == 0)
  {
    hide R.Wf, R.Step, R.OutcomeOf;
  }

  /** Over every run from init: poolSize is what is left in _p_size plus the force_pop calls made, the running one
      not yet deducted; so a pop that found the producer pool empty goes on to force_pop exactly as long as fewer
      than poolSize of them have been made, and returns null otherwise. */
  lemma ForceAccount(workers: nat, poolSize: nat, acts: seq<Action>)
    ensures var s0, a0 := Init(workers, poolSize), L.Abs(seq(4, _ => []), seq(workers + 1, _ => {}));
            && Inv(s0, a0, poolSize)
            && (var s, n := Final(s0, a0, poolSize, acts).0, ForceCount(s0, a0, poolSize, acts);
                && Wf(s) && n <= poolSize
                && s.psize + n == poolSize + (if InForce(s.pc[0]) then 1 else 0)
                && (s.pc[0].SCheck? ==>
                      && |Step(s, Exec(0)).pc| == |s.pc|
                      && Step(s, Exec(0)).pc[0] == (if n < poolSize then SForcePop else SIdle)
                      && (n == poolSize ==> Gain(s, Exec(0)) == 0)))
  {
    var s0, a0 := Init(workers, poolSize), L.Abs(seq(4, _ => []), seq(workers + 1, _ => {}));
    InitInv(workers, poolSize);
    ForcesCounted(s0, a0, poolSize, acts);
    var (s, a) := Final(s0, a0, poolSize, acts);
    assert Left(s0) == poolSize;
    PsizeBound(s, a, poolSize);
    hide Inv, Step, Wf, Gain;
    if s.pc[0].SCheck? {
      TestGoes(s);
    }
  }

  lemma PsizeBound(s: State, a: L.Abs, poolSize: nat)
    requires Inv(s, a, poolSize)
    ensures Wf(s) && (if InForce(s.pc[0]) then 1 else 0) <= s.psize
  {
    hide R.Inv, R.Wf, Elements, NoPushFailing;
  }

  // ---------------------------------------------------------------------------------------------
  // When pop comes back with nothing

  /** The producer pool is found empty in this step. */
  predicate SeesEmpty(s: State, act: Action)
    requires Wf(s)
  {
    EventOf(s, act) == L.SawEmpty(0, R.Avail(PRODUCER))
  }

  /** force_pop gets no element in this step: the allocator returns null, or new gives its element no holder. */
  predicate MakesNone(s: State, act: Action)
    requires Wf(s)
  {
    act.Produce? && s.pc[0].SForceProduce? && (act.r == 0 || (act.n == 0 && act.r !in s.produced))
  }

  ghost predicate EmptySeen(s: State, a: L.Abs, poolSize: nat, acts: seq<Action>)
    requires Inv(s, a, poolSize)
    decreases |acts|
  {
    acts != [] && (
      InvWf(s, a, poolSize);
      SeesEmpty(s, acts[0])
      || (StepKeepsInv(s, a, poolSize, acts[0]);
          EmptySeen(Step(s, acts[0]), L.Apply(a, EventOf(s, acts[0])), poolSize, acts[1..])))
  }

  ghost predicate NoneMade(s: State, a: L.Abs, poolSize: nat, acts: seq<Action>)
    requires Inv(s, a, poolSize)
    decreases |acts|
  {
    acts != [] && (
      InvWf(s, a, poolSize);
      MakesNone(s, acts[0])
      || (StepKeepsInv(s, a, poolSize, acts[0]);
          NoneMade(Step(s, acts[0]), L.Apply(a, EventOf(s, acts[0])), poolSize, acts[1..])))
  }

  predicate InPop(pc: Pc) {
    pc.SPop? || pc.SCheck? || InForce(pc)
  }

  /** The submitter does not return from pop during the run. */
  ghost predicate Popping(s: State, a: L.Abs, poolSize: nat, acts: seq<Action>)
    requires Inv(s, a, poolSize)
    decreases |acts|
  {
    InvWf(s, a, poolSize);
    && InPop(s.pc[0])
    && (acts != [] ==>
          (StepKeepsInv(s, a, poolSize, acts[0]);
           Popping(Step(s, acts[0]), L.Apply(a, EventOf(s, acts[0])), poolSize, acts[1..])))
  }

  /** What the submitter's place in pop tells about the steps so far: whether it has seen the producer pool empty,
      and whether force_pop has got no element. */
  ghost predicate Knows(s: State, empty: bool, none: bool)
    requires Wf(s)
  {
    match s.pc[0]
    case SPop => (L.SawNull(s.rs.lifo.pc[0]) ==> empty) && !none
    case SCheck => empty && !none
    case SForcePop => empty && !none
    case SForceProduce => empty && !none
    case SProduce(r) => empty && !none
    case SDec(r) => empty && (r == 0 <==> none)
    case _ => false
  }

  /** A step of somebody else. */
  lemma OthersKnow(s: State, act: Action, empty: bool, none: bool)
    requires Wf(s) && Actor(act) != 0 && Knows(s, empty, none)
    requires Actor(act) < |s.pc| ==> L.PcOk(s.rs.lifo, Actor(act))
    requires Wf(Step(s, act))
    ensures Knows(Step(s, act), empty || SeesEmpty(s, act), none || MakesNone(s, act))
  {
    if Actor(act) < |s.pc| {
      MatchesAll(s, act);
    }
    hide R.Wf, R.Step, R.OutcomeOf, InnerOf, NextPc;
  }

  /** A step inside the pops of pop and force_pop. */
  lemma PoolPopKnows(s: State, empty: bool, none: bool)
    requires Wf(s) && Knows(s, empty, none) && (s.pc[0].SPop? || s.pc[0].SForcePop?)
    requires L.PcOk(s.rs.lifo, 0) && Wf(Step(s, Exec(0))) && InPop(Step(s, Exec(0)).pc[0])
    ensures Knows(Step(s, Exec(0)), empty || SeesEmpty(s, Exec(0)), none)
  {
    assert Coupled(s.pc[0], s.rs.pc[0]);
    StepIsInstr(s.rs, 0);
    R.CallProgress(s.rs, 0);
    C.OwnNull(s.rs, 0, C.Pop(PRODUCER));
    C.ReturnsNothing(s.rs, 0, C.Pop(PRODUCER));
    hide R.Wf, R.Step, R.Instr, R.OutcomeOf, R.EventOf;
  }

  lemma RestKnows(s: State, act: Action, empty: bool, none: bool)
    requires Wf(s) && Knows(s, empty, none) && Actor(act) == 0 && Wf(Step(s, act)) && InPop(Step(s, act).pc[0])
    requires !(act.Exec? && (s.pc[0].SPop? || s.pc[0].SForcePop?))
    ensures Knows(Step(s, act), empty || SeesEmpty(s, act), none || MakesNone(s, act))
  {
    assert Coupled(s.pc[0], s.rs.pc[0]);
    hide R.Wf, R.Step, R.OutcomeOf, R.EventOf;
  }

  lemma StepKnows(s: State, act: Action, empty: bool, none: bool)
    requires Wf(s) && Knows(s, empty, none) && Wf(Step(s, act)) && InPop(Step(s, act).pc[0])
    requires forall t :: 0 <= t < |s.pc| ==> L.PcOk(s.rs.lifo, t)
    ensures Knows(Step(s, act), empty || SeesEmpty(s, act), none || MakesNone(s, act))
  {
    assert 0 < |s.pc|;
    hide Knows, SeesEmpty, Step, Wf;
    if Actor(act) != 0 {
      OthersKnow(s, act, empty, none);
    } else if act.Exec? && (s.pc[0].SPop? || s.pc[0].SForcePop?) {
      PoolPopKnows(s, empty, none);
    } else {
      RestKnows(s, act, empty, none);
    }
  }

  lemma {:induction false} RunKnows(s: State, a: L.Abs, poolSize: nat, acts: seq<Action>, empty: bool, none: bool)
    requires Inv(s, a, poolSize) && Popping(s, a, poolSize, acts)
    requires Wf(s) && Knows(s, empty, none)
    ensures var s' := Final(s, a, poolSize, acts).0;
            && Wf(s') && InPop(s'.pc[0])
            && Knows(s', empty || EmptySeen(s, a, poolSize, acts), none || NoneMade(s, a, poolSize, acts))
    decreases |acts|
  {
    hide Inv, Step, Wf, Knows, SeesEmpty, MakesNone, InPop, EventOf, L.Apply, L.Legal;
    if acts != [] {
      PcsOk(s, a, poolSize);
      StepKeepsInv(s, a, poolSize, acts[0]);
      var s1, a1 := Step(s, acts[0]), L.Apply(a, EventOf(s, acts[0]));
      InvWf(s1, a1, poolSize);
      assert InPop(s1.pc[0]);
      StepKnows(s, acts[0], empty, none);
      RunKnows(s1, a1, poolSize, acts[1..], empty || SeesEmpty(s, acts[0]), none || MakesNone(s, acts[0]));
    }
  }

  lemma PcsOk(s: State, a: L.Abs, poolSize: nat)
    requires Inv(s, a, poolSize)
    ensures Wf(s) && forall t :: 0 <= t < |s.pc| ==> L.PcOk(s.rs.lifo, t)
  {
    hide R.Inv;
    RsInvFacts(s.rs, a);
  }

  lemma PopCalled(s: State)
    requires Wf(s) && s.pc[0].SIdle? && Wf(Step(s, SubPop))
    ensures Knows(Step(s, SubPop), false, false) && EventOf(s, SubPop) == L.Silent
  {
    assert Coupled(s.pc[0], s.rs.pc[0]);
    C.Called(s.rs, R.CallPop(0, PRODUCER));
    hide R.Wf;
  }

  /** The last step of pop, and what it returns. */
  lemma LastOfPop(s: State, act: Action, empty: bool, none: bool)
    requires Wf(s) && Knows(s, empty, none) && InPop(s.pc[0]) && L.PcOk(s.rs.lifo, 0)
    requires Wf(Step(s, act)) && Step(s, act).pc[0].SIdle?
    ensures act == Exec(0)
    ensures Gain(s, act) == 0 ==> empty && (none || (s.pc[0].SCheck? && s.psize <= 0))
    ensures none || s.pc[0].SCheck? ==> Gain(s, act) == 0
  {
    assert Coupled(s.pc[0], s.rs.pc[0]);
    if act == Exec(0) && s.pc[0].SPop? {
      R.CallProgress(s.rs, 0);
    }
    hide R.Wf, R.Step, R.OutcomeOf, R.Instr;
  }

  /** From the call of pop to its return, through any interleaving: it returns null iff _p_size has run out at its
      test, or else force_pop has got no element or no holder for it; and never without having found the producer
      pool empty first. */
  lemma PopReturns(s: State, a: L.Abs, poolSize: nat, acts: seq<Action>, act: Action)
    requires Inv(s, a, poolSize) && Wf(s) && s.pc[0].SIdle?
    requires Inv(Step(s, SubPop), a, poolSize) && Popping(Step(s, SubPop), a, poolSize, acts)
    requires var s2 := Final(Step(s, SubPop), a, poolSize, acts).0;
             Wf(s2) && 0 < |Step(s2, act).pc| && Step(s2, act).pc[0].SIdle?
    ensures var s1 := Step(s, SubPop);
            var s2 := Final(s1, a, poolSize, acts).0;
            && act == Exec(0) && 0 < |s2.pc|
            && (Gain(s2, act) == 0 ==> EmptySeen(s1, a, poolSize, acts))
            && (Gain(s2, act) == 0 <==> NoneMade(s1, a, poolSize, acts) || (s2.pc[0].SCheck? && s2.psize <= 0))
            && (s2.pc[0].SCheck? ==> s2.psize <= 0)
  {
    var s1 := Step(s, SubPop);
    InvWf(s1, a, poolSize);
    PopCalled(s);
    hide Inv, Step, Wf, Knows, Gain;
    RunKnows(s1, a, poolSize, acts, false, false);
    var (s2, a2) := Final(s1, a, poolSize, acts);
    PcsOk(s2, a2, poolSize);
    StepKeepsInv(s2, a2, poolSize, act);
    InvWf(Step(s2, act), L.Apply(a2, EventOf(s2, act)), poolSize);
    LastOfPop(s2, act, EmptySeen(s1, a, poolSize, acts), NoneMade(s1, a, poolSize, acts));
    if s2.pc[0].SCheck? {
      TestGoes(s2);
    }
  }

  // ---------------------------------------------------------------------------------------------
  // Which way the elements flow

  /** What the submitter pushes enters the consumer pool; workers take from there and give to the producer pool, from
      which pop takes: in the step in which a call into a pool returns. */
  lemma Flow(s: State, act: Action)
    requires Wf(s) && act.Exec? && act.t < |s.pc| && L.PcOk(s.rs.lifo, act.t) && NoPushFailing(s)
    ensures var pc, pc', o := s.pc[act.t], NextPc(s, act), OutcomeOf(s, act);
            match pc
            case SPush(r) => pc'.SIdle? ==> R.Entered(o, CONSUMER) == r
            case WTake => pc'.WProcess? ==> R.Left(o, CONSUMER) == pc'.r
            case WProcess(r) => pc' == WGive(r)
            case WGive(r) => pc'.WIdle? ==> R.Entered(o, PRODUCER) == r
            case SPop => pc'.SIdle? ==> R.Left(o, PRODUCER) == Gain(s, act) != 0
            case SForcePop => pc'.SDec? ==> R.Left(o, PRODUCER) == pc'.r != 0
            case SProduce(r) => pc'.SDec? ==> pc'.r == r
            case SDec(r) => pc'.SIdle? && Gain(s, act) == r
            case _ => true
  {
    var t := act.t;
    assert Coupled(s.pc[t], s.rs.pc[t]);
    NotFailingSucceeds(s, act);
    if InnerOf(s, act).Do? && InnerOf(s, act).act.Exec? {
      R.CallProgress(s.rs, t);
    }
    hide R.Wf, R.Step, R.Instr, R.OutcomeOf, R.Fresh;
  }

  /** Workers are created by start. */
  ghost predicate WorkersWait(s: State) {
    !s.started ==> forall t :: 0 < t < |s.pc| ==> s.pc[t].WIdle?
  }

  lemma WaitStep(s: State, act: Action)
    requires Wf(s) && WorkersWait(s)
    ensures WorkersWait(Step(s, act))
  {
    hide R.Wf, R.Step, R.OutcomeOf, R.Fresh, After;
  }

  lemma {:induction false} WaitRun(s: State, a: L.Abs, poolSize: nat, acts: seq<Action>)
    requires Inv(s, a, poolSize) && WorkersWait(s)
    ensures WorkersWait(Final(s, a, poolSize, acts).0)
    decreases |acts|
  {
    hide Inv, Step, Wf, WorkersWait, EventOf, L.Apply, L.Legal;
    if acts != [] {
      InvWf(s, a, poolSize);
      StepKeepsInv(s, a, poolSize, acts[0]);
      WaitStep(s, acts[0]);
      WaitRun(Step(s, acts[0]), L.Apply(a, EventOf(s, acts[0])), poolSize, acts[1..]);
    }
  }

  /** No worker touches a pool before start. */
  lemma WorkersWaitForStart(workers: nat, poolSize: nat, acts: seq<Action>)
    ensures var s0, a0 := Init(workers, poolSize), L.Abs(seq(4, _ => []), seq(workers + 1, _ => {}));
            Inv(s0, a0, poolSize) && WorkersWait(Final(s0, a0, poolSize, acts).0)
  {
    InitInv(workers, poolSize);
    WaitRun(Init(workers, poolSize), L.Abs(seq(4, _ => []), seq(workers + 1, _ => {})), poolSize, acts);
  }

  /** Nothing keeps a thread at rest from going on: pop and push as soon as the submitter is outside the pool, a
      worker's round as soon as start has been called, create and produce as soon as new has returned a holder. */
  lemma CallsBegin(s: State, act: Action)
    requires Wf(s) && Actor(act) < |s.pc|
    ensures |Step(s, act).pc| == |s.pc|
    ensures var pc, pc' := s.pc[Actor(act)], Step(s, act).pc[Actor(act)];
            match act
            case Make(n, _) => pc.SInit? && pc.i > 0 && R.Fresh(s.rs, n) ==> pc' == SMake(pc.i - 1)
            case Start => pc == SInit(0) ==> pc' == SIdle && Step(s, act).started
            case SubPop => pc.SIdle? ==> pc' == SPop
            case SubPush(r) => pc.SIdle? && r in s.hand && r != 0 ==>
                                 pc' == SPush(r) && Step(s, act).hand + multiset{r} == s.hand
            case Produce(r, n) => pc.SForceProduce? && r != 0 && r !in s.produced && R.Fresh(s.rs, n) ==>
                                    pc' == SProduce(r) && r in Step(s, act).produced
            case Take(t) => 0 < t && pc.WIdle? && s.started ==> pc' == WTake
            case Exec(t) => pc.WProcess? ==> pc' == WGive(pc.r)
  {
    hide R.Wf, R.Step, R.OutcomeOf, R.Fresh, Coupled;
  }

  // ---------------------------------------------------------------------------------------------
  // A thread that runs alone

  /** Between two calls, or waiting for the allocator. */
  predicate Resting(pc: Pc) {
    pc.SInit? || pc.SIdle? || pc.SForceProduce? || pc.WIdle?
  }

  /** A bound on the steps thread t has left before it rests, if nobody disturbs it. */
  function Work(s: State, t: nat): nat
    requires Wf(s) && t < |s.pc|
  {
    match s.pc[t]
    case SPop => C.Work(s.rs, t) + 20
    case SCheck => 20
    case SForcePop => C.Work(s.rs, t) + 2
    case SProduce(_) => C.Work(s.rs, t) + 2
    case SDec(_) => 1
    case WTake => C.Work(s.rs, t) + 17
    case WProcess(_) => 16
    case _ => if Resting(s.pc[t]) then 0 else C.Work(s.rs, t)
  }

  lemma InnerWork(s: State, t: nat)
    requires Wf(s) && t < |s.pc| && L.PcOk(s.rs.lifo, t) && Wf(Step(s, Exec(t))) && Calling(s.pc[t])
    ensures |Step(s, Exec(t)).pc| == |s.pc| && Step(s, Exec(t)).pc[t] == NextPc(s, Exec(t))
    ensures NextPc(s, Exec(t)) == After(s.pc[t], OutcomeOf(s, Exec(t)))
    ensures C.Work(Step(s, Exec(t)).rs, t) < C.Work(s.rs, t) <= 15
  {
    assert Coupled(s.pc[t], s.rs.pc[t]);
    StepIsInstr(s.rs, t);
    C.AloneStep(s.rs, t);
    hide R.Step, R.Instr, R.OutcomeOf, C.Work;
  }

  /** What is left of pop and of a worker's round after the call into a pool that the thread is in. */
  function Rest(pc: Pc): nat {
    if pc.SPop? then 20 else if pc.WTake? then 17 else if pc.SForcePop? || pc.SProduce? then 2 else 0
  }

  lemma AfterWork(pc: Pc, o: R.Outcome)
    requires Calling(pc)
    ensures var pc' := After(pc, o);
            if Calling(pc') then pc' == pc
            else Resting(pc') || (pc'.SCheck? && pc.SPop?) || (pc'.WProcess? && pc.WTake?)
                 || (pc'.SDec? && (pc.SForcePop? || pc.SProduce?))
  {
  }

  lemma CallingWork(s: State, t: nat)
    requires Wf(s) && t < |s.pc| && Calling(s.pc[t])
    ensures Work(s, t) == C.Work(s.rs, t) + Rest(s.pc[t])
  {
    hide C.Work, R.Wf;
  }

  lemma ExecWork(s: State, t: nat)
    requires Wf(s) && t < |s.pc| && L.PcOk(s.rs.lifo, t) && Wf(Step(s, Exec(t))) && Calling(s.pc[t])
    ensures |Step(s, Exec(t)).pc| == |s.pc| && Work(Step(s, Exec(t)), t) < Work(s, t) <= 35
  {
    InnerWork(s, t);
    AfterWork(s.pc[t], OutcomeOf(s, Exec(t)));
    CallingWork(s, t);
    hide R.Wf, Step, OutcomeOf, Coupled, C.Work, After, NextPc;
    if Calling(Step(s, Exec(t)).pc[t]) {
      CallingWork(Step(s, Exec(t)), t);
    }
  }

  /** A call into a pool that pop and the worker loop make on their own. */
  lemma CallWork(s: State, t: nat)
    requires Wf(s) && t < |s.pc| && Wf(Step(s, Exec(t))) && (s.pc[t].SCheck? || s.pc[t].WProcess? || s.pc[t].SDec?)
    ensures |Step(s, Exec(t)).pc| == |s.pc| && Work(Step(s, Exec(t)), t) < Work(s, t) <= 20
  {
    assert Coupled(s.pc[t], s.rs.pc[t]);
    if InnerOf(s, Exec(t)).Do? {
      NewCallWork(s.rs, InnerOf(s, Exec(t)).act);
    }
    hide R.Wf, R.Step, C.Work;
  }

  lemma NewCallWork(m: R.State, call: R.Action)
    requires R.Wf(m) && (call.CallPush? || call.CallPop?) && call.t < |m.pc| && m.pc[call.t].Out?
    requires call.q < |m.made| && (call.CallPush? ==> call.r != 0) && R.Wf(R.Step(m, call))
    ensures |R.Step(m, call).pc| == |m.pc| && C.Work(R.Step(m, call), call.t) <= 11
  {
  }

  lemma WorkDecreases(s: State, a: L.Abs, poolSize: nat, t: nat)
    requires Inv(s, a, poolSize) && Wf(s) && t < |s.pc|
    requires Wf(Step(s, Exec(t))) && |Step(s, Exec(t)).pc| == |s.pc|
    ensures Work(s, t) <= 35
    ensures if Resting(s.pc[t]) then Work(s, t) == 0 && Step(s, Exec(t)).pc[t] == s.pc[t]
            else Work(Step(s, Exec(t)), t) < Work(s, t)
  {
    PcsOk(s, a, poolSize);
    hide Inv, Wf, Step, Work;
    if Calling(s.pc[t]) {
      ExecWork(s, t);
    } else if s.pc[t].SCheck? || s.pc[t].WProcess? || s.pc[t].SDec? {
      CallWork(s, t);
    } else {
      RestStays(s, t);
    }
  }

  lemma RestStays(s: State, t: nat)
    requires Wf(s) && t < |s.pc| && Resting(s.pc[t])
    ensures |Step(s, Exec(t)).pc| == |s.pc| && Work(s, t) == 0 && Step(s, Exec(t)).pc[t] == s.pc[t]
  {
    hide R.Wf, R.Step, R.OutcomeOf;
  }

  function Execs(t: nat, n: nat): seq<Action> {
    seq(n, _ => Exec(t))
  }

  /** Neither pop, nor push, nor a round of a worker ever waits for another thread: from any reachable state a thread
      that runs alone is through its operation within 35 steps, or needs the allocator, wherever the others have
      stopped. */
  lemma {:induction false} AloneReturns(s: State, a: L.Abs, poolSize: nat, t: nat, n: nat)
    requires Inv(s, a, poolSize) && Wf(s) && t < |s.pc| && Work(s, t) <= n
    ensures Work(s, t) <= 35
    ensures var s' := Final(s, a, poolSize, Execs(t, n)).0;
            t < |s'.pc| && Resting(s'.pc[t])
    decreases n
  {
    hide Inv, Wf, Step, Work, EventOf, L.Apply, L.Legal, Resting;
    StepKeepsInv(s, a, poolSize, Exec(t));
    var s1, a1 := Step(s, Exec(t)), L.Apply(a, EventOf(s, Exec(t)));
    InvWf(s1, a1, poolSize);
    SameThreads(s, Exec(t));
    WorkDecreases(s, a, poolSize, t);
    if n > 0 {
      var acts := Execs(t, n);
      assert acts[0] == Exec(t) && acts[1..] == Execs(t, n - 1);
      if Resting(s.pc[t]) {
        RestWork(s1, t);
      }
      AloneReturns(s1, a1, poolSize, t, n - 1);
    }
  }

  lemma RestWork(s: State, t: nat)
    requires Wf(s) && t < |s.pc| && Resting(s.pc[t])
    ensures Work(s, t) == 0
  {
  }

  lemma SameThreads(s: State, act: Action)
    requires Wf(s)
    ensures |Step(s, act).pc| == |s.pc|
  {
    hide R.Wf, R.Step, R.OutcomeOf;
  }
}
