/** framework/shining_pool.h: one submitting thread hands elements to worker threads through a consumer
    pool and takes them back from a producer pool.  Both pools are ResourceStack instances and run one
    instruction at a time. */
module PoolMgr {
  import L = Lifo
  import R = ResourceStack
  import opened Sums

  const PRODUCER: nat := 0
  const CONSUMER: nat := 1

  /** Thread 0 submits (S...), the others run the worker loop (W...).  r is the element in the thread's
      own variable. */
  datatype Pc =
    | SInit(i: nat)       // init: i rounds of create to go
    | SMake(i: nat)       // inside create, i rounds to go after this one
    | SIdle               // outside the pool
    | SPop                // pop: inside _producer_pool->pop()
    | SCheck              // pop: got NULL, about to test _p_size > 0
    | SForcePop           // pop: inside force_pop's pop()
    | SForceProduce       // pop: about to call the producer
    | SProduce(r: nat)    // pop: inside produce
    | SDec(r: nat)        // pop: about to decrement _p_size and return r
    | SPush(r: nat)       // inside _consumer_pool->push(r)
    | WIdle               // top of the loop
    | WTake               // inside _consumer_pool->pop()
    | WProcess(r: nat)    // ele_process(r) done, about to give r back
    | WGive(r: nat)       // inside _producer_pool->push(r)

  /** `hand` are the elements the submitter has popped and not pushed; `produced` the elements the
      allocator has made; `lost` those among them that produce dropped because new gave it no holder. */
  datatype State = State(rs: R.State, pc: seq<Pc>, started: bool, psize: int, hand: multiset<nat>,
                         produced: set<nat>, lost: set<nat>)

  datatype Action =
    | Make(n: nat, junk: nat)    // a round of create; new returns n, whose _p is not initialised
    | Start
    | SubPop
    | SubPush(r: nat)            // the submitter pushes an element it holds
    | Produce(r: nat, n: nat)    // the allocator returns a new element r, new returns holder n; 0 is null
    | Take(t: nat)               // worker t begins a round of its loop
    | Exec(t: nat)

  predicate Popping(pc: R.Pc, q: nat) {
    (pc.PopTake? || pc.PopRead? || pc.PopWipe? || pc.PopGive?) && pc.q == q
  }

  predicate Pushing(pc: R.Pc, q: nat, r: nat) {
    (pc.PushTake? || pc.PushFill? || pc.PushGive?) && pc.q == q && pc.r == r
  }

  predicate Calling(pc: Pc) {
    pc.SMake? || pc.SPop? || pc.SForcePop? || pc.SProduce? || pc.SPush? || pc.WTake? || pc.WGive?
  }

  ghost predicate Coupled(pc: Pc, m: R.Pc) {
    match pc
    case SMake(_) => m.MakeGive? && m.q == CONSUMER
    case SPop => Popping(m, PRODUCER)
    case SForcePop => Popping(m, PRODUCER)
    case SProduce(r) => m.ProdGive? && m.q == PRODUCER && m.r == r && r != 0
    case SPush(r) => Pushing(m, CONSUMER, r) && r != 0
    case WTake => Popping(m, CONSUMER)
    case WGive(r) => Pushing(m, PRODUCER, r) && r != 0
    case WProcess(r) => m.Out? && r != 0
    case _ => m.Out?
  }

  predicate SubmitterPc(pc: Pc) {
    !pc.WIdle? && !pc.WTake? && !pc.WProcess? && !pc.WGive?
  }

  ghost predicate Wf(s: State) {
    && R.Wf(s.rs)
    && |s.rs.made| == 2
    && 0 < |s.pc| == |s.rs.pc|
    && (forall t :: 0 <= t < |s.pc| ==> Coupled(s.pc[t], s.rs.pc[t]) && (SubmitterPc(s.pc[t]) <==> t == 0))
  }

  /** Where a call into a pool leaves the thread, once the call returns. */
  function After(pc: Pc, o: R.Outcome): Pc {
    match pc
    case SMake(i) => if o.MakeReturned? then SInit(i) else pc
    case SPop => if o.PopReturned? then (if o.r == 0 then SCheck else SIdle) else pc
    case SForcePop => if o.PopReturned? then (if o.r == 0 then SForceProduce else SDec(o.r)) else pc
    case SProduce(r) => if o.ProduceReturned? then SDec(o.r) else pc
    case SPush(r) => if o.PushReturned? then SIdle else pc
    case WTake => if o.PopReturned? then (if o.r == 0 then WIdle else WProcess(o.r)) else pc
    case WGive(r) => if o.PushReturned? then WIdle else pc
    case _ => pc
  }

  function One(r: nat): multiset<nat> { R.One(r) }

  /** The action on the pools that an action of the manager performs, none if it performs none. */
  datatype Inner = None | Do(act: R.Action)

  function InnerOf(s: State, act: Action): Inner
    requires Wf(s)
  {
    match act
    case Make(n, junk) =>
      if s.pc[0].SInit? && s.pc[0].i > 0 && R.Fresh(s.rs, n) then Do(R.CallMake(0, CONSUMER, n, junk)) else None
    case Start => None
    case SubPop => if s.pc[0].SIdle? then Do(R.CallPop(0, PRODUCER)) else None
    case SubPush(r) => if s.pc[0].SIdle? && r in s.hand && r != 0 then Do(R.CallPush(0, CONSUMER, r)) else None
    case Produce(r, n) =>
      if s.pc[0].SForceProduce? && r != 0 && r !in s.produced && R.Fresh(s.rs, n)
      then Do(R.CallProduce(0, PRODUCER, r, n)) else None
    case Take(t) =>
      if 0 < t < |s.pc| && s.pc[t].WIdle? && s.started then Do(R.CallPop(t, CONSUMER)) else None
    case Exec(t) =>
      if t >= |s.pc| then None
      else if Calling(s.pc[t]) then Do(R.Exec(t))
      else if s.pc[t].SCheck? && s.psize > 0 then Do(R.CallPop(t, PRODUCER))
      else if s.pc[t].WProcess? then Do(R.CallPush(t, PRODUCER, s.pc[t].r))
      else None
  }

  /** produce returns NULL although the allocator returned an element: new finds no memory for its holder. */
  predicate Leaks(s: State, act: Action)
    requires Wf(s)
  {
    act.Produce? && s.pc[0].SForceProduce? && act.r != 0 && act.r !in s.produced && act.n == 0
  }

  function Actor(act: Action): nat {
    match act
    case Take(t) => t
    case Exec(t) => t
    case _ => 0
  }

  /** Where the acting thread goes; an action that cannot be taken leaves it where it is. */
  function NextPc(s: State, act: Action): Pc
    requires Wf(s) && Actor(act) < |s.pc|
  {
    var pc, called := s.pc[Actor(act)], InnerOf(s, act).Do?;
    match act
    case Make(n, junk) => if called then SMake(pc.i - 1) else pc
    case Start => if pc == SInit(0) then SIdle else pc
    case SubPop => if called then SPop else pc
    case SubPush(r) => if called then SPush(r) else pc
    case Produce(r, n) =>
      if called then SProduce(r)
      else if pc.SForceProduce? && (r == 0 || Leaks(s, act)) then SDec(0)  // out of memory: force_pop returns NULL
      else pc
    case Take(t) => if called then WTake else pc
    case Exec(t) =>
      match pc
      case SCheck => if called then SForcePop else SIdle
      case SDec(r) => SIdle
      case WProcess(r) => WGive(r)
      case _ => if called then After(pc, OutcomeOf(s, act)) else pc
  }

  /** What the call into a pool returns in this step. */
  function OutcomeOf(s: State, act: Action): R.Outcome
    requires Wf(s)
  {
    if InnerOf(s, act).Do? then R.OutcomeOf(s.rs, InnerOf(s, act).act) else R.Running
  }

  /** The element the submitter hands over in this step, 0 if none. */
  function Loss(s: State, act: Action): nat
    requires Wf(s)
  {
    if act.SubPush? && InnerOf(s, act).Do? then act.r else 0
  }

  /** The element the submitter gets: what pop returns, or what a failed push leaves with it. */
  function Gain(s: State, act: Action): nat
    requires Wf(s) && Actor(act) < |s.pc|
  {
    var o := OutcomeOf(s, act);
    if !act.Exec? then 0 else
      match s.pc[act.t]
      case SPop => if o.PopReturned? then o.r else 0
      case SPush(r) => if o.PushReturned? && !o.ok then r else 0
      case SDec(r) => r
      case _ => 0
  }

  /** The element the allocator makes in this step, 0 if none. */
  function Born(s: State, act: Action): nat
    requires Wf(s)
  {
    if act.Produce? && (InnerOf(s, act).Do? || Leaks(s, act)) then act.r else 0
  }

  /** The element that is dropped in this step, 0 if none. */
  function Leaked(s: State, act: Action): nat
    requires Wf(s)
  {
    if Leaks(s, act) then act.r else 0
  }

  function Step(s: State, act: Action): State
    requires Wf(s)
  {
    if Actor(act) >= |s.pc| then s else
      State(if InnerOf(s, act).Do? then R.Step(s.rs, InnerOf(s, act).act) else s.rs,
            s.pc[Actor(act) := NextPc(s, act)],
            s.started || (act.Start? && s.pc[0] == SInit(0)),
            if act.Exec? && s.pc[act.t].SDec? then s.psize - 1 else s.psize,
            s.hand - One(Loss(s, act)) + One(Gain(s, act)),
            s.produced + (if Born(s, act) == 0 then {} else {Born(s, act)}),
            s.lost + (if Leaked(s, act) == 0 then {} else {Leaked(s, act)}))
  }

  /** No round of create has run yet. */
  function Init(workers: nat, poolSize: nat): State {
    State(R.Init(2, workers + 1), [SInit(poolSize)] + seq(workers, _ => WIdle), false, poolSize, multiset{}, {}, {})
  }

  // ---------------------------------------------------------------------------------------------
  // Where the elements are

  /** The element in a thread's own variable. */
  function Carried(pc: Pc): nat {
    match pc
    case SProduce(r) => r
    case SDec(r) => r
    case SPush(r) => r
    case WProcess(r) => r
    case WGive(r) => r
    case _ => 0
  }

  function CarriedBag(): Pc -> multiset<nat> { pc => One(Carried(pc)) }
  function CarriedCount(): Pc -> nat { pc => if Carried(pc) == 0 then 0 else 1 }
  function LeavingCount(p: map<nat, nat>, q: nat): R.Pc -> nat { pc => if R.Leaving(pc, p, q) == 0 then 0 else 1 }

  /** All elements in use, wherever they are: submitter, threads' variables, producer pool, consumer pool. */
  ghost function Elements(s: State, a: L.Abs): multiset<nat>
    requires |a.stacks| == 4
  {
    s.hand + Bag(s.pc, CarriedBag()) + R.Stored(s.rs, a, PRODUCER) + R.Stored(s.rs, a, CONSUMER)
  }

  /** No push is on its way to reporting that its pool has no free holder. */
  ghost predicate NoPushFailing(s: State)
    requires Wf(s)
  {
    forall t :: 0 <= t < |s.pc| && s.rs.pc[t].PushTake? ==> !L.SawNull(s.rs.lifo.pc[t])
  }

  /** The bookkeeping of init and of _p_size: `poolSize` is the argument of init. */
  ghost predicate Counted(s: State, poolSize: nat)
    requires Wf(s)
  {
    var pc := s.pc[0];
    && (if pc.SInit? || pc.SMake? then |s.rs.made[CONSUMER]| + pc.i == poolSize && !s.started && s.produced == {}
        else |s.rs.made[CONSUMER]| == poolSize)
    && |s.rs.made[PRODUCER]| + |s.lost| == |s.produced|
    && 0 !in s.produced
    && 0 <= s.psize
    && (pc.SForcePop? || pc.SForceProduce? || pc.SProduce? || pc.SDec? ==> 1 <= s.psize)
    && |s.produced| + s.psize <= poolSize + (if pc.SProduce? || pc.SDec? then 1 else 0)
  }

  ghost predicate Inv(s: State, a: L.Abs, poolSize: nat) {
    && Wf(s)
    && R.Inv(s.rs, a)
    && |a.stacks| == 4
    && R.HolderCount(s.rs, a, PRODUCER) == |s.rs.made[PRODUCER]|
    && R.HolderCount(s.rs, a, CONSUMER) == |s.rs.made[CONSUMER]|
    && Elements(s, a) + multiset(s.lost) == multiset(s.produced)
    && s.lost <= s.produced
    && Counted(s, poolSize)
    && NoPushFailing(s)
  }

  // ---------------------------------------------------------------------------------------------
  // A push always finds a free holder

  lemma StoredSize(s: R.State, a: L.Abs, q: nat)
    requires R.Inv(s, a) && q < |s.made| && R.Empty(q) < |a.stacks|
    ensures |R.Stored(s, a, q)| == |a.stacks[R.Avail(q)]| + Sum(s.pc, LeavingCount(s.p, q))
  {
    var st := a.stacks[R.Avail(q)];
    assert R.Filled(s, a, q);
    hide R.Inv;
    forall i | 0 <= i < |st| ensures |R.ContentIn(s.p)(st[i])| == 1 {
      assert st[i] in st;
    }
    BagLen(st, R.ContentIn(s.p));
    BagSize(s.pc, R.LeavingIn(s.p, q), LeavingCount(s.p, q));
  }

  /** A holder in a thread's hands comes with an element: one it pops, or one it pushes or produces. */
  lemma HoldingHasElement(s: State, q: nat, u: nat)
    requires Wf(s) && u < |s.pc| && q < 2 && (q == CONSUMER ==> !s.pc[0].SMake?)
    requires q == CONSUMER ==> u == 0 ==> s.pc[0].SPush?
    ensures R.Holding(s.rs.pc[u], q) <= LeavingCount(s.rs.p, q)(s.rs.pc[u]) + CarriedCount()(s.pc[u])
  {
    assert R.Coupled(s.rs, u) && Coupled(s.pc[u], s.rs.pc[u]);
  }

  lemma BagSizes(a: multiset<nat>, b: multiset<nat>, c: multiset<nat>, d: multiset<nat>, l: set<nat>, e: set<nat>)
    requires a + b + c + d + multiset(l) == multiset(e)
    ensures |a| + |b| + |c| + |d| + |l| == |e|
  {
    assert |a + b + c + d + multiset(l)| == |multiset(e)|;
  }

  lemma ElementCount(s: State, a: L.Abs, poolSize: nat)
    requires Inv(s, a, poolSize)
    ensures |s.hand| + Sum(s.pc, CarriedCount())
            + |a.stacks[R.Avail(PRODUCER)]| + Sum(s.rs.pc, LeavingCount(s.rs.p, PRODUCER))
            + |a.stacks[R.Avail(CONSUMER)]| + Sum(s.rs.pc, LeavingCount(s.rs.p, CONSUMER)) + |s.lost|
            == |s.produced|
  {
    hide R.Inv, R.Wf, R.Stored, Sum, Bag;
    StoredSize(s.rs, a, PRODUCER);
    StoredSize(s.rs, a, CONSUMER);
    BagSize(s.pc, CarriedBag(), CarriedCount());
    BagSizes(s.hand, Bag(s.pc, CarriedBag()), R.Stored(s.rs, a, PRODUCER), R.Stored(s.rs, a, CONSUMER),
             s.lost, s.produced);
  }

  /** Counting elements against holders: while one thread still looks for a holder, the others cannot
      have used them all. */
  lemma FreeHolder(s: State, a: L.Abs, poolSize: nat, t: nat)
    requires Inv(s, a, poolSize) && t < |s.pc| && s.rs.pc[t].PushTake?
    ensures s.rs.pc[t].q < 2 && a.stacks[R.Empty(s.rs.pc[t].q)] != []
  {
    hide R.Inv, Elements, NoPushFailing;
    assert R.Coupled(s.rs, t) && Coupled(s.pc[t], s.rs.pc[t]);
    var q := s.rs.pc[t].q;
    ElementCount(s, a, poolSize);
    forall u | 0 <= u < |s.pc|
      ensures R.HoldingIn(q)(s.rs.pc[u]) <= LeavingCount(s.rs.p, q)(s.rs.pc[u]) + CarriedCount()(s.pc[u])
    {
      HoldingHasElement(s, q, u);
    }
    SumBoth(s.rs.pc, s.pc, t, R.HoldingIn(q), LeavingCount(s.rs.p, q), CarriedCount());
  }

  lemma PopKeepsNonNull(m: L.State, a: L.Abs, t: nat, l: nat)
    requires L.Rel(m, a) && t < |m.pc| && R.InPop(m.pc[t], l) && l < |a.stacks| && a.stacks[l] != []
    requires !L.SawNull(m.pc[t])
    ensures !L.SawNull(L.Instr(m, t).pc[t])
  {
    assert L.Chain(m.next, m.lifos[l].head, a.stacks[l]);
  }

  // ---------------------------------------------------------------------------------------------
  // Every step keeps the invariant

  function EventOf(s: State, act: Action): L.Event
    requires Wf(s)
  {
    if InnerOf(s, act).Do? then R.EventOf(s.rs, InnerOf(s, act).act) else L.Silent
  }

  /** What a call into a pool does to the calling thread. */
  lemma CallStarts(m: R.State, act: R.Action)
    requires R.Wf(m) && !act.Exec? && act.t < |m.pc| && m.pc[act.t].Out? && act.q < |m.made|
    requires match act
             case CallPush(t, q, r) => r != 0
             case CallPop(t, q) => true
             case CallMake(t, q, n, junk) => R.Fresh(m, n)
             case CallProduce(t, q, r, n) => r != 0 && R.Fresh(m, n)
             case Exec(t) => false
    ensures var m' := R.Step(m, act);
            && |m'.pc| == |m.pc| && |m'.lifo.pc| == |m.pc| && |m'.made| == |m.made|
            && m'.pc == m.pc[act.t := m'.pc[act.t]]
            && m'.lifo.pc == m.lifo.pc[act.t := m'.lifo.pc[act.t]]
            && !L.SawNull(m'.lifo.pc[act.t])
            && R.OutcomeOf(m, act) == R.Running
            && (match act
                case CallPush(t, q, r) => m'.pc[t] == R.PushTake(q, r)
                case CallPop(t, q) => m'.pc[t] == R.PopTake(q)
                case CallMake(t, q, n, junk) => m'.pc[t] == R.MakeGive(q, n)
                case CallProduce(t, q, r, n) => m'.pc[t] == R.ProdGive(q, n, r)
                case Exec(t) => true)
  {
    assert R.Coupled(m, act.t);
  }

  lemma InnerStarts(s: State, act: Action)
    requires Wf(s) && InnerOf(s, act).Do? && !InnerOf(s, act).act.Exec?
    ensures var i := InnerOf(s, act).act;
            && i.t == Actor(act) < |s.pc| && s.rs.pc[i.t].Out? && i.q < 2
            && (match i
                case CallPush(t, q, r) => r != 0
                case CallPop(t, q) => true
                case CallMake(t, q, n, junk) => R.Fresh(s.rs, n)
                case CallProduce(t, q, r, n) => r != 0 && R.Fresh(s.rs, n)
                case Exec(t) => false)
  {
    assert Coupled(s.pc[Actor(act)], s.rs.pc[Actor(act)]);
  }

  lemma InnerExecs(s: State, act: Action)
    requires Wf(s) && InnerOf(s, act).Do? && InnerOf(s, act).act.Exec?
    ensures act.Exec? && act.t < |s.pc| && Calling(s.pc[act.t]) && InnerOf(s, act).act == R.Exec(act.t)
  {
  }

  /** The acting thread's place in the manager and its place in the pool still match. */
  ghost predicate Matches(s: State, act: Action)
    requires Wf(s) && Actor(act) < |s.pc|
  {
    var t := Actor(act);
    var m := if InnerOf(s, act).Do? then R.Step(s.rs, InnerOf(s, act).act) else s.rs;
    && |m.pc| == |s.pc| && |m.made| == 2 && |m.lifo.pc| == |s.pc|
    && m.pc == s.rs.pc[t := m.pc[t]]
    && m.lifo.pc == s.rs.lifo.pc[t := m.lifo.pc[t]]
    && Coupled(NextPc(s, act), m.pc[t])
    && SubmitterPc(NextPc(s, act)) == SubmitterPc(s.pc[t])
  }

  lemma MatchesExec(s: State, act: Action)
    requires Wf(s) && InnerOf(s, act).Do? && InnerOf(s, act).act.Exec? && Actor(act) < |s.pc|
    requires L.PcOk(s.rs.lifo, Actor(act))
    ensures Matches(s, act)
  {
    hide R.Step, R.OutcomeOf, R.Instr;
    var t := Actor(act);
    assert Coupled(s.pc[t], s.rs.pc[t]);
    InnerExecs(s, act);
    StepIsInstr(s.rs, t);
    R.CallProgress(s.rs, t);
  }

  lemma MatchesCall(s: State, act: Action)
    requires Wf(s) && InnerOf(s, act).Do? && !InnerOf(s, act).act.Exec? && Actor(act) < |s.pc|
    ensures Matches(s, act)
  {
    hide R.Step, R.OutcomeOf;
    InnerStarts(s, act);
    CallStarts(s.rs, InnerOf(s, act).act);
  }

  lemma MatchesNone(s: State, act: Action)
    requires Wf(s) && InnerOf(s, act) == None && Actor(act) < |s.pc|
    ensures Matches(s, act)
  {
    hide R.Step, R.OutcomeOf;
    var t := Actor(act);
    assert Coupled(s.pc[t], s.rs.pc[t]);
    assert |s.rs.lifo.pc| == |s.pc|;
  }

  lemma StepIsInstr(m: R.State, t: nat)
    requires R.Wf(m) && t < |m.pc|
    ensures R.Step(m, R.Exec(t)) == R.Instr(m, t)
  {
  }

  lemma MatchesAll(s: State, act: Action)
    requires Wf(s) && Actor(act) < |s.pc| && L.PcOk(s.rs.lifo, Actor(act))
    ensures Matches(s, act)
  {
    hide Matches;
    if InnerOf(s, act) == None {
      MatchesNone(s, act);
    } else if InnerOf(s, act).act.Exec? {
      MatchesExec(s, act);
    } else {
      MatchesCall(s, act);
    }
  }

  lemma WfAfter(s: State, act: Action)
    requires Wf(s) && Actor(act) < |s.pc| && Matches(s, act) && R.Wf(Step(s, act).rs)
    ensures Wf(Step(s, act))
  {
    hide R.Step, R.OutcomeOf, R.Wf, Coupled, NextPc, InnerOf;
    var s', t := Step(s, act), Actor(act);
    forall u | 0 <= u < |s'.pc| ensures Coupled(s'.pc[u], s'.rs.pc[u]) && (SubmitterPc(s'.pc[u]) <==> u == 0) {
      assert u != t ==> s'.pc[u] == s.pc[u] && s'.rs.pc[u] == s.rs.pc[u];
    }
  }

  lemma RsInvFacts(m: R.State, a: L.Abs)
    requires R.Inv(m, a)
    ensures R.Wf(m) && |a.stacks| == 2 * |m.made|
    ensures forall t :: 0 <= t < |m.pc| ==> L.PcOk(m.lifo, t)
  {
    L.RelFacts(m.lifo, a);
  }

  /** The pools take a legal step. */
  lemma RsStep(s: State, a: L.Abs, act: Action)
    requires Wf(s) && R.Inv(s.rs, a) && Actor(act) < |s.pc|
    ensures L.Legal(a, EventOf(s, act)) && R.Inv(Step(s, act).rs, L.Apply(a, EventOf(s, act)))
  {
    hide R.Inv, R.Step, L.Rel;
    if InnerOf(s, act).Do? {
      R.StepKeepsInv(s.rs, a, InnerOf(s, act).act);
    }
  }

  lemma PushTakeStays(m: R.State, t: nat)
    requires R.Wf(m) && t < |m.pc| && L.PcOk(m.lifo, t)
    requires R.Instr(m, t).pc[t].PushTake?
    ensures m.pc[t].PushTake? && R.InPop(m.lifo.pc[t], R.Empty(m.pc[t].q))
    ensures R.Instr(m, t).lifo == L.Instr(m.lifo, t)
  {
    hide L.Instr;
    R.CallProgress(m, t);
    assert R.Coupled(m, t);
  }

  lemma ActorNotFailing(s: State, a: L.Abs, poolSize: nat, act: Action)
    requires Inv(s, a, poolSize) && Actor(act) < |s.pc| && Matches(s, act) && Wf(Step(s, act))
    requires Step(s, act).rs.pc[Actor(act)].PushTake?
    ensures !L.SawNull(Step(s, act).rs.lifo.pc[Actor(act)])
  {
    RsInvFacts(s.rs, a);
    var t := Actor(act);
    if InnerOf(s, act).Do? {
      if InnerOf(s, act).act.Exec? {
        InnerExecs(s, act);
        StepIsInstr(s.rs, t);
        PushTakeStays(s.rs, t);
        FreeHolder(s, a, poolSize, t);
        PopKeepsNonNull(s.rs.lifo, a, t, R.Empty(s.rs.pc[t].q));
      } else {
        InnerStarts(s, act);
        CallStarts(s.rs, InnerOf(s, act).act);
      }
    }
  }

  lemma NotFailingAfter(s: State, a: L.Abs, poolSize: nat, act: Action)
    requires Inv(s, a, poolSize) && Actor(act) < |s.pc| && Matches(s, act) && Wf(Step(s, act))
    ensures NoPushFailing(Step(s, act))
  {
    hide R.Inv, R.Step, InnerOf, NextPc, Elements, Counted, Coupled;
    var s' := Step(s, act);
    forall u | 0 <= u < |s'.pc| && s'.rs.pc[u].PushTake? ensures !L.SawNull(s'.rs.lifo.pc[u]) {
      if u == Actor(act) {
        ActorNotFailing(s, a, poolSize, act);
      } else {
        assert s'.rs.pc[u] == s.rs.pc[u] && s'.rs.lifo.pc[u] == s.rs.lifo.pc[u];
      }
    }
  }

  /** A push that is not on its way to failing does not fail. */
  lemma NotFailingSucceeds(s: State, act: Action)
    requires Wf(s) && NoPushFailing(s) && (Actor(act) < |s.pc| ==> L.PcOk(s.rs.lifo, Actor(act)))
    ensures OutcomeOf(s, act).PushReturned? ==> OutcomeOf(s, act).ok
  {
    if InnerOf(s, act).Do? {
      if InnerOf(s, act).act.Exec? {
        InnerExecs(s, act);
        assert R.Coupled(s.rs, act.t);
      } else {
        InnerStarts(s, act);
        CallStarts(s.rs, InnerOf(s, act).act);
      }
    }
  }

  predicate AtMostOne(a: nat, b: nat, c: nat, d: nat, e: nat) {
    && (a != 0 ==> b == c == d == e == 0)
    && (b != 0 ==> c == d == e == 0)
    && (c != 0 ==> d == e == 0)
    && (d != 0 ==> e == 0)
  }

  lemma OneOfFive(a: nat, b: nat, c: nat, d: nat, e: nat)
    requires AtMostOne(a, b, c, d, e)
    ensures One(a) + One(b) + One(c) + One(d) + One(e) == One(a + b + c + d + e)
  {
    if a != 0 {
    } else if b != 0 {
    } else if c != 0 {
    } else if d != 0 {
    } else {
    }
  }

  /** In one step at most one element moves: from one of the places on the right to one on the left. */
  lemma Moves(s: State, act: Action)
    requires Wf(s) && NoPushFailing(s) && Actor(act) < |s.pc| && L.PcOk(s.rs.lifo, Actor(act))
    ensures var o := OutcomeOf(s, act);
            && AtMostOne(Carried(NextPc(s, act)), Gain(s, act), R.Entered(o, PRODUCER), R.Entered(o, CONSUMER),
                         Leaked(s, act))
            && AtMostOne(Carried(s.pc[Actor(act)]), Loss(s, act), R.Left(o, PRODUCER), R.Left(o, CONSUMER),
                         Born(s, act))
            && Carried(NextPc(s, act)) + Gain(s, act) + R.Entered(o, PRODUCER) + R.Entered(o, CONSUMER) + Leaked(s, act)
               == Carried(s.pc[Actor(act)]) + Loss(s, act) + R.Left(o, PRODUCER) + R.Left(o, CONSUMER) + Born(s, act)
  {
    hide R.Step, R.Instr, R.OutcomeOf;
    var t := Actor(act);
    assert Coupled(s.pc[t], s.rs.pc[t]);
    NotFailingSucceeds(s, act);
    if InnerOf(s, act).Do? {
      if InnerOf(s, act).act.Exec? {
        InnerExecs(s, act);
        R.CallProgress(s.rs, t);
      } else {
        InnerStarts(s, act);
        CallStarts(s.rs, InnerOf(s, act).act);
      }
    }
  }

  lemma PoolHolders(s: State, a: L.Abs, act: Action, q: nat)
    requires Wf(s) && R.Inv(s.rs, a) && Actor(act) < |s.pc| && q < 2 && |a.stacks| == 4
    requires R.HolderCount(s.rs, a, q) == |s.rs.made[q]|
    ensures L.Legal(a, EventOf(s, act)) && |L.Apply(a, EventOf(s, act)).stacks| == 4
    ensures |Step(s, act).rs.made| == 2
    ensures R.HolderCount(Step(s, act).rs, L.Apply(a, EventOf(s, act)), q) == |Step(s, act).rs.made[q]|
    ensures |Step(s, act).rs.made[q]| ==
            |s.rs.made[q]| + (if InnerOf(s, act).Do? && R.Makes(s.rs, InnerOf(s, act).act, q) == 1 then 1 else 0)
  {
    hide R.Inv, R.Step, R.EventOf, R.HolderCount, NextPc, InnerOf, R.Makes;
    if InnerOf(s, act).Do? {
      R.StepHolders(s.rs, a, InnerOf(s, act).act, q);
      MakesAtMostOne(s.rs, InnerOf(s, act).act, q);
    }
  }

  lemma MakesAtMostOne(m: R.State, act: R.Action, q: nat)
    requires R.Wf(m)
    ensures R.Makes(m, act, q) <= 1
  {
  }

  lemma WhoMakes(s: State, act: Action, q: nat)
    requires Wf(s) && InnerOf(s, act).Do?
    ensures R.Makes(s.rs, InnerOf(s, act).act, q) ==
            if (act.Make? && q == CONSUMER) || (act.Produce? && q == PRODUCER) then 1 else 0
  {
    if InnerOf(s, act).act.Exec? {
      InnerExecs(s, act);
    } else {
      InnerStarts(s, act);
    }
  }

  lemma MadeAfter(s: State, a: L.Abs, act: Action)
    requires Wf(s) && R.Inv(s.rs, a) && Actor(act) < |s.pc| && |a.stacks| == 4
    requires R.HolderCount(s.rs, a, PRODUCER) == |s.rs.made[PRODUCER]|
    requires R.HolderCount(s.rs, a, CONSUMER) == |s.rs.made[CONSUMER]|
    ensures MadeGrows(s, act)
  {
    hide R.Inv, R.Step, R.EventOf, R.HolderCount, NextPc, InnerOf, R.Makes, R.Wf, Step, Coupled, SubmitterPc, EventOf;
    PoolHolders(s, a, act, PRODUCER);
    PoolHolders(s, a, act, CONSUMER);
    if InnerOf(s, act).Do? {
      WhoMakes(s, act, PRODUCER);
      WhoMakes(s, act, CONSUMER);
    }
  }

  /** What the pools have made is what the step says. */
  ghost predicate MadeGrows(s: State, act: Action)
    requires Wf(s)
  {
    && |Step(s, act).rs.made| == 2
    && |Step(s, act).rs.made[CONSUMER]|
       == |s.rs.made[CONSUMER]| + (if act.Make? && InnerOf(s, act).Do? then 1 else 0)
    && |Step(s, act).rs.made[PRODUCER]|
       == |s.rs.made[PRODUCER]| + (if act.Produce? && InnerOf(s, act).Do? then 1 else 0)
  }

  lemma CountedAfter(s: State, poolSize: nat, act: Action)
    requires Wf(s) && Counted(s, poolSize) && Actor(act) < |s.pc| && Wf(Step(s, act))
    requires MadeGrows(s, act) && s.lost <= s.produced
    ensures Counted(Step(s, act), poolSize)
  {
    hide Counted, Step, MadeGrows, Wf;
    if Actor(act) != 0 {
      CountedOther(s, poolSize, act);
    } else if act.Exec? {
      CountedExec(s, poolSize, act);
    } else {
      CountedCall(s, poolSize, act);
    }
  }

  lemma CountedOther(s: State, poolSize: nat, act: Action)
    requires Wf(s) && Counted(s, poolSize) && 0 < Actor(act) < |s.pc| && Wf(Step(s, act)) && MadeGrows(s, act)
    ensures Counted(Step(s, act), poolSize)
  {
    OthersMakeNothing(s, act);
    hide Step, InnerOf, R.Wf, Coupled;
  }

  lemma CountedExec(s: State, poolSize: nat, act: Action)
    requires Wf(s) && Counted(s, poolSize) && act == Exec(0) && Wf(Step(s, act)) && MadeGrows(s, act)
    ensures Counted(Step(s, act), poolSize)
  {
    ExecMakesNothing(s, act);
    assert SubmitterPc(s.pc[0]);
    hide Step, R.Wf, R.OutcomeOf, R.Fresh, Coupled;
  }

  lemma CountedCall(s: State, poolSize: nat, act: Action)
    requires Wf(s) && Counted(s, poolSize) && Actor(act) == 0 && !act.Exec? && Wf(Step(s, act)) && MadeGrows(s, act)
    requires s.lost <= s.produced
    ensures Counted(Step(s, act), poolSize)
  {
    hide Counted, Step, MadeGrows, Wf;
    if act.Produce? {
      CountedProduce(s, poolSize, act);
    } else {
      CountedRest(s, poolSize, act);
    }
  }

  lemma CountedRest(s: State, poolSize: nat, act: Action)
    requires Wf(s) && Counted(s, poolSize) && Actor(act) == 0 && !act.Exec? && Wf(Step(s, act)) && MadeGrows(s, act)
    requires !act.Produce?
    ensures Counted(Step(s, act), poolSize)
  {
    assert SubmitterPc(s.pc[0]);
    hide Step, R.Wf, OutcomeOf, R.Fresh, Coupled, After, SubmitterPc;
    CalledMakes(s, act);
  }

  lemma CountedProduce(s: State, poolSize: nat, act: Action)
    requires Wf(s) && Counted(s, poolSize) && act.Produce? && Wf(Step(s, act)) && MadeGrows(s, act)
    requires s.lost <= s.produced
    ensures Counted(Step(s, act), poolSize)
  {
    assert SubmitterPc(s.pc[0]);
    hide Step, R.Wf, OutcomeOf, R.Fresh, Coupled, After, SubmitterPc;
    BornAreCounted(s, act);
    CalledMakes(s, act);
    if Leaks(s, act) {
      LeakCallsNothing(s, act);
    }
  }

  lemma LeakCallsNothing(s: State, act: Action)
    requires Wf(s) && Leaks(s, act)
    ensures InnerOf(s, act) == None
  {
  }

  lemma BornAreCounted(s: State, act: Action)
    requires Wf(s) && Actor(act) < |s.pc| && s.lost <= s.produced
    ensures |Step(s, act).produced| == |s.produced| + (if Born(s, act) == 0 then 0 else 1)
    ensures |Step(s, act).lost| == |s.lost| + (if Leaked(s, act) == 0 then 0 else 1)
  {
    hide R.Step, R.Wf, NextPc;
  }

  lemma OthersMakeNothing(s: State, act: Action)
    requires Wf(s) && 0 < Actor(act) < |s.pc|
    ensures var s' := Step(s, act);
            && s'.pc[0] == s.pc[0] && s'.started == s.started && s'.psize == s.psize
            && s'.produced == s.produced && s'.lost == s.lost
            && !act.Make? && !act.Produce?
  {
    hide R.Step, R.Wf, NextPc, R.OutcomeOf;
    assert SubmitterPc(s.pc[Actor(act)]) <==> Actor(act) == 0;
  }

  lemma ExecMakesNothing(s: State, act: Action)
    requires Wf(s) && act == Exec(0)
    ensures var s' := Step(s, act);
            && s'.pc == s.pc[0 := NextPc(s, act)] && s'.started == s.started
            && s'.psize == (if s.pc[0].SDec? then s.psize - 1 else s.psize)
            && s'.produced == s.produced && s'.lost == s.lost
  {
    hide R.Step, R.Wf, NextPc, R.OutcomeOf;
  }

  lemma CalledMakes(s: State, act: Action)
    requires Wf(s) && Actor(act) == 0 && !act.Exec?
    ensures var s' := Step(s, act);
            && s'.pc == s.pc[0 := NextPc(s, act)] && s'.psize == s.psize
            && s'.started == (s.started || (act.Start? && s.pc[0] == SInit(0)))
            && (Born(s, act) == 0 ==> s'.produced == s.produced) && (Leaked(s, act) == 0 ==> s'.lost == s.lost)
            && (0 !in s.produced ==> 0 !in s'.produced)
  {
    hide R.Step, R.Wf, NextPc, R.OutcomeOf;
  }

  lemma Recount(h: multiset<nat>, h': multiset<nat>, b: multiset<nat>, b': multiset<nat>,
                p: multiset<nat>, p': multiset<nat>, c: multiset<nat>, c': multiset<nat>,
                x: multiset<nat>, x': multiset<nat>, g: multiset<nat>, l: multiset<nat>,
                ep: multiset<nat>, ec: multiset<nat>, lp: multiset<nat>, lc: multiset<nat>,
                d: multiset<nat>, n: multiset<nat>)
    requires h' + l == h + g && b' + x == b + x' && p' + lp == p + ep && c' + lc == c + ec
    requires x' + g + ep + ec + d == x + l + lp + lc + n
    ensures h' + b' + p' + c' + d == h + b + p + c + n
  {
    forall e: nat ensures (h' + b' + p' + c' + d)[e] == (h + b + p + c + n)[e] {
      assert (h' + l)[e] == (h + g)[e] && (b' + x)[e] == (b + x')[e];
      assert (p' + lp)[e] == (p + ep)[e] && (c' + lc)[e] == (c + ec)[e];
      assert (x' + g + ep + ec + d)[e] == (x + l + lp + lc + n)[e];
    }
  }

  lemma PoolStored(s: State, a: L.Abs, act: Action, q: nat)
    requires Wf(s) && R.Inv(s.rs, a) && q < 2 && |a.stacks| == 4 && Actor(act) < |s.pc|
    ensures L.Legal(a, EventOf(s, act)) && |L.Apply(a, EventOf(s, act)).stacks| == 4
    ensures R.Stored(Step(s, act).rs, L.Apply(a, EventOf(s, act)), q) + One(R.Left(OutcomeOf(s, act), q))
            == R.Stored(s.rs, a, q) + One(R.Entered(OutcomeOf(s, act), q))
  {
    hide R.Inv, R.Step, R.EventOf, R.Stored, NextPc, InnerOf, R.OutcomeOf;
    if InnerOf(s, act).Do? {
      R.StepStored(s.rs, a, InnerOf(s, act).act, q);
    }
  }

  lemma Balance(s: State, act: Action)
    requires Wf(s) && NoPushFailing(s) && Actor(act) < |s.pc| && L.PcOk(s.rs.lifo, Actor(act))
    ensures var o := OutcomeOf(s, act);
            One(Carried(NextPc(s, act))) + One(Gain(s, act)) + One(R.Entered(o, PRODUCER)) + One(R.Entered(o, CONSUMER))
            + One(Leaked(s, act))
            == One(Carried(s.pc[Actor(act)])) + One(Loss(s, act)) + One(R.Left(o, PRODUCER)) + One(R.Left(o, CONSUMER))
               + One(Born(s, act))
  {
    hide R.Step, NextPc, OutcomeOf, R.Entered, R.Left, Carried, Gain, Coupled, R.Wf, Loss, Born, Leaked, One, InnerOf;
    var o := OutcomeOf(s, act);
    Moves(s, act);
    SameBag(Carried(NextPc(s, act)), Gain(s, act), R.Entered(o, PRODUCER), R.Entered(o, CONSUMER), Leaked(s, act),
            Carried(s.pc[Actor(act)]), Loss(s, act), R.Left(o, PRODUCER), R.Left(o, CONSUMER), Born(s, act));
  }

  lemma SameBag(a: nat, b: nat, c: nat, d: nat, e: nat, a': nat, b': nat, c': nat, d': nat, e': nat)
    requires AtMostOne(a, b, c, d, e) && AtMostOne(a', b', c', d', e')
    requires a + b + c + d + e == a' + b' + c' + d' + e'
    ensures One(a) + One(b) + One(c) + One(d) + One(e) == One(a') + One(b') + One(c') + One(d') + One(e')
  {
    hide One, AtMostOne;
    OneOfFive(a, b, c, d, e);
    OneOfFive(a', b', c', d', e');
  }

  /** The elements in use, with the one dropped in the step, grow by what the allocator made in it. */
  lemma StepElements(s: State, a: L.Abs, act: Action)
    requires Wf(s) && R.Inv(s.rs, a) && |a.stacks| == 4 && NoPushFailing(s)
    requires Actor(act) < |s.pc| && L.PcOk(s.rs.lifo, Actor(act))
    ensures L.Legal(a, EventOf(s, act)) && |L.Apply(a, EventOf(s, act)).stacks| == 4
    ensures Elements(Step(s, act), L.Apply(a, EventOf(s, act))) + One(Leaked(s, act))
            == Elements(s, a) + One(Born(s, act))
  {
    hide R.Inv, R.Step, R.EventOf, R.Stored, NextPc, R.OutcomeOf, R.Entered, R.Left, Carried, Gain, Coupled, R.Wf,
      InnerOf, Loss, Born, Leaked, L.Apply, L.Legal;
    var t, o := Actor(act), OutcomeOf(s, act);
    PoolStored(s, a, act, PRODUCER);
    PoolStored(s, a, act, CONSUMER);
    BagUpdate(s.pc, t, NextPc(s, act), CarriedBag());
    Balance(s, act);
    var s', a' := Step(s, act), L.Apply(a, EventOf(s, act));
    assert s'.hand + One(Loss(s, act)) == s.hand + One(Gain(s, act)) by {
      LossInHand(s, act);
    }
    Recount(s.hand, s'.hand, Bag(s.pc, CarriedBag()), Bag(s'.pc, CarriedBag()),
            R.Stored(s.rs, a, PRODUCER), R.Stored(s'.rs, a', PRODUCER),
            R.Stored(s.rs, a, CONSUMER), R.Stored(s'.rs, a', CONSUMER),
            One(Carried(s.pc[t])), One(Carried(NextPc(s, act))), One(Gain(s, act)), One(Loss(s, act)),
            One(R.Entered(o, PRODUCER)), One(R.Entered(o, CONSUMER)),
            One(R.Left(o, PRODUCER)), One(R.Left(o, CONSUMER)), One(Leaked(s, act)), One(Born(s, act)));
  }

  lemma LossInHand(s: State, act: Action)
    requires Wf(s)
    ensures One(Loss(s, act)) <= s.hand
  {
  }

  /** Whatever action comes next, the pools take a legal step and the invariant stays. */
  lemma StepKeepsInv(s: State, a: L.Abs, poolSize: nat, act: Action)
    requires Inv(s, a, poolSize)
    ensures L.Legal(a, EventOf(s, act))
    ensures Inv(Step(s, act), L.Apply(a, EventOf(s, act)), poolSize)
  {
    hide R.Inv, R.Step, R.EventOf, R.HolderCount, NextPc, InnerOf, R.Wf, Elements, NoPushFailing, Counted,
      Matches, MadeGrows, R.OutcomeOf, Coupled, L.Apply, L.Legal;
    RsInvFacts(s.rs, a);
    if Actor(act) >= |s.pc| {
      NobodyActs(s, act);
    } else {
      var s' := Step(s, act);
      MatchesAll(s, act);
      RsStep(s, a, act);
      RsInvFacts(s'.rs, L.Apply(a, EventOf(s, act)));
      WfAfter(s, act);
      PoolHolders(s, a, act, PRODUCER);
      PoolHolders(s, a, act, CONSUMER);
      MadeAfter(s, a, act);
      CountedAfter(s, poolSize, act);
      NotFailingAfter(s, a, poolSize, act);
      StepElements(s, a, act);
      BornIsNew(s, act);
      AllElements(Elements(s, a), Elements(s', L.Apply(a, EventOf(s, act))), multiset(s.lost), One(Leaked(s, act)),
                  multiset(s.produced), One(Born(s, act)));
    }
  }

  lemma AllElements(e: multiset<nat>, e': multiset<nat>, l: multiset<nat>, d: multiset<nat>,
                    p: multiset<nat>, n: multiset<nat>)
    requires e' + d == e + n && e + l == p
    ensures e' + (l + d) == p + n
  {
    forall x: nat ensures (e' + (l + d))[x] == (p + n)[x] {
      assert (e' + d)[x] == (e + n)[x] && (e + l)[x] == p[x];
    }
  }

  lemma NobodyActs(s: State, act: Action)
    requires Wf(s) && Actor(act) >= |s.pc|
    ensures Step(s, act) == s
    ensures forall a: L.Abs :: L.Legal(a, EventOf(s, act)) && L.Apply(a, EventOf(s, act)) == a
  {
  }

  lemma AddNew(p: set<nat>, r: nat)
    requires r == 0 || r !in p
    ensures multiset(p + if r == 0 then {} else {r}) == multiset(p) + One(r)
  {
  }

  lemma BornIsNew(s: State, act: Action)
    requires Wf(s) && Actor(act) < |s.pc|
    requires s.lost <= s.produced
    ensures multiset(Step(s, act).produced) == multiset(s.produced) + One(Born(s, act))
    ensures multiset(Step(s, act).lost) == multiset(s.lost) + One(Leaked(s, act))
    ensures Step(s, act).lost <= Step(s, act).produced
  {
    hide R.Step, R.Wf, NextPc, One, Coupled;
    AddNew(s.produced, Born(s, act));
    AddNew(s.lost, Leaked(s, act));
  }

  lemma InitPools(workers: nat, a: L.Abs, q: nat)
    requires a == L.Abs(seq(4, _ => []), seq(workers + 1, _ => {})) && q < 2
    ensures R.HolderCount(R.Init(2, workers + 1), a, q) == 0 && R.Stored(R.Init(2, workers + 1), a, q) == multiset{}
  {
    var m := R.Init(2, workers + 1);
    SumZero(m.pc, R.HoldingIn(q));
    BagEmpty(m.pc, R.LeavingIn(m.p, q));
  }

  lemma InitWf(workers: nat, poolSize: nat)
    requires R.Wf(Init(workers, poolSize).rs)
    ensures Wf(Init(workers, poolSize)) && NoPushFailing(Init(workers, poolSize))
    ensures Counted(Init(workers, poolSize), poolSize)
    ensures Bag(Init(workers, poolSize).pc, CarriedBag()) == multiset{}
  {
    var s := Init(workers, poolSize);
    BagEmpty(s.pc, CarriedBag());
    assert s.rs.made == [{}, {}];
    hide R.Wf;
  }

  lemma InitInv(workers: nat, poolSize: nat)
    ensures Inv(Init(workers, poolSize), L.Abs(seq(4, _ => []), seq(workers + 1, _ => {})), poolSize)
  {
    hide R.Inv, R.Wf, R.HolderCount, R.Stored, Wf, Counted, NoPushFailing;
    var s, a := Init(workers, poolSize), L.Abs(seq(4, _ => []), seq(workers + 1, _ => {}));
    R.InitInv(2, workers + 1);
    RsInvFacts(s.rs, a);
    InitWf(workers, poolSize);
    InitPools(workers, a, PRODUCER);
    InitPools(workers, a, CONSUMER);
  }

  // ---------------------------------------------------------------------------------------------
  // Whole runs

  ghost function Final(s: State, a: L.Abs, poolSize: nat, acts: seq<Action>): (f: (State, L.Abs))
    requires Inv(s, a, poolSize)
    ensures Inv(f.0, f.1, poolSize)
    decreases |acts|
  {
    hide R.Inv, R.Wf, Elements, Counted, NoPushFailing;
    if acts == [] then (s, a) else
      StepKeepsInv(s, a, poolSize, acts[0]);
      Final(Step(s, acts[0]), L.Apply(a, EventOf(s, acts[0])), poolSize, acts[1..])
  }

  /** Some step of the run drops an element. */
  ghost predicate SomeLeak(s: State, a: L.Abs, poolSize: nat, acts: seq<Action>)
    requires Inv(s, a, poolSize)
    decreases |acts|
  {
    acts != [] && (
      Leaks(s, acts[0])
      || (StepKeepsInv(s, a, poolSize, acts[0]);
          SomeLeak(Step(s, acts[0]), L.Apply(a, EventOf(s, acts[0])), poolSize, acts[1..])))
  }

  lemma {:induction false} LostByLeaks(s: State, a: L.Abs, poolSize: nat, acts: seq<Action>)
    requires Inv(s, a, poolSize)
    ensures s.lost <= Final(s, a, poolSize, acts).0.lost
    ensures Final(s, a, poolSize, acts).0.lost == s.lost <==> !SomeLeak(s, a, poolSize, acts)
    decreases |acts|
  {
    hide R.Inv, R.Wf, Elements, NoPushFailing;
    if acts != [] {
      StepKeepsInv(s, a, poolSize, acts[0]);
      LostOne(s, acts[0]);
      LostByLeaks(Step(s, acts[0]), L.Apply(a, EventOf(s, acts[0])), poolSize, acts[1..]);
    }
  }

  lemma LostOne(s: State, act: Action)
    requires Wf(s) && s.lost <= s.produced
    ensures Step(s, act).lost == if Leaks(s, act) then s.lost + {act.r} else s.lost
    ensures Leaks(s, act) ==> act.r !in s.lost
  {
  }

  /** No push on either pool ever returns false. */
  lemma PushSucceeds(s: State, a: L.Abs, poolSize: nat, act: Action)
    requires Inv(s, a, poolSize)
    ensures OutcomeOf(s, act).PushReturned? ==> OutcomeOf(s, act).ok
  {
    RsInvFacts(s.rs, a);
    NotFailingSucceeds(s, act);
  }

  /** From init on, with any number of workers and under any schedule: every element the allocator made is in
      exactly one place in use, or was dropped; none is dropped unless new fails just after the allocator
      returned it; at most poolSize elements are made, and whatever step comes next, a push that returns has
      succeeded. */
  lemma RunKeepsElements(workers: nat, poolSize: nat, acts: seq<Action>, next: Action)
    ensures var s0, a0 := Init(workers, poolSize), L.Abs(seq(4, _ => []), seq(workers + 1, _ => {}));
            && Inv(s0, a0, poolSize)
            && (var (s, a) := Final(s0, a0, poolSize, acts);
                && |a.stacks| == 4
                && Elements(s, a) + multiset(s.lost) == multiset(s.produced)
                && (Elements(s, a) == multiset(s.produced) <==> !SomeLeak(s0, a0, poolSize, acts))
                && |s.produced| <= poolSize
                && Wf(s)
                && (OutcomeOf(s, next).PushReturned? ==> OutcomeOf(s, next).ok))
  {
    hide R.Inv, R.Wf, Elements, R.OutcomeOf, InnerOf;
    InitInv(workers, poolSize);
    var s0, a0 := Init(workers, poolSize), L.Abs(seq(4, _ => []), seq(workers + 1, _ => {}));
    var (s, a) := Final(s0, a0, poolSize, acts);
    PushSucceeds(s, a, poolSize, next);
    LostByLeaks(s0, a0, poolSize, acts);
    NothingLost(Elements(s, a), s.lost, multiset(s.produced));
  }

  lemma NothingLost(e: multiset<nat>, lost: set<nat>, all: multiset<nat>)
    requires e + multiset(lost) == all
    ensures e == all <==> lost == {}
  {
    if lost != {} {
      var r :| r in lost;
      assert (e + multiset(lost))[r] == e[r] + 1;
    }
  }

  // ---------------------------------------------------------------------------------------------
  // A run that loses an element

  /** The step from s is to s'. */
  ghost predicate Goes(s: State, act: Action, s': State) {
    Wf(s) ==> Step(s, act) == s'
  }

  lemma InvWf(s: State, a: L.Abs, poolSize: nat)
    requires Inv(s, a, poolSize)
    ensures Wf(s)
  {
  }

  /** Following a run through its states. */
  lemma {:induction false} PathRuns(path: seq<State>, a: L.Abs, poolSize: nat, acts: seq<Action>)
    requires |path| == |acts| + 1 && Inv(path[0], a, poolSize)
    requires forall i :: 0 <= i < |acts| ==> Goes(path[i], acts[i], path[i + 1])
    ensures Final(path[0], a, poolSize, acts).0 == path[|acts|]
    decreases |acts|
  {
    hide Inv, Step, Wf;
    if acts != [] {
      InvWf(path[0], a, poolSize);
      StepKeepsInv(path[0], a, poolSize, acts[0]);
      assert Goes(path[0], acts[0], path[1]);
      PathRuns(path[1..], L.Apply(a, EventOf(path[0], acts[0])), poolSize, acts[1..]);
    }
  }

  /** No workers, one round of create: holder 1 is on its way onto the consumer pool's _empty. */
  function Making(lp: L.Pc): State {
    State(R.State(L.State([L.Cell(0, 0), L.Cell(0, 0), L.Cell(0, 0), L.Cell(0, 0)], map[1 := 0], [lp], [{1}]),
                  map[1 := 0], [R.MakeGive(CONSUMER, 1)], [{}, {1}]),
          [SMake(0)], false, 1, multiset{}, {}, {})
  }

  /** Holder 1 is there; the submitter is at pc, and `gone` is what it got and lost. */
  function Made(lp: L.Pc, rp: R.Pc, pc: Pc, gone: set<nat>): State {
    State(R.State(L.State([L.Cell(0, 0), L.Cell(0, 0), L.Cell(0, 0), L.Cell(1, 1)], map[1 := 0], [lp], [{}]),
                  map[1 := 0], [rp], [{}, {1}]),
          [pc], !pc.SInit?, 1, multiset{}, gone, gone)
  }

  lemma LeakMake()
    ensures Goes(Init(0, 1), Make(1, 0),
                 Making(L.PushLoadHead(3, 1)))
  {
    var s := Init(0, 1);
    assert s.rs.lifo.lifos == [L.Cell(0, 0), L.Cell(0, 0), L.Cell(0, 0), L.Cell(0, 0)];
    assert s.rs.made == [{}, {}] && s.pc == [SInit(1)] && s.rs.pc == [R.Out] && s.rs.lifo.pc == [L.Idle];
    assert s.rs.lifo.held == [{}];
    var none: set<nat> := {};
    assert none + {1} == {1};
  }

  lemma LeakLoadHead()
    ensures Goes(Making(L.PushLoadHead(3, 1)), Exec(0),
                 Making(L.PushLoadSync(3, 1, 0)))
  {
  }

  lemma LeakLoadSync()
    ensures Goes(Making(L.PushLoadSync(3, 1, 0)), Exec(0),
                 Making(L.PushStoreNext(3, 1, 0, 0)))
  {
  }

  lemma LeakStoreNext()
    ensures Goes(Making(L.PushStoreNext(3, 1, 0, 0)), Exec(0),
                 Making(L.PushCas(3, 1, 0, 0)))
  {
  }

  lemma LeakCas()
    ensures Goes(Making(L.PushCas(3, 1, 0, 0)), Exec(0),
                 Made(L.Idle, R.Out, SInit(0), {}))
  {
    var one: set<nat> := {1};
    assert one - {1} == {};
  }

  lemma LeakStart()
    ensures Goes(Made(L.Idle, R.Out, SInit(0), {}), Start,
                 Made(L.Idle, R.Out, SIdle, {}))
  {
  }

  lemma LeakPop()
    ensures Goes(Made(L.Idle, R.Out, SIdle, {}), SubPop,
                 Made(L.PopLoadHead(0), R.PopTake(0), SPop, {}))
  {
  }

  lemma LeakPopHead()
    ensures Goes(Made(L.PopLoadHead(0), R.PopTake(0), SPop, {}), Exec(0),
                 Made(L.PopLoadSync(0, 0), R.PopTake(0), SPop, {}))
  {
  }

  lemma LeakPopSync()
    ensures Goes(Made(L.PopLoadSync(0, 0), R.PopTake(0), SPop, {}), Exec(0),
                 Made(L.PopTest(0, 0, 0), R.PopTake(0), SPop, {}))
  {
  }

  lemma LeakPopTest()
    ensures Goes(Made(L.PopTest(0, 0, 0), R.PopTake(0), SPop, {}), Exec(0),
                 Made(L.Idle, R.Out, SCheck, {}))
  {
  }

  lemma LeakCheck()
    ensures Goes(Made(L.Idle, R.Out, SCheck, {}), Exec(0),
                 Made(L.PopLoadHead(0), R.PopTake(0), SForcePop, {}))
  {
  }

  lemma LeakForceHead()
    ensures Goes(Made(L.PopLoadHead(0), R.PopTake(0), SForcePop, {}), Exec(0),
                 Made(L.PopLoadSync(0, 0), R.PopTake(0), SForcePop, {}))
  {
  }

  lemma LeakForceSync()
    ensures Goes(Made(L.PopLoadSync(0, 0), R.PopTake(0), SForcePop, {}), Exec(0),
                 Made(L.PopTest(0, 0, 0), R.PopTake(0), SForcePop, {}))
  {
  }

  lemma LeakForceTest()
    ensures Goes(Made(L.PopTest(0, 0, 0), R.PopTake(0), SForcePop, {}), Exec(0),
                 Made(L.Idle, R.Out, SForceProduce, {}))
  {
  }

  lemma LeakProduce()
    ensures Goes(Made(L.Idle, R.Out, SForceProduce, {}), Produce(7, 0),
                 Made(L.Idle, R.Out, SDec(0), {7}))
  {
  }

  const LEAK: seq<Action> :=
    [Make(1, 0), Exec(0), Exec(0), Exec(0), Exec(0), Start, SubPop,
     Exec(0), Exec(0), Exec(0), Exec(0), Exec(0), Exec(0), Exec(0), Produce(7, 0)]

  function LeakPath(): seq<State> {
    [Init(0, 1), Making(L.PushLoadHead(3, 1)), Making(L.PushLoadSync(3, 1, 0)),
     Making(L.PushStoreNext(3, 1, 0, 0)), Making(L.PushCas(3, 1, 0, 0)),
     Made(L.Idle, R.Out, SInit(0), {}), Made(L.Idle, R.Out, SIdle, {}),
     Made(L.PopLoadHead(0), R.PopTake(0), SPop, {}), Made(L.PopLoadSync(0, 0), R.PopTake(0), SPop, {}),
     Made(L.PopTest(0, 0, 0), R.PopTake(0), SPop, {}), Made(L.Idle, R.Out, SCheck, {}),
     Made(L.PopLoadHead(0), R.PopTake(0), SForcePop, {}), Made(L.PopLoadSync(0, 0), R.PopTake(0), SForcePop, {}),
     Made(L.PopTest(0, 0, 0), R.PopTake(0), SForcePop, {}), Made(L.Idle, R.Out, SForceProduce, {}),
     Made(L.Idle, R.Out, SDec(0), {7})]
  }

  lemma LeakSteps()
    ensures forall i :: 0 <= i < |LEAK| ==> Goes(LeakPath()[i], LEAK[i], LeakPath()[i + 1])
  {
    hide Goes, Making, Made, Init;
    LeakMake();
    LeakLoadHead();
    LeakLoadSync();
    LeakStoreNext();
    LeakCas();
    LeakStart();
    LeakPop();
    LeakPopHead();
    LeakPopSync();
    LeakPopTest();
    LeakCheck();
    LeakForceHead();
    LeakForceSync();
    LeakForceTest();
    LeakProduce();
  }

  /** One round of create, one pop of the empty pool, and no memory for the holder of the element that the
      allocator returned: the element is lost. */
  lemma LeakRun()
    ensures var s0, a0 := Init(0, 1), L.Abs(seq(4, _ => []), seq(1, _ => {}));
            && Inv(s0, a0, 1) && SomeLeak(s0, a0, 1, LEAK)
            && (var s := Final(s0, a0, 1, LEAK).0; s.produced == s.lost == {7})
  {
    var s0, a0 := Init(0, 1), L.Abs(seq(4, _ => []), seq(1, _ => {}));
    InitInv(0, 1);
    LeakSteps();
    hide Inv, Step, Wf, SomeLeak, Goes;
    PathRuns(LeakPath(), a0, 1, LEAK);
    LostByLeaks(s0, a0, 1, LEAK);
  }
}
