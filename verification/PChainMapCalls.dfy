/** What callers of container/pchain_map.h see: the arguments and answers of every call over a run, and what a
    find answers after an insert. */
module PChainMapCalls {
  import opened PChainMap
  import opened Sums
  import A = ArrayLock

  datatype Op = Insert(k: nat, v: nat) | Find(k: nat)

  datatype Answer = Stored | Null | Value(v: nat)

  // ---------------------------------------------------------------------------------------------
  // Calls, effects and answers of one thread

  /** The call that the action makes, read from the schedule: accepted iff the thread is in no operation. */
  function CallBy(s: State, a: Action, t: nat): seq<Op>
    requires t < |s.pc|
  {
    if a.Exec? || a.t != t || !s.pc[t].Out? then []
    else if a.CallInsert? then [Insert(a.k, a.v)] else [Find(a.k)]
  }

  /** The calls of thread t over a run, in order. */
  ghost function CallLog(s: State, m: map<nat, nat>, acts: seq<Action>, t: nat): seq<Op>
    requires Rel(s, m) && t < |s.pc|
    decreases |acts|
  {
    hide Rel;
    if acts == [] then [] else
      WfOf(s, m);
      Simulation(s, m, acts[0]);
      StepCounts(s, acts[0], t);
      CallBy(s, acts[0], t) + CallLog(Step(s, acts[0]), Apply(m, EventOf(s, acts[0])), acts[1..], t)
  }

  function OpOf(e: Event, t: nat): seq<Op> {
    match e
    case Silent => []
    case Inserted(u, k, v) => if u == t then [Insert(k, v)] else []
    case Found(u, k, v) => if u == t then [Find(k)] else []
    case Missed(u, k) => if u == t then [Find(k)] else []
  }

  function AnswerOf(e: Event, t: nat): seq<Answer> {
    match e
    case Silent => []
    case Inserted(u, k, v) => if u == t then [Stored] else []
    case Found(u, k, v) => if u == t then [Value(v)] else []
    case Missed(u, k) => if u == t then [Null] else []
  }

  /** The operations of thread t that the events perform, in order. */
  function Ops(es: seq<Event>, t: nat): seq<Op> {
    if es == [] then [] else OpOf(es[0], t) + Ops(es[1..], t)
  }

  function Answers(es: seq<Event>, t: nat): seq<Answer> {
    if es == [] then [] else AnswerOf(es[0], t) + Answers(es[1..], t)
  }

  /** The operation thread t is inside that has not taken effect yet. */
  function Waiting(pc: Pc): seq<Op> {
    match pc
    case Out => []
    case InsUnlock(_) => []
    case FindUnlock(_, _) => []
    case FindLock(k) => [Find(k)]
    case FindTest(k) => [Find(k)]
    case FindKey(k, _) => [Find(k)]
    case FindCopy(k, _) => [Find(k)]
    case _ => [Insert(pc.k, pc.v)]
  }

  /** The answer thread t is about to return, once its operation has taken effect. */
  function Leaving(pc: Pc): seq<Answer> {
    match pc
    case InsUnlock(_) => [Stored]
    case FindUnlock(_, res) => [if res.None? then Null else Value(res.value)]
    case _ => []
  }

  /** What the step returns to the caller in thread t: the result that find has copied, or insert's true. */
  ghost function ReturnBy(s: State, a: Action, t: nat): seq<Answer>
    requires Wf(s) && t < |s.pc|
  {
    if a == Exec(t) && !s.pc[t].Out? && t < |Step(s, a).pc| && Step(s, a).pc[t].Out? then
      match s.pc[t]
      case FindUnlock(_, res) => [if res.None? then Null else Value(res.value)]
      case _ => [Stored]
    else []
  }

  ghost function ReturnLog(s: State, m: map<nat, nat>, acts: seq<Action>, t: nat): seq<Answer>
    requires Rel(s, m) && t < |s.pc|
    decreases |acts|
  {
    hide Rel;
    if acts == [] then [] else
      WfOf(s, m);
      Simulation(s, m, acts[0]);
      StepCounts(s, acts[0], t);
      ReturnBy(s, acts[0], t) + ReturnLog(Step(s, acts[0]), Apply(m, EventOf(s, acts[0])), acts[1..], t)
  }

  /** The ledger of one step: what takes effect was waiting or has just been called; what is returned was answered. */
  ghost predicate Kept(s: State, a: Action, t: nat)
    requires Wf(s) && t < |s.pc|
  {
    && |Step(s, a).pc| == |s.pc|
    && OpOf(EventOf(s, a), t) + Waiting(Step(s, a).pc[t]) == Waiting(s.pc[t]) + CallBy(s, a, t)
    && ReturnBy(s, a, t) + Leaving(Step(s, a).pc[t]) == Leaving(s.pc[t]) + AnswerOf(EventOf(s, a), t)
  }

  lemma CallKept(s: State, a: Action, t: nat)
    requires Wf(s) && t < |s.pc| && !a.Exec?
    ensures Kept(s, a, t)
  {
    hide A.Step;
  }

  lemma OtherKept(s: State, a: Action, t: nat)
    requires Wf(s) && t < |s.pc| && a.t != t
    ensures Kept(s, a, t)
  {
    hide A.Step, Walk, Touch, Waiting, Leaving;
    OthersStay(s, a);
    EventActor(s, a);
  }

  lemma WalkKept(s: State, t: nat)
    requires Wf(s) && t < |s.pc| && Critical(s.pc[t])
    ensures Kept(s, Exec(t), t)
  {
    hide A.Step, Touch, A.Wf;
    var c, pc := s.chains[Bucket(s, s.pc[t].k)], s.pc[t];
    WalkOps(c, pc);
    hide Walk, Waiting;
    assert Instr(s, t).pc[t] == Walk(c, pc);
  }

  lemma WalkOps(c: seq<Entry>, pc: Pc)
    requires Critical(pc)
    ensures Leaving(pc) == [] && |Waiting(pc)| == 1 && !Walk(c, pc).Out?
    ensures Walk(c, pc).InsUnlock? ==> Waiting(pc) == [Insert(pc.k, pc.v)] && Waiting(Walk(c, pc)) == []
    ensures Walk(c, pc).FindUnlock? ==> Waiting(pc) == [Find(pc.k)] && Waiting(Walk(c, pc)) == []
    ensures !Walk(c, pc).InsUnlock? && !Walk(c, pc).FindUnlock? ==>
              Waiting(Walk(c, pc)) == Waiting(pc) && Leaving(Walk(c, pc)) == []
  {
  }

  lemma LockKept(s: State, t: nat)
    requires Wf(s) && t < |s.pc| && !Critical(s.pc[t])
    ensures Kept(s, Exec(t), t)
  {
    hide A.Step, Walk, Touch, A.Wf;
  }

  lemma StepOps(s: State, a: Action, t: nat)
    requires Wf(s) && t < |s.pc|
    ensures Kept(s, a, t)
  {
    hide Kept, A.Wf;
    if !a.Exec? {
      CallKept(s, a, t);
    } else if a.t != t {
      OtherKept(s, a, t);
    } else if Critical(s.pc[t]) {
      WalkKept(s, t);
    } else {
      LockKept(s, t);
    }
  }

  /** A thread is outside, waits for its operation to take effect, or is on its way back with the answer. */
  lemma Places(pc: Pc)
    ensures |Waiting(pc)| + |Leaving(pc)| == if pc.Out? then 0 else 1
  {
  }

  /** Over any run: the operations of thread t that took effect, with the one still waiting, are its calls in the
      order it made them, with their arguments; the answers it got, with the one on its way, are those of its
      events in the same order. */
  lemma {:induction false} CallsInOrder(s: State, m: map<nat, nat>, acts: seq<Action>, t: nat)
    requires Rel(s, m) && t < |s.pc|
    ensures |Final(s, m, acts).pc| == |s.pc|
    ensures Ops(Events(s, m, acts), t) + Waiting(Final(s, m, acts).pc[t]) == Waiting(s.pc[t]) + CallLog(s, m, acts, t)
    ensures ReturnLog(s, m, acts, t) + Leaving(Final(s, m, acts).pc[t])
            == Leaving(s.pc[t]) + Answers(Events(s, m, acts), t)
    decreases |acts|
  {
    hide Rel, Step, EventOf, OpOf, AnswerOf, CallBy, ReturnBy, Waiting, Leaving;
    if acts != [] {
      WfOf(s, m);
      Simulation(s, m, acts[0]);
      StepOps(s, acts[0], t);
      var s1, m1 := Step(s, acts[0]), Apply(m, EventOf(s, acts[0]));
      CallsInOrder(s1, m1, acts[1..], t);
      var es, es1, f := Events(s, m, acts), Events(s1, m1, acts[1..]), Final(s1, m1, acts[1..]);
      assert es[0] == EventOf(s, acts[0]) && es[1..] == es1;
      Chop(OpOf(es[0], t), Waiting(s1.pc[t]), Waiting(s.pc[t]), CallBy(s, acts[0], t),
           Ops(es1, t), Waiting(f.pc[t]), CallLog(s1, m1, acts[1..], t));
      Chop(ReturnBy(s, acts[0], t), Leaving(s1.pc[t]), Leaving(s.pc[t]), AnswerOf(es[0], t),
           ReturnLog(s1, m1, acts[1..], t), Leaving(f.pc[t]), Answers(es1, t));
    }
  }

  lemma {:induction false} AnswersOfOps(es: seq<Event>, t: nat)
    ensures |Answers(es, t)| == |Ops(es, t)|
  {
    if es != [] {
      AnswersOfOps(es[1..], t);
    }
  }

  /** From empty chains: the k-th operation of thread t that takes effect is its k-th call, with the arguments of
      that call, and its k-th answer is the one that operation has on the map; at most the last call is still
      without effect, and at most one without answer. */
  lemma CallsFromInit(buckets: nat, threads: nat, acts: seq<Action>, t: nat)
    requires 0 < buckets && t < threads
    ensures var s0 := Init(buckets, threads);
            && Rel(s0, map[])
            && (var es, calls := Events(s0, map[], acts), CallLog(s0, map[], acts, t);
                var ops, answers := Ops(es, t), ReturnLog(s0, map[], acts, t);
                && |answers| <= |ops| <= |calls| <= |answers| + 1 && |ops| == |Answers(es, t)|
                && (forall k :: 0 <= k < |ops| ==> ops[k] == calls[k])
                && (forall k :: 0 <= k < |answers| ==> answers[k] == Answers(es, t)[k])
                && t < |Final(s0, map[], acts).pc|
                && (Final(s0, map[], acts).pc[t].Out? <==> |answers| == |calls|)
                && (|ops| < |calls| ==> Waiting(Final(s0, map[], acts).pc[t]) == [calls[|ops|]]))
  {
    var s0 := Init(buckets, threads);
    InitRel(buckets, threads);
    assert Waiting(s0.pc[t]) == [] && Leaving(s0.pc[t]) == [];
    hide Rel, Init;
    CallsInOrder(s0, map[], acts, t);
    AnswersOfOps(Events(s0, map[], acts), t);
    var f := Final(s0, map[], acts).pc[t];
    Places(f);
    Prefix(Ops(Events(s0, map[], acts), t), Waiting(f), CallLog(s0, map[], acts, t));
    Prefix(ReturnLog(s0, map[], acts, t), Leaving(f), Answers(Events(s0, map[], acts), t));
    hide Waiting, Leaving;
  }

  lemma Prefix<X>(a: seq<X>, w: seq<X>, b: seq<X>)
    requires a + w == b && |w| <= 1
    ensures |b| == |a| + |w| && (forall k :: 0 <= k < |a| ==> a[k] == b[k]) && (|w| == 1 ==> w == [b[|a|]])
  {
  }

  // ---------------------------------------------------------------------------------------------
  // A find answers the last insert of its key

  /** The value of the last insert of k among the events, `none` if there is none. */
  function Written(es: seq<Event>, k: nat, none: Option): Option {
    if es == [] then none
    else Written(es[1..], k, if es[0].Inserted? && es[0].k == k then Some(es[0].v) else none)
  }

  function Lookup(m: map<nat, nat>, k: nat): Option {
    if k in m then Some(m[k]) else None
  }

  predicate IsFind(e: Event, k: nat) {
    (e.Found? || e.Missed?) && e.k == k
  }

  function ResultOf(e: Event): Option
    requires e.Found? || e.Missed?
  {
    if e.Found? then Some(e.v) else None
  }

  lemma {:induction false} LegalAnswers(m: map<nat, nat>, es: seq<Event>, k: nat, i: nat)
    requires LegalRun(m, es) && i < |es| && IsFind(es[i], k)
    ensures ResultOf(es[i]) == Written(es[..i], k, Lookup(m, k))
    decreases i
  {
    if i > 0 {
      var m1 := Apply(m, es[0]);
      LegalAnswers(m1, es[1..], k, i - 1);
      assert es[..i][1..] == es[1..][..i - 1] && es[..i][0] == es[0];
    }
  }

  lemma {:induction false} ReplayWritten(m: map<nat, nat>, es: seq<Event>, k: nat)
    ensures Lookup(Replay(m, es), k) == Written(es, k, Lookup(m, k))
    decreases |es|
  {
    if es != [] {
      ReplayWritten(Apply(m, es[0]), es[1..], k);
    }
  }

  /** From empty chains, over any interleaving, every find of k answers the value of the last insert of k that took
      effect before it, null if there was none. */
  lemma FindAnswersLastInsert(buckets: nat, threads: nat, acts: seq<Action>, k: nat, i: nat)
    requires 0 < buckets
    ensures var s0 := Init(buckets, threads);
            && Rel(s0, map[])
            && (var es := Events(s0, map[], acts);
                i < |es| && IsFind(es[i], k) ==> ResultOf(es[i]) == Written(es[..i], k, None))
  {
    var s0 := Init(buckets, threads);
    RunFromInit(buckets, threads, acts);
    hide Rel, Init;
    var es := Events(s0, map[], acts);
    if i < |es| && IsFind(es[i], k) {
      LegalAnswers(map[], es, k, i);
    }
  }

  /** No insert of k is called in the schedule. */
  predicate NoCalls(acts: seq<Action>, k: nat) {
    forall i :: 0 <= i < |acts| ==> !(acts[i].CallInsert? && acts[i].k == k)
  }

  /** The only insert of k on its way is insert(k, v) by thread t. */
  ghost predicate OnlyInsert(s: State, t: nat, k: nat, v: nat) {
    forall u :: 0 <= u < |s.pc| && Waiting(s.pc[u]) != [] && Waiting(s.pc[u])[0].Insert? && Waiting(s.pc[u])[0].k == k ==>
                  u == t && Waiting(s.pc[u])[0].v == v
  }

  lemma OnlyInsertStep(s: State, a: Action, t: nat, k: nat, v: nat)
    requires Wf(s) && OnlyInsert(s, t, k, v) && !(a.CallInsert? && a.k == k)
    ensures OnlyInsert(Step(s, a), t, k, v)
    ensures EventOf(s, a).Inserted? && EventOf(s, a).k == k ==> EventOf(s, a) == Inserted(t, k, v)
  {
    if a.t < |s.pc| {
      StepOps(s, a, a.t);
      OthersStay(s, a);
      hide Step, EventOf, A.Step;
      var s', w, w' := Step(s, a), Waiting(s.pc[a.t]), Waiting(Step(s, a).pc[a.t]);
      assert w' != [] ==> w'[0] == (w + CallBy(s, a, a.t))[|OpOf(EventOf(s, a), a.t)|];
      EventActor(s, a);
    }
  }

  lemma OthersStay(s: State, a: Action)
    requires Wf(s)
    ensures |Step(s, a).pc| == |s.pc| && forall u :: 0 <= u < |s.pc| && u != a.t ==> Step(s, a).pc[u] == s.pc[u]
  {
    hide A.Step;
  }

  lemma EventActor(s: State, a: Action)
    requires Wf(s)
    ensures !EventOf(s, a).Silent? ==> EventOf(s, a).t == a.t
  {
  }

  lemma {:induction false} OnlyInsertRun(s: State, m: map<nat, nat>, acts: seq<Action>, t: nat, k: nat, v: nat)
    requires Rel(s, m) && OnlyInsert(s, t, k, v) && NoCalls(acts, k)
    ensures OnlyInsert(Final(s, m, acts), t, k, v)
    ensures var es := Events(s, m, acts);
            forall i :: 0 <= i < |es| && es[i].Inserted? && es[i].k == k ==> es[i] == Inserted(t, k, v)
    decreases |acts|
  {
    hide Rel, Step, EventOf, OnlyInsert;
    if acts != [] {
      WfOf(s, m);
      Simulation(s, m, acts[0]);
      OnlyInsertStep(s, acts[0], t, k, v);
      var s1, m1 := Step(s, acts[0]), Apply(m, EventOf(s, acts[0]));
      OnlyInsertRun(s1, m1, acts[1..], t, k, v);
      var es := Events(s, m, acts);
      assert es[0] == EventOf(s, acts[0]) && es[1..] == Events(s1, m1, acts[1..]);
      forall i | 0 <= i < |es| && es[i].Inserted? && es[i].k == k ensures es[i] == Inserted(t, k, v) {
        assert i > 0 ==> es[i] == es[1..][i - 1];
      }
    }
  }

  /** No insert of k is on its way. */
  ghost predicate NoInsert(s: State, k: nat) {
    forall u :: 0 <= u < |s.pc| ==>
                  Waiting(s.pc[u]) == [] || !Waiting(s.pc[u])[0].Insert? || Waiting(s.pc[u])[0].k != k
  }

  /** While no insert of k is on its way or called, every find of k answers what the map holds. */
  lemma QuietKey(s: State, m: map<nat, nat>, acts: seq<Action>, k: nat, i: nat)
    requires Rel(s, m) && NoInsert(s, k) && NoCalls(acts, k)
    ensures var es := Events(s, m, acts);
            i < |es| && IsFind(es[i], k) ==> ResultOf(es[i]) == Lookup(m, k)
  {
    RunLinearizes(s, m, acts);
    OnlyInsertRun(s, m, acts, |s.pc|, k, 0);
    OnlyInsertRun(s, m, acts, |s.pc| + 1, k, 0);
    hide Rel, NoInsert, OnlyInsert;
    var es := Events(s, m, acts);
    if i < |es| && IsFind(es[i], k) {
      LegalAnswers(m, es, k, i);
      assert forall j :: 0 <= j < i ==> es[..i][j] == es[j];
      OneWritten(es[..i], k, Lookup(m, k), Lookup(m, k));
    }
  }

  lemma {:induction false} OneWritten(es: seq<Event>, k: nat, none: Option, v: Option)
    requires forall i :: 0 <= i < |es| && es[i].Inserted? && es[i].k == k ==> Some(es[i].v) == v
    requires none == v || exists i :: 0 <= i < |es| && es[i].Inserted? && es[i].k == k
    ensures Written(es, k, none) == v
    decreases |es|
  {
    if es != [] {
      var next := if es[0].Inserted? && es[0].k == k then Some(es[0].v) else none;
      if next != v {
        var i :| 0 <= i < |es| && es[i].Inserted? && es[i].k == k;
        assert es[1..][i - 1] == es[i];
      }
      OneWritten(es[1..], k, next, v);
    }
  }

  lemma {:induction false} HasEvent(es: seq<Event>, t: nat)
    requires Ops(es, t) != []
    ensures exists i :: 0 <= i < |es| && OpOf(es[i], t) == [Ops(es, t)[0]]
    decreases |es|
  {
    if OpOf(es[0], t) == [] {
      HasEvent(es[1..], t);
      var i :| 0 <= i < |es[1..]| && OpOf(es[1..][i], t) == [Ops(es[1..], t)[0]];
      assert OpOf(es[i + 1], t) == [Ops(es, t)[0]];
    } else {
      assert OpOf(es[0], t) == [Ops(es, t)[0]];
    }
  }

  /** Thread t calls insert(k, v) while no other insert of k is on its way, none is called afterwards, and its call
      returns at some point: then every find of k that takes effect after that point answers v. */
  lemma FindAfterInsert(s: State, m: map<nat, nat>, t: nat, k: nat, v: nat, before: seq<Action>, after: seq<Action>,
                        i: nat)
    requires Rel(s, m) && t < |s.pc| && s.pc[t].Out? && NoInsert(s, k) && NoCalls(before, k) && NoCalls(after, k)
    ensures var s1 := Step(s, CallInsert(t, k, v));
            && Rel(s1, m)
            && (var s2, m2 := Final(s1, m, before), Replay(m, Events(s1, m, before));
                && t < |s2.pc| && Rel(s2, m2)
                && (s2.pc[t].Out? ==>
                      && Lookup(m2, k) == Some(v)
                      && (var es := Events(s2, m2, after);
                          i < |es| && IsFind(es[i], k) ==> ResultOf(es[i]) == Some(v))))
  {
    var s1 := Step(s, CallInsert(t, k, v));
    InsertCalled(s, m, t, k, v);
    hide Rel, Step, NoInsert, OnlyInsert, Waiting;
    RunLinearizes(s1, m, before);
    CallsInOrder(s1, m, before, t);
    var s2, m2 := Final(s1, m, before), Replay(m, Events(s1, m, before));
    if s2.pc[t].Out? {
      InsertDone(s1, m, before, t, k, v);
      QuietKey(s2, m2, after, k, i);
    }
  }

  lemma InsertCalled(s: State, m: map<nat, nat>, t: nat, k: nat, v: nat)
    requires Rel(s, m) && t < |s.pc| && s.pc[t].Out? && NoInsert(s, k)
    ensures var s1 := Step(s, CallInsert(t, k, v));
            && Rel(s1, m) && |s1.pc| == |s.pc| && Waiting(s1.pc[t]) == [Insert(k, v)] && OnlyInsert(s1, t, k, v)
  {
    var s1 := Step(s, CallInsert(t, k, v));
    Simulation(s, m, CallInsert(t, k, v));
    OthersStay(s, CallInsert(t, k, v));
    assert s1.pc[t] == InsLock(k, v);
    hide Rel, Step;
  }

  lemma InsertDone(s: State, m: map<nat, nat>, acts: seq<Action>, t: nat, k: nat, v: nat)
    requires Rel(s, m) && t < |s.pc| && Waiting(s.pc[t]) == [Insert(k, v)] && OnlyInsert(s, t, k, v) && NoCalls(acts, k)
    requires t < |Final(s, m, acts).pc| && Final(s, m, acts).pc[t].Out?
    ensures NoInsert(Final(s, m, acts), k)
    ensures Lookup(Replay(m, Events(s, m, acts)), k) == Some(v)
  {
    hide Rel, NoInsert, OnlyInsert, Events, Final, CallLog, ReturnLog;
    CallsInOrder(s, m, acts, t);
    OnlyInsertRun(s, m, acts, t, k, v);
    NoneLeft(Final(s, m, acts), t, k, v);
    var es := Events(s, m, acts);
    assert Waiting(Final(s, m, acts).pc[t]) == [];
    hide NoCalls, Lookup, Waiting;
    ReplayWritten(m, es, k);
    assert Ops(es, t) == [Insert(k, v)] + CallLog(s, m, acts, t);
    InsertWritten(es, t, k, v, Lookup(m, k));
  }

  lemma InsertWritten(es: seq<Event>, t: nat, k: nat, v: nat, none: Option)
    requires Ops(es, t) != [] && Ops(es, t)[0] == Insert(k, v)
    requires forall i :: 0 <= i < |es| && es[i].Inserted? && es[i].k == k ==> es[i] == Inserted(t, k, v)
    ensures Written(es, k, none) == Some(v)
  {
    HasEvent(es, t);
    OneWritten(es, k, none, Some(v));
  }

  lemma NoneLeft(s: State, t: nat, k: nat, v: nat)
    requires OnlyInsert(s, t, k, v) && t < |s.pc| && s.pc[t].Out?
    ensures NoInsert(s, k)
  {
  }

  // ---------------------------------------------------------------------------------------------
  // A thread that runs alone

  /** No other thread holds the lock of the bucket that thread t is waiting for. */
  ghost predicate Free(s: State, t: nat)
    requires Wf(s) && t < |s.pc|
  {
    s.pc[t].InsLock? || s.pc[t].FindLock? ==> !A.Bit(s.lock, Bucket(s, s.pc[t].k))
  }

  /** A bound on the accesses left in a chain of n entries and in unlock. */
  function WalkWork(pc: Pc, n: nat): nat
    requires Critical(pc)
  {
    match pc
    case InsTest(_, _) => 2 * n + 10
    case FindTest(_) => 2 * n + 10
    case InsKey(_, _, i) => 2 * n - 2 * (if i <= n then i else n) + 8
    case InsNext(_, _, i) => 2 * n - 2 * (if i <= n then i else n) + 7
    case FindKey(_, i) => 2 * n - 2 * (if i <= n then i else n) + 7
    case _ => 6
  }

  /** A bound on the accesses thread t has left inside its operation: the lock, the chain, the unlock. */
  function Work(s: State, t: nat): nat
    requires Wf(s) && t < |s.pc|
  {
    var pc := s.pc[t];
    if pc.Out? then 0
    else if Critical(pc) then WalkWork(pc, |s.chains[Bucket(s, pc.k)]|)
    else A.Work(s.lock, t) + if pc.InsLock? || pc.FindLock? then 2 * |s.chains[Bucket(s, pc.k)]| + 10 else 0
  }

  lemma WalkLess(c: seq<Entry>, pc: Pc)
    requires Critical(pc) && WalkOk(c, pc)
    ensures 6 <= WalkWork(pc, |c|)
    ensures Critical(Walk(c, pc)) ==> Touch(c, pc) == c && WalkWork(Walk(c, pc), |c|) < WalkWork(pc, |c|)
    ensures !Walk(c, pc).InsLock? && !Walk(c, pc).FindLock? && !Walk(c, pc).Out? && Walk(c, pc).k == pc.k
  {
  }

  lemma WalkProgress(s: State, m: map<nat, nat>, t: nat)
    requires Rel(s, m) && t < |s.pc| && Critical(s.pc[t])
    ensures Wf(Instr(s, t)) && |Instr(s, t).pc| == |s.pc| && Work(Instr(s, t), t) < Work(s, t)
    ensures !Instr(s, t).pc[t].InsLock? && !Instr(s, t).pc[t].FindLock?
  {
    StepWf(s, m, t);
    assert Coupled(s, t);
    var b := Bucket(s, s.pc[t].k);
    WalkLess(s.chains[b], s.pc[t]);
    UnlockWork(s.lock, t, b);
    hide Rel, Walk, Touch, WalkWork, Critical, WalkOk, A.Wf, A.Step, A.Work;
  }

  lemma UnlockWork(m: A.State, t: nat, b: nat)
    requires A.Wf(m) && t < |m.pc| && m.pc[t].Idle? && A.Wf(A.Step(m, A.CallUnlock(t, b)))
    ensures |A.Step(m, A.CallUnlock(t, b)).pc| == |m.pc| && A.Work(A.Step(m, A.CallUnlock(t, b)), t) <= 4
  {
  }

  lemma LockWork(s: State, m: map<nat, nat>, t: nat)
    requires Rel(s, m) && t < |s.pc| && !Critical(s.pc[t]) && !s.pc[t].Out? && Free(s, t)
    ensures Wf(Instr(s, t)) && |Instr(s, t).pc| == |s.pc| && Work(Instr(s, t), t) < Work(s, t)
    ensures Free(Instr(s, t), t)
  {
    StepWf(s, m, t);
    assert Coupled(s, t);
    var b := Bucket(s, s.pc[t].k);
    assert A.Ready(s.lock, t) by {
      if s.pc[t].InsUnlock? || s.pc[t].FindUnlock? {
        assert A.Held(s.lock, b);
      }
    }
    A.AloneProgress(s.lock, t);
    hide A.Inv, A.Instr;
  }

  /** The run of n steps of thread t. */
  function Execs(t: nat, n: nat): seq<Action> {
    seq(n, _ => Exec(t))
  }

  /** Where nobody holds its bucket, a thread that runs alone finishes its operation within a number of accesses
      bounded by the length of the chain, even if the others have stopped anywhere. */
  lemma {:induction false} AloneReturns(s: State, m: map<nat, nat>, t: nat, n: nat)
    requires Rel(s, m) && t < |s.pc| && Free(s, t) && Work(s, t) <= n
    ensures t < |Final(s, m, Execs(t, n)).pc| && Final(s, m, Execs(t, n)).pc[t].Out?
    decreases n
  {
    hide Rel, Instr, Free, Work;
    var acts := Execs(t, n);
    WfOf(s, m);
    if n > 0 {
      AloneStep(s, m, t);
      assert acts[0] == Exec(t) && acts[1..] == Execs(t, n - 1);
      AloneReturns(Step(s, Exec(t)), Apply(m, EventOf(s, Exec(t))), t, n - 1);
    } else {
      NoWork(s, m, t);
    }
  }

  lemma NoWork(s: State, m: map<nat, nat>, t: nat)
    requires Rel(s, m) && t < |s.pc| && Work(s, t) == 0
    ensures s.pc[t].Out?
  {
    assert Coupled(s, t);
  }

  lemma AloneStep(s: State, m: map<nat, nat>, t: nat)
    requires Rel(s, m) && t < |s.pc| && Free(s, t)
    ensures var s1 := Step(s, Exec(t));
            && Legal(m, EventOf(s, Exec(t))) && Rel(s1, Apply(m, EventOf(s, Exec(t))))
            && |s1.pc| == |s.pc| && Free(s1, t) && (Work(s1, t) < Work(s, t) || Work(s1, t) == 0)
  {
    Simulation(s, m, Exec(t));
    if Critical(s.pc[t]) {
      WalkProgress(s, m, t);
    } else if !s.pc[t].Out? {
      LockWork(s, m, t);
    }
    hide Rel, Instr;
  }
}
