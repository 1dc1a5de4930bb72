/** container/pqueue.h: when `tail` is safe.  Between its two stores a push and a front that reads what the first
    store has linked can lose the node that `tail` comes to point to.  Here is exactly when. */
module PQueueSafety {
  import opened PQueue

  // ---------------------------------------------------------------------------------------------
  // When tail is safe

  /** Whatever the threads do next, tail never points to a node that is not linked. */
  ghost predicate SafeForever(s: State) {
    forall acts :: TailLinked(Final(s, acts))
  }

  /** A front that is past the test of tail carries a node that tail has left, and not a null link. */
  predicate ReaderSafe(pc: Pc, tail: nat) {
    match pc
    case FrontNull(p) => p == 0 || p != tail
    case FrontNext(p) => p != tail
    case FrontStore(p, nx) => p != tail && nx != 0
    case _ => true
  }

  /** What can be seen in a state: tail is off head and linked, and no front is past the test of tail with the
      node tail points to or with a link it has read as null. */
  ghost predicate SafeNow(s: State) {
    && s.tail != 0 && TailLinked(s)
    && forall t :: 0 <= t < |s.pc| ==> ReaderSafe(s.pc[t], s.tail)
  }

  lemma SafeNowIs(s: State, a: Abs)
    requires Rel(s, a)
    ensures SafeNow(s) <==> TailLive(s, Live(a)) && forall t :: 0 <= t < |s.pc| ==> ReaderSafe(s.pc[t], s.tail)
  {
    if TailLive(s, Live(a)) {
      LiveIsLinked(s, Live(a));
    }
    if s.tail != 0 && TailLinked(s) {
      LinkedIsLive(s, Live(a));
    }
    hide ListOk, LocksOk, OwnedOk, TailOk, PcOk, TailLinked, TailLive;
  }

  /** What a step does to tail and to the live nodes. */
  lemma TailMoves(s: State, a: Abs, act: Action)
    requires a.out <= |a.pushed| && Legal(a, EventOf(s, act)) && Apply(a, EventOf(s, act)).out <= |a.pushed|
    ensures a.pushed <= Apply(a, EventOf(s, act)).pushed
    ensures var s', live, live' := Step(s, act), Live(a), Live(Apply(a, EventOf(s, act)));
            if act.Exec? && act.t < |s.pc| && s.pc[act.t].PushLink? then
              s'.tail == s.tail && |live'| == |live| + 1 && live == live'[..|live|]
            else if act.Exec? && act.t < |s.pc| && s.pc[act.t].PushTail? then s'.tail == s.pc[act.t].n && live' == live
            else if act.Exec? && act.t < |s.pc| && s.pc[act.t].FrontStore? then
              s'.tail == s.tail && live != [] && live' == live[1..]
            else s'.tail == s.tail && live' == live
  {
  }

  lemma WindowLast(s: State, a: Abs, w: nat)
    requires Rel(s, a) && w < |s.pc| && s.pc[w].PushTail?
    ensures Live(a) != [] && s.pc[w].n == Live(a)[|Live(a)| - 1].node
    ensures |Live(a)| == 1 ==> !TailLive(s, Live(a))
  {
    assert s.writeLock == By(w);
  }

  lemma PastFirst(s: State, a: Abs, u: nat)
    requires Rel(s, a) && u < |s.pc| && Past(s.pc[u])
    ensures Live(a) != [] && s.pc[u].p == Live(a)[0].node != 0
  {
    assert PcOk(s, a, u);
  }

  predicate Past(pc: Pc) {
    (pc.FrontNull? && pc.p != 0) || pc.FrontNext? || pc.FrontStore?
  }

  lemma SafeMemory(s: State, a: Abs, act: Action)
    requires Rel(s, a) && TailLive(s, Live(a)) && !StoresNull(s, act)
    requires forall t :: 0 <= t < |s.pc| ==> ReaderSafe(s.pc[t], s.tail)
    ensures Legal(a, EventOf(s, act)) && Apply(a, EventOf(s, act)).out <= |Apply(a, EventOf(s, act)).pushed|
    ensures TailLive(Step(s, act), Live(Apply(a, EventOf(s, act))))
  {
    Simulation(s, a, act);
    EventOut(a, EventOf(s, act));
    TailMoves(s, a, act);
    if act.Exec? && act.t < |s.pc| {
      if s.pc[act.t].PushTail? {
        WindowLast(s, a, act.t);
      } else if s.pc[act.t].FrontStore? {
        PastFirst(s, a, act.t);
      }
    }
    hide Rel, Step, Apply, EventOf, Legal, Live;
    var live, live' := Live(a), Live(Apply(a, EventOf(s, act)));
    if live' != live {
      if |live'| > |live| {
        StillIn(live, live', 0, s.tail);
      } else {
        StillIn(live, live', 1, s.tail);
      }
    }
  }

  lemma StillIn(live: seq<Item>, live': seq<Item>, d: nat, n: nat)
    requires d <= 1
    requires if d == 0 then |live'| > |live| && live == live'[..|live|] else live != [] && live' == live[1..]
    requires exists i :: 0 <= i < |live| && live[i].node == n
    requires d == 1 ==> live[0].node != n
    ensures exists i :: 0 <= i < |live'| && live'[i].node == n
  {
    var k :| 0 <= k < |live| && live[k].node == n;
    assert live'[k - d] == live[k];
  }

  lemma EventOut(a: Abs, e: Event)
    requires a.out <= |a.pushed| && Legal(a, e)
    ensures Apply(a, e).out <= |a.pushed| <= |Apply(a, e).pushed|
  {
  }

  /** tail and a front past the test are at different nodes, so there are two. */
  lemma TwoLive(s: State, a: Abs, u: nat)
    requires Rel(s, a) && TailLive(s, Live(a)) && u < |s.pc| && Past(s.pc[u]) && s.pc[u].p != s.tail
    ensures |Live(a)| >= 2 && Live(a)[|Live(a)| - 1].node != s.pc[u].p
    ensures Deref(s.next, s.pc[u].p) == Live(a)[1].node != 0
  {
    PastFirst(s, a, u);
  }

  lemma SafeReader(s: State, a: Abs, act: Action, u: nat)
    requires Rel(s, a) && TailLive(s, Live(a)) && u < |s.pc|
    requires ReaderSafe(s.pc[u], s.tail)
    ensures u < |Step(s, act).pc| && ReaderSafe(Step(s, act).pc[u], Step(s, act).tail)
  {
    if Past(s.pc[u]) {
      TwoLive(s, a, u);
    }
    if act.Exec? && act.t < |s.pc| && s.pc[act.t].PushTail? {
      WindowLast(s, a, act.t);
    }
    hide Rel, TailLive, ValOf;
    ReaderMoves(s, act, u);
  }

  lemma ReaderMoves(s: State, act: Action, u: nat)
    requires u < |s.pc| && ReaderSafe(s.pc[u], s.tail)
    requires s.pc[u].FrontNext? ==> Deref(s.next, s.pc[u].p) != 0
    requires Past(s.pc[u]) && act.Exec? && act.t < |s.pc| && s.pc[act.t].PushTail? ==> s.pc[act.t].n != s.pc[u].p
    ensures u < |Step(s, act).pc| && ReaderSafe(Step(s, act).pc[u], Step(s, act).tail)
  {
    if act.Exec? && act.t < |s.pc| {
      TailOnly(s, act.t);
      if act.t == u {
        if IsFront(s.pc[u]) {
          OwnMove(s, u);
        } else {
          PushesAreSafe(s, u, Step(s, act).tail);
        }
      }
      hide PushInstr, FrontInstr, Deref, ValOf;
    } else {
      OthersCall(s, act, u);
      hide Step;
    }
  }

  lemma PushTailOnly(s: State, t: nat)
    requires t < |s.pc|
    ensures |PushInstr(s, t).pc| == |s.pc|
    ensures forall u :: 0 <= u < |s.pc| && u != t ==> PushInstr(s, t).pc[u] == s.pc[u]
    ensures PushInstr(s, t).tail == if s.pc[t].PushTail? then s.pc[t].n else s.tail
  {
  }

  lemma FrontTailOnly(s: State, t: nat)
    requires t < |s.pc|
    ensures |FrontInstr(s, t).pc| == |s.pc|
    ensures forall u :: 0 <= u < |s.pc| && u != t ==> FrontInstr(s, t).pc[u] == s.pc[u]
    ensures FrontInstr(s, t).tail == s.tail
  {
    hide Deref, ValOf;
  }

  lemma TailOnly(s: State, t: nat)
    requires t < |s.pc|
    ensures |Instr(s, t).pc| == |s.pc| && forall u :: 0 <= u < |s.pc| && u != t ==> Instr(s, t).pc[u] == s.pc[u]
    ensures Instr(s, t).tail == if s.pc[t].PushTail? then s.pc[t].n else s.tail
  {
    hide PushInstr, FrontInstr;
    PushTailOnly(s, t);
    FrontTailOnly(s, t);
  }

  lemma OwnMove(s: State, t: nat)
    requires t < |s.pc| && ReaderSafe(s.pc[t], s.tail) && IsFront(s.pc[t])
    requires s.pc[t].FrontNext? ==> Deref(s.next, s.pc[t].p) != 0
    ensures |FrontInstr(s, t).pc| == |s.pc| && ReaderSafe(FrontInstr(s, t).pc[t], s.tail)
  {
    hide Deref, ValOf;
  }

  lemma PushesAreSafe(s: State, t: nat, tail: nat)
    requires t < |s.pc| && !IsFront(s.pc[t])
    ensures |PushInstr(s, t).pc| == |s.pc| && ReaderSafe(PushInstr(s, t).pc[t], tail)
  {
  }

  lemma OthersCall(s: State, act: Action, u: nat)
    requires u < |s.pc| && !(act.Exec? && act.t < |s.pc|)
    ensures Step(s, act).tail == s.tail && u < |Step(s, act).pc|
    ensures Step(s, act).pc[u] == s.pc[u] || Step(s, act).pc[u].PushLock? || Step(s, act).pc[u].FrontLock?
  {
    hide Instr;
  }

  /** Safety is kept by every step, and nothing null is stored. */
  lemma SafeStep(s: State, a: Abs, act: Action)
    requires Rel(s, a) && SafeNow(s)
    ensures !StoresNull(s, act) && SafeNow(Step(s, act))
    ensures Legal(a, EventOf(s, act)) && Rel(Step(s, act), Apply(a, EventOf(s, act)))
  {
    SafeNowIs(s, a);
    hide Rel;
    assert !StoresNull(s, act);
    Simulation(s, a, act);
    var s', a' := Step(s, act), Apply(a, EventOf(s, act));
    SafeMemory(s, a, act);
    SafeNowIs(s', a');
    NewThreads(s, act);
    hide Step, TailLive, TailLinked, ReaderSafe, Legal, Apply, EventOf;
    forall u | 0 <= u < |s'.pc| ensures ReaderSafe(s'.pc[u], s'.tail) {
      if u < |s.pc| {
        SafeReader(s, a, act, u);
      }
    }
  }

  lemma NewThreads(s: State, act: Action)
    ensures |s.pc| <= |Step(s, act).pc|
    ensures forall u :: |s.pc| <= u < |Step(s, act).pc| ==> ReaderSafe(Step(s, act).pc[u], Step(s, act).tail)
  {
    if act.Exec? && act.t < |s.pc| {
      TailOnly(s, act.t);
    }
    hide Instr;
  }

  lemma {:induction false} SafeStays(s: State, a: Abs, acts: seq<Action>)
    requires Rel(s, a) && SafeNow(s)
    ensures Intact(s, acts) && SafeNow(Final(s, acts))
    decreases |acts|
  {
    hide Rel, SafeNow, StoresNull;
    if acts != [] {
      SafeStep(s, a, acts[0]);
      SafeStays(Step(s, acts[0]), Apply(a, EventOf(s, acts[0])), acts[1..]);
    }
  }

  // ---------------------------------------------------------------------------------------------
  // After null has been stored

  predicate BrokenPc(pc: Pc) {
    match pc
    case PushLock(n, d) => n != 0
    case PushLink(n, d) => n != 0
    case PushTail(n, d) => n != 0
    case FrontTail(p) => p == 0
    case FrontNull(p) => p == 0
    case FrontNext(p) => false
    case FrontStore(p, nx) => false
    case _ => true
  }

  /** head.next is null for good: tail is off head, or about to be. */
  ghost predicate Broken(s: State) {
    && s.headNext == 0 && LocksOk(s)
    && (s.tail != 0 || InWindow(s))
    && forall t :: 0 <= t < |s.pc| ==> BrokenPc(s.pc[t])
  }

  lemma StoringBreaks(s: State, a: Abs, act: Action)
    requires Rel(s, a) && StoresNull(s, act)
    ensures Broken(Step(s, act))
  {
    var s', t := Step(s, act), act.t;
    assert PcOk(s, a, t);
    assert s.readLock == By(t);
    LocksKept(s, s', t);
    forall u | 0 <= u < |s'.pc| ensures BrokenPc(s'.pc[u]) {
      if u != t {
        assert !Reading(s.pc[u]);
        assert s.pc[u].PushTail? ==> s.writeLock == By(u);
      }
    }
    assert s.tail == 0 ==> InWindow(s);
  }

  /** How the threads move while head.next is null. */
  lemma BrokenPush(s: State, t: nat)
    requires Broken(s) && t < |s.pc| && !IsFront(s.pc[t])
    ensures var s' := PushInstr(s, t);
            && |s'.pc| == |s.pc| && s'.headNext == 0 && BrokenPc(s'.pc[t]) && (s'.tail == s.tail || s'.tail != 0)
            && (s.pc[t].PushTail? ==> s'.tail != 0)
            && s'.readLock == s.readLock && !Reading(s.pc[t]) && !Reading(s'.pc[t])
            && LockMove(s.writeLock, s'.writeLock, t, Writing(s.pc[t]), Writing(s'.pc[t]))
  {
    assert BrokenPc(s.pc[t]);
    assert s.pc[t].PushLink? ==> s.writeLock == By(t) && s.tail != 0;
  }

  lemma BrokenFront(s: State, t: nat)
    requires t < |s.pc| && IsFront(s.pc[t]) && BrokenPc(s.pc[t]) && s.headNext == 0
    ensures var s' := FrontInstr(s, t);
            && |s'.pc| == |s.pc| && s'.headNext == 0 && BrokenPc(s'.pc[t]) && s'.tail == s.tail
            && s'.writeLock == s.writeLock && !Writing(s.pc[t]) && !Writing(s'.pc[t])
            && LockMove(s.readLock, s'.readLock, t, Reading(s.pc[t]), Reading(s'.pc[t]))
  {
    hide ValOf, Deref;
  }

  /** How the threads move while head.next is null. */
  lemma BrokenMove(s: State, t: nat)
    requires Broken(s) && t < |s.pc|
    ensures var s' := Instr(s, t);
            && |s'.pc| == |s.pc| && (forall u :: 0 <= u < |s.pc| && u != t ==> s'.pc[u] == s.pc[u])
            && s'.headNext == 0 && BrokenPc(s'.pc[t]) && (s'.tail == s.tail || s'.tail != 0)
            && (s.pc[t].PushTail? ==> s'.tail != 0)
            && LockMove(s.writeLock, s'.writeLock, t, Writing(s.pc[t]), Writing(s'.pc[t]))
            && LockMove(s.readLock, s'.readLock, t, Reading(s.pc[t]), Reading(s'.pc[t]))
  {
    TailOnly(s, t);
    if IsFront(s.pc[t]) {
      BrokenFront(s, t);
    } else {
      BrokenPush(s, t);
    }
    hide PushInstr, FrontInstr, Broken, BrokenPc, Writing, Reading;
  }

  lemma BrokenStays(s: State, act: Action)
    requires Broken(s)
    ensures Broken(Step(s, act))
  {
    var s' := Step(s, act);
    if act.Exec? && act.t < |s.pc| {
      BrokenMove(s, act.t);
      LocksKept(s, s', act.t);
      BrokenTail(s, act.t);
      hide LocksOk, LockMove, Writing, Reading, BrokenPc, Instr;
    } else if act.Spawn? {
      assert forall u :: 0 <= u < |s'.pc| ==> s'.pc[u] == if u < |s.pc| then s.pc[u] else Idle;
    } else if act.t < |s.pc| && s' != s {
      LocksKept(s, s', act.t);
      hide LocksOk;
    }
  }

  lemma BrokenTail(s: State, t: nat)
    requires Broken(s) && t < |s.pc|
    ensures Instr(s, t).tail != 0 || InWindow(Instr(s, t))
  {
    if s.tail == 0 && !s.pc[t].PushTail? {
      assert s.writeLock.t != t;
      assert !Writing(s.pc[t]);
    } else {
      assert BrokenPc(s.pc[t]);
    }
  }

  /** A schedule that leads to a wild tail. */
  ghost predicate Breaks(s: State, acts: seq<Action>) {
    !TailLinked(Final(s, acts))
  }

  lemma BreaksAfter(s: State, act: Action, acts: seq<Action>)
    requires Breaks(Step(s, act), acts)
    ensures Breaks(s, [act] + acts)
  {
    hide Step, TailLinked;
    assert ([act] + acts)[1..] == acts;
  }

  lemma FreshNode(next: map<nat, nat>) returns (n: nat)
    ensures n != 0 && n !in next
  {
    n := Above(next.Keys);
  }

  lemma {:induction false} Above(nodes: set<nat>) returns (n: nat)
    ensures n != 0 && forall m :: m in nodes ==> m < n
    decreases |nodes|
  {
    n := 1;
    if nodes != {} {
      var m :| m in nodes;
      var k := Above(nodes - {m});
      n := if k <= m then m + 1 else k;
      assert forall j :: j in nodes ==> j == m || j in nodes - {m};
    }
  }

  /** A state with null in head.next is unsafe at once, or after one store. */
  lemma BrokenBreaks(s: State) returns (acts: seq<Action>)
    requires Broken(s)
    ensures Breaks(s, acts)
  {
    if s.tail != 0 {
      acts := [];
    } else {
      var w := s.writeLock.t;
      assert BrokenPc(s.pc[w]);
      acts := [Exec(w)];
      assert acts[1..] == [];
      assert Final(s, acts) == Step(s, Exec(w));
    }
  }

  // ---------------------------------------------------------------------------------------------
  // Every unsafe state breaks

  lemma BreaksNow(s: State)
    requires !TailLinked(s)
    ensures Breaks(s, [])
  {
  }

  lemma BreaksNext(s: State, t: nat)
    requires !TailLinked(Step(s, Exec(t)))
    ensures Breaks(s, [Exec(t)])
  {
    BreaksNow(Step(s, Exec(t)));
    BreaksAfter(s, Exec(t), []);
    assert [Exec(t)] + [] == [Exec(t)];
    hide Step, TailLinked;
  }

  /** How far a front is from giving the lock back. */
  function ToGo(pc: Pc): nat {
    match pc
    case FrontHead => 7
    case FrontTail(p) => 6
    case FrontNull(p) => 5
    case FrontNext(p) => 4
    case FrontStore(p, nx) => 3
    case FrontUnlock(p) => 1
    case FrontFail => 1
    case _ => 0
  }

  /** A front past the test of tail with the node tail points to takes that node away. */
  lemma {:induction false} ReaderBreaks(s: State, a: Abs, f: nat) returns (acts: seq<Action>)
    requires Rel(s, a) && s.tail != 0 && f < |s.pc| && !ReaderSafe(s.pc[f], s.tail)
    ensures Breaks(s, acts)
    decreases ToGo(s.pc[f])
  {
    if s.pc[f].FrontStore? {
      StoreUnlinksTail(s, a, f);
      BreaksNext(s, f);
      acts := [Exec(f)];
    } else {
      ReaderGoesOn(s, f);
      Simulation(s, a, Exec(f));
      var rest := ReaderBreaks(Step(s, Exec(f)), Apply(a, EventOf(s, Exec(f))), f);
      hide Rel, Step;
      BreaksAfter(s, Exec(f), rest);
      acts := [Exec(f)] + rest;
    }
  }

  lemma ReaderGoesOn(s: State, f: nat)
    requires f < |s.pc| && (s.pc[f].FrontNull? || s.pc[f].FrontNext?) && s.pc[f].p == s.tail != 0
    ensures !StoresNull(s, Exec(f))
    ensures var s' := Step(s, Exec(f));
            |s'.pc| == |s.pc| && s'.tail == s.tail && !ReaderSafe(s'.pc[f], s'.tail) && ToGo(s'.pc[f]) < ToGo(s.pc[f])
  {
  }

  lemma StoreUnlinksTail(s: State, a: Abs, f: nat)
    requires Rel(s, a) && s.tail != 0 && f < |s.pc| && s.pc[f].FrontStore? && !ReaderSafe(s.pc[f], s.tail)
    ensures !TailLinked(Step(s, Exec(f)))
  {
    var s' := Step(s, Exec(f));
    assert PcOk(s, a, f);
    if s.pc[f].nx == 0 {
      hide Rel;
    } else {
      var a' := Apply(a, EventOf(s, Exec(f)));
      Simulation(s, a, Exec(f));
      assert Live(a') == Live(a)[1..];
      assert !TailLive(s', Live(a'));
      if TailLinked(s') {
        LinkedIsLive(s', Live(a'));
      }
    }
  }

  /** While tail is &head and a front has the lock, it goes on, or it stores null. */
  lemma PollGoesOn(s: State, a: Abs, f: nat)
    requires Rel(s, a) && s.tail == 0 && s.readLock == By(f) && !StoresNull(s, Exec(f))
    ensures f < |s.pc| && |Step(s, Exec(f)).pc| == |s.pc| && Step(s, Exec(f)).tail == 0
    ensures var s' := Step(s, Exec(f));
            s'.readLock.Free? || (s'.readLock == By(f) && ToGo(s'.pc[f]) < ToGo(s.pc[f]))
  {
    assert Reading(s.pc[f]);
    hide Rel, PushInstr, FrontInstr, StoresNull;
    PollMoves(s, f);
  }

  lemma PollMoves(s: State, f: nat)
    requires f < |s.pc| && Reading(s.pc[f])
    ensures IsFront(s.pc[f]) && |FrontInstr(s, f).pc| == |s.pc| && FrontInstr(s, f).tail == s.tail
    ensures var s' := FrontInstr(s, f);
            s'.readLock.Free? || (s'.readLock == s.readLock && ToGo(s'.pc[f]) < ToGo(s.pc[f]))
  {
    hide Deref, ValOf;
  }

  /** Thread t is between `tail->next = qn` and `tail = qn` of a push whose node is the only one, while tail is
      still &head. */
  ghost predicate Window(s: State, t: nat)
    requires t < |s.pc|
  {
    && s.pc[t].PushTail? && s.tail == 0
    && s.headNext == s.pc[t].n != 0 && s.headNext in s.next && s.next[s.headNext] == 0
  }

  /** The six steps of one front, and then the tail store of the push it overtakes. */
  function Overtake(f: nat, w: nat): seq<Action> {
    [CallFront(f), Exec(f), Exec(f), Exec(f), Exec(f), Exec(f), Exec(f), Exec(w)]
  }

  lemma Final4(s: State, a: Action, b: Action, c: Action, d: Action)
    ensures Final(s, [a, b, c, d]) == Step(Step(Step(Step(s, a), b), c), d)
  {
    hide Step;
    assert [a, b, c, d][1..] == [b, c, d] && [b, c, d][1..] == [c, d] && [c, d][1..] == [d] && [d][1..] == [];
    assert Final(Step(s, a), [b, c, d]) == Final(Step(Step(s, a), b), [c, d]);
    assert Final(Step(Step(s, a), b), [c, d]) == Final(Step(Step(Step(s, a), b), c), [d]);
    assert Final(Step(Step(Step(Step(s, a), b), c), d), []) == Step(Step(Step(Step(s, a), b), c), d);
  }

  /** Thread f has moved to `to` and touched nothing but the read lock. */
  ghost predicate FrontAt(s: State, s': State, f: nat, to: Pc) {
    && OthersSame(s, s', f) && s'.pc[f] == to
    && s'.next == s.next && s'.headNext == s.headNext && s'.tail == s.tail
  }

  lemma FrontStep(s: State, f: nat)
    requires f < |s.pc|
    requires s.pc[f].FrontHead? || s.pc[f].FrontTail? || s.pc[f].FrontNull? || s.pc[f].FrontNext?
    ensures FrontAt(s, Step(s, Exec(f)), f,
                    match s.pc[f]
                    case FrontHead => FrontTail(s.headNext)
                    case FrontTail(p) => if s.tail == p && p != 0 then FrontFail else FrontNull(p)
                    case FrontNull(p) => if p == 0 then FrontFail else FrontNext(p)
                    case FrontNext(p) => FrontStore(p, Deref(s.next, p))
                    case pc => pc)
  {
    hide PushInstr, Deref;
  }

  lemma FrontBegins(s: State, f: nat)
    requires f < |s.pc| && s.pc[f].Idle? && s.readLock.Free?
    ensures FrontAt(s, Step(Step(s, CallFront(f)), Exec(f)), f, FrontHead)
  {
    var s1 := Step(s, CallFront(f));
    assert s1.pc[f] == FrontLock && s1.readLock.Free?;
    hide PushInstr;
  }

  lemma FrontChecks(s: State, f: nat)
    requires f < |s.pc| && s.pc[f].Idle? && s.readLock.Free? && s.tail == 0 && s.headNext != 0
    ensures FrontAt(s, Final(s, [CallFront(f), Exec(f), Exec(f), Exec(f)]), f, FrontNull(s.headNext))
  {
    hide Step;
    FrontBegins(s, f);
    var s2 := Step(Step(s, CallFront(f)), Exec(f));
    FrontStep(s2, f);
    FrontStep(Step(s2, Exec(f)), f);
    Final4(s, CallFront(f), Exec(f), Exec(f), Exec(f));
  }

  lemma StoreThenTail(s: State, f: nat, w: nat)
    requires f < |s.pc| && w < |s.pc| && s.pc[f].FrontStore? && s.pc[w].PushTail?
    ensures var s' := Step(Step(s, Exec(f)), Exec(w)); s'.headNext == s.pc[f].nx && s'.tail == s.pc[w].n
  {
    var s1 := Step(s, Exec(f));
    assert s1.headNext == s.pc[f].nx && w < |s1.pc| && s1.pc[w] == s.pc[w];
    hide FrontInstr;
  }

  lemma FrontTakesLast(s: State, f: nat, w: nat)
    requires f < |s.pc| && w < |s.pc| && s.pc[f] == FrontNull(s.headNext) && s.headNext != 0
    requires Deref(s.next, s.headNext) == 0 && s.pc[w].PushTail?
    ensures var s' := Final(s, [Exec(f), Exec(f), Exec(f), Exec(w)]); s'.headNext == 0 && s'.tail == s.pc[w].n
  {
    hide Step, Deref;
    FrontStep(s, f);
    var s1 := Step(s, Exec(f));
    FrontStep(s1, f);
    StoreThenTail(Step(s1, Exec(f)), f, w);
    Final4(s, Exec(f), Exec(f), Exec(f), Exec(w));
  }

  /** A front that runs inside the window of the first push unlinks the node tail is about to point to. */
  lemma WindowBreaks(s: State, w: nat, f: nat)
    requires w < |s.pc| && f < |s.pc| && s.pc[f].Idle? && s.readLock.Free? && Window(s, w)
    ensures !TailLinked(Final(s, Overtake(f, w)))
  {
    hide Step, Instr;
    var first, second := [CallFront(f), Exec(f), Exec(f), Exec(f)], [Exec(f), Exec(f), Exec(f), Exec(w)];
    assert Overtake(f, w) == first + second;
    FinalConcat(s, first, second);
    FrontChecks(s, f);
    FrontTakesLast(Final(s, first), f, w);
  }

  lemma WindowIsOpen(s: State, a: Abs, w: nat)
    requires Rel(s, a) && s.tail == 0 && w < |s.pc| && s.pc[w].PushTail?
    ensures Window(s, w)
  {
    assert s.writeLock == By(w) && InWindow(s);
    assert |Live(a)| == 1;
  }

  lemma BreakFromWindow(s: State, w: nat) returns (acts: seq<Action>)
    requires w < |s.pc| && s.readLock.Free? && Window(s, w)
    ensures Breaks(s, acts)
  {
    var f, s1 := |s.pc|, Step(s, Spawn);
    assert s1.pc[f] == Idle && s1.pc[w] == s.pc[w];
    assert Window(s1, w);
    hide Step, TailLinked, Window;
    WindowBreaks(s1, w, f);
    BreaksAfter(s, Spawn, Overtake(f, w));
    acts := [Spawn] + Overtake(f, w);
  }

  lemma BreakFromLink(s: State, a: Abs, w: nat) returns (acts: seq<Action>)
    requires Rel(s, a) && s.tail == 0 && s.readLock.Free? && w < |s.pc| && s.pc[w].PushLink?
    ensures Breaks(s, acts)
  {
    var s1 := Step(s, Exec(w));
    SimLink(s, a, w);
    assert s1.tail == 0 && s1.readLock == s.readLock && |s1.pc| == |s.pc| && s1.pc[w].PushTail?;
    WindowIsOpen(s1, Apply(a, EventOf(s, Exec(w))), w);
    hide Rel, Window, Instr, TailLinked;
    var rest := BreakFromWindow(s1, w);
    BreaksAfter(s, Exec(w), rest);
    acts := [Exec(w)] + rest;
  }

  lemma BreakFromLock(s: State, a: Abs, w: nat) returns (acts: seq<Action>)
    requires Rel(s, a) && s.tail == 0 && s.readLock.Free? && w < |s.pc| && s.pc[w].PushLock? && s.writeLock.Free?
    ensures Breaks(s, acts)
  {
    var s1 := Step(s, Exec(w));
    Simulation(s, a, Exec(w));
    assert s1.tail == 0 && s1.readLock == s.readLock && |s1.pc| == |s.pc| && s1.pc[w].PushLink?;
    hide Rel, Instr, TailLinked;
    var rest := BreakFromLink(s1, Apply(a, EventOf(s, Exec(w))), w);
    BreaksAfter(s, Exec(w), rest);
    acts := [Exec(w)] + rest;
  }

  lemma BreakFromCall(s: State, a: Abs, w: nat) returns (acts: seq<Action>)
    requires Rel(s, a) && s.tail == 0 && s.readLock.Free? && s.writeLock.Free? && w < |s.pc| && s.pc[w].Idle?
    ensures Breaks(s, acts)
  {
    var n := FreshNode(s.next);
    var call := CallPush(w, 0, n, false);
    var s1 := Step(s, call);
    Simulation(s, a, call);
    assert s1.tail == 0 && s1.readLock == s.readLock && s1.writeLock == s.writeLock;
    assert |s1.pc| == |s.pc| && s1.pc[w].PushLock?;
    hide Rel, Step, TailLinked;
    var rest := BreakFromLock(s1, Apply(a, EventOf(s, call)), w);
    BreaksAfter(s, call, rest);
    acts := [call] + rest;
  }

  lemma BreakFromStart(s: State, a: Abs) returns (acts: seq<Action>)
    requires Rel(s, a) && s.tail == 0 && s.readLock.Free? && s.writeLock.Free?
    ensures Breaks(s, acts)
  {
    var w, s1 := |s.pc|, Step(s, Spawn);
    Simulation(s, a, Spawn);
    assert s1.tail == 0 && s1.readLock == s.readLock && s1.writeLock == s.writeLock && s1.pc[w] == Idle;
    hide Rel, Step, TailLinked;
    var rest := BreakFromCall(s1, Apply(a, Started), w);
    BreaksAfter(s, Spawn, rest);
    acts := [Spawn] + rest;
  }

  lemma BreakFromUnlock(s: State, a: Abs, w: nat) returns (acts: seq<Action>)
    requires Rel(s, a) && s.tail == 0 && s.readLock.Free? && w < |s.pc| && s.pc[w].PushUnlock?
    ensures Breaks(s, acts)
  {
    var s1 := Step(s, Exec(w));
    Simulation(s, a, Exec(w));
    assert s1.tail == 0 && s1.readLock == s.readLock && s1.writeLock.Free?;
    hide Rel, Step, TailLinked;
    var rest := BreakFromStart(s1, Apply(a, EventOf(s, Exec(w))));
    BreaksAfter(s, Exec(w), rest);
    acts := [Exec(w)] + rest;
  }

  lemma UnreadBreaks(s: State, a: Abs) returns (acts: seq<Action>)
    requires Rel(s, a) && s.tail == 0 && s.readLock.Free?
    ensures Breaks(s, acts)
  {
    if s.writeLock.Free? {
      acts := BreakFromStart(s, a);
    } else {
      var w := s.writeLock.t;
      assert w < |s.pc| && Writing(s.pc[w]);
      if s.pc[w].PushLink? {
        acts := BreakFromLink(s, a, w);
      } else if s.pc[w].PushTail? {
        WindowIsOpen(s, a, w);
        acts := BreakFromWindow(s, w);
      } else {
        acts := BreakFromUnlock(s, a, w);
      }
    }
  }

  /** While tail is &head some continuation leaves it pointing to an unlinked node. */
  lemma {:induction false} AtHeadBreaks(s: State, a: Abs) returns (acts: seq<Action>)
    requires Rel(s, a) && s.tail == 0
    ensures Breaks(s, acts)
    decreases if s.readLock.By? && s.readLock.t < |s.pc| then 1 + ToGo(s.pc[s.readLock.t]) else 0
  {
    if s.readLock.Free? {
      acts := UnreadBreaks(s, a);
    } else {
      var f := s.readLock.t;
      var rest;
      if StoresNull(s, Exec(f)) {
        StoringBreaks(s, a, Exec(f));
        rest := BrokenBreaks(Step(s, Exec(f)));
      } else {
        PollGoesOn(s, a, f);
        Simulation(s, a, Exec(f));
        hide Rel, Step, Breaks;
        rest := AtHeadBreaks(Step(s, Exec(f)), Apply(a, EventOf(s, Exec(f))));
      }
      hide Rel, Step;
      BreaksAfter(s, Exec(f), rest);
      acts := [Exec(f)] + rest;
    }
  }

  // ---------------------------------------------------------------------------------------------
  // Exactly when the queue is safe

  /** All that a reachable state can be. */
  ghost predicate Known(s: State) {
    Broken(s) || exists a :: Rel(s, a)
  }

  lemma StepKnown(s: State, act: Action)
    requires Known(s)
    ensures Known(Step(s, act))
  {
    hide Rel, Broken, Step, StoresNull;
    if Broken(s) {
      BrokenStays(s, act);
    } else {
      var a :| Rel(s, a);
      if StoresNull(s, act) {
        StoringBreaks(s, a, act);
      } else {
        Simulation(s, a, act);
      }
    }
  }

  lemma {:induction false} RunKnown(s: State, acts: seq<Action>)
    requires Known(s)
    ensures Known(Final(s, acts))
    decreases |acts|
  {
    hide Known, Step;
    if acts != [] {
      StepKnown(s, acts[0]);
      RunKnown(Step(s, acts[0]), acts[1..]);
    }
  }

  lemma UnsafeBreaks(s: State, a: Abs) returns (acts: seq<Action>)
    requires Rel(s, a) && !SafeNow(s)
    ensures Breaks(s, acts)
  {
    hide Rel, Breaks, ReaderSafe, TailLinked;
    if s.tail == 0 {
      acts := AtHeadBreaks(s, a);
    } else if !TailLinked(s) {
      BreaksNow(s);
      acts := [];
    } else {
      var f :| 0 <= f < |s.pc| && !ReaderSafe(s.pc[f], s.tail);
      acts := ReaderBreaks(s, a, f);
    }
  }

  /** In every state that any schedule reaches: no continuation ever makes tail point to an unlinked node if and
      only if tail is off head and linked, and no front is past the test of tail with the node tail points to or
      with a link it has read as null. */
  lemma SafeIff(before: seq<Action>)
    ensures SafeForever(Final(INIT, before)) <==> SafeNow(Final(INIT, before))
  {
    hide Rel, SizeOk, Step, SafeNow, TailLinked;
    InitSound();
    RunKnown(INIT, before);
    KnownSafeIff(Final(INIT, before));
  }

  lemma KnownSafeIff(s: State)
    requires Known(s)
    ensures SafeForever(s) <==> SafeNow(s)
  {
    if Broken(s) {
      assert !SafeNow(s);
      var acts := BrokenBreaks(s);
      assert !TailLinked(Final(s, acts));
    } else {
      var a :| Rel(s, a);
      hide Rel, TailLinked, ReaderSafe;
      if SafeNow(s) {
        forall acts ensures TailLinked(Final(s, acts)) {
          SafeStays(s, a, acts);
        }
      } else {
        var acts := UnsafeBreaks(s, a);
        assert !TailLinked(Final(s, acts));
      }
    }
  }

  // ---------------------------------------------------------------------------------------------
  // Polling before the first push

  /** A front goes past the test of tail with the first node in its hands while tail is still &head. */
  predicate Careless(s: State, act: Action) {
    act.Exec? && act.t < |s.pc| && s.pc[act.t].FrontTail? && s.pc[act.t].p != 0 && s.tail == 0
  }

  predicate Polite(s: State, acts: seq<Action>)
    decreases |acts|
  {
    acts == [] || (!Careless(s, acts[0]) && Polite(Step(s, acts[0]), acts[1..]))
  }

  ghost predicate PoliteOk(s: State) {
    if s.tail == 0 then forall t :: 0 <= t < |s.pc| ==> !Past(s.pc[t]) else SafeNow(s)
  }

  lemma PoliteMove(s: State, t: nat)
    requires t < |s.pc| && !Past(s.pc[t]) && !Careless(s, Exec(t)) && s.tail == 0
    ensures |Instr(s, t).pc| == |s.pc| && !Past(Instr(s, t).pc[t])
  {
    if IsFront(s.pc[t]) {
      PoliteFront(s, t);
    } else {
      PushesAreSafe(s, t, 0);
      PushStays(s, t);
    }
    hide PushInstr, FrontInstr;
  }

  lemma PoliteFront(s: State, t: nat)
    requires t < |s.pc| && !Past(s.pc[t]) && IsFront(s.pc[t]) && s.tail == 0
    requires s.pc[t].FrontTail? ==> s.pc[t].p == 0
    ensures |FrontInstr(s, t).pc| == |s.pc| && !Past(FrontInstr(s, t).pc[t])
  {
    hide Deref, ValOf;
  }

  lemma PushStays(s: State, t: nat)
    requires t < |s.pc| && !IsFront(s.pc[t])
    ensures |PushInstr(s, t).pc| == |s.pc| && !Past(PushInstr(s, t).pc[t])
  {
  }

  lemma PoliteTail(s: State, act: Action)
    requires s.tail == 0 && (forall t :: 0 <= t < |s.pc| ==> !Past(s.pc[t])) && !Careless(s, act)
    ensures !StoresNull(s, act)
    ensures var s' := Step(s, act);
            && (forall t :: 0 <= t < |s'.pc| ==> !Past(s'.pc[t]))
            && (s'.tail != 0 ==> act.Exec? && act.t < |s.pc| && s.pc[act.t].PushTail? && s'.tail == s.pc[act.t].n)
  {
    if act.Exec? && act.t < |s.pc| {
      PoliteMove(s, act.t);
      TailOnly(s, act.t);
    }
    hide Instr, Careless;
  }

  lemma PoliteStep(s: State, a: Abs, act: Action)
    requires Rel(s, a) && PoliteOk(s) && !Careless(s, act)
    ensures !StoresNull(s, act) && PoliteOk(Step(s, act))
    ensures Legal(a, EventOf(s, act)) && Rel(Step(s, act), Apply(a, EventOf(s, act)))
  {
    if s.tail == 0 {
      PoliteTail(s, act);
      Simulation(s, a, act);
      var s', a' := Step(s, act), Apply(a, EventOf(s, act));
      if s'.tail != 0 {
        assert s.writeLock == By(act.t) && Live(a') == Live(a);
        assert Live(a')[|Live(a')| - 1].node == s'.tail;
        SafeNowIs(s', a');
      }
      hide Rel, Step, SafeNow;
    } else {
      SafeStep(s, a, act);
      hide Rel, SafeNow;
      TailStays(s, act);
    }
  }

  lemma TailStays(s: State, act: Action)
    requires s.tail != 0 && SafeNow(Step(s, act))
    ensures Step(s, act).tail != 0
  {
  }

  lemma {:induction false} RunPolite(s: State, a: Abs, acts: seq<Action>)
    requires Rel(s, a) && PoliteOk(s) && Polite(s, acts)
    ensures Intact(s, acts) && PoliteOk(Final(s, acts))
    decreases |acts|
  {
    hide Rel, PoliteOk, StoresNull, Careless;
    if acts != [] {
      PoliteStep(s, a, acts[0]);
      RunPolite(Step(s, acts[0]), Apply(a, EventOf(s, acts[0])), acts[1..]);
    }
  }

  /** Polling is enough to know: in runs in which no front is careless nothing null is stored, and the queue is
      safe from any state on if and only if tail has moved off head, that is, some push has completed its
      locked section's last store. */
  lemma SafeIffPushed(before: seq<Action>)
    requires Polite(INIT, before)
    ensures Intact(INIT, before)
    ensures SafeForever(Final(INIT, before)) <==> Final(INIT, before).tail != 0
  {
    InitSound();
    assert PoliteOk(INIT);
    hide Rel, SizeOk, Step, SafeForever;
    RunPolite(INIT, EMPTY, before);
    SafeIff(before);
  }

  /** And the first careless step of a run is never safe. */
  lemma CarelessIsUnsafe(before: seq<Action>, f: nat)
    requires Careless(Final(INIT, before), Exec(f))
    ensures !SafeForever(Step(Final(INIT, before), Exec(f)))
  {
    var s := Final(INIT, before);
    assert Step(s, Exec(f)).tail == 0;
    hide Step, SafeForever, TailLinked;
    FinalConcat(INIT, before, [Exec(f)]);
    assert [Exec(f)][1..] == [];
    assert Final(s, [Exec(f)]) == Step(s, Exec(f));
    SafeIff(before + [Exec(f)]);
  }

  /** The smallest unsafe run: thread 0 pushes 7 into the empty queue, thread 1 pops between its two stores. */
  lemma FirstPushRace()
    ensures !TailLinked(Final(INIT, [Spawn, Spawn, CallPush(0, 7, 1, false), Exec(0)] + ([Exec(0)] + Overtake(1, 0))))
  {
    var first := [Spawn, Spawn, CallPush(0, 7, 1, false), Exec(0)];
    Final4(INIT, Spawn, Spawn, CallPush(0, 7, 1, false), Exec(0));
    RaceWindow();
    var s := Final(INIT, first);
    hide Step, TailLinked, Window;
    WindowBreaks(Step(s, Exec(0)), 0, 1);
    BreaksAfter(s, Exec(0), Overtake(1, 0));
    FinalConcat(INIT, first, [Exec(0)] + Overtake(1, 0));
  }

  lemma RaceCalls()
    ensures var s := Step(Step(Step(INIT, Spawn), Spawn), CallPush(0, 7, 1, false));
            s == State(map[1 := 0], map[1 := 7], 0, 0, Free, Free, 0, false, [PushLock(1, false), Idle])
  {
    hide Instr;
  }

  lemma RaceWindow()
    ensures var s := Step(Step(Step(Step(Step(INIT, Spawn), Spawn), CallPush(0, 7, 1, false)), Exec(0)), Exec(0));
            s.pc == [PushTail(1, false), Idle] && s.readLock.Free? && Window(s, 0)
  {
    RaceCalls();
    hide FrontInstr;
    var s := State(map[1 := 0], map[1 := 7], 0, 0, Free, Free, 0, false, [PushLock(1, false), Idle]);
    assert Step(s, Exec(0)).pc == [PushLink(1, false), Idle];
  }
}
