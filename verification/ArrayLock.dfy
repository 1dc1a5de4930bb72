/** util/array_lock.h: one spin lock per bit, eight to a byte.  Any number of threads run lock, unlock and
    try_op one shared-memory access at a time; the compare-and-swap works on the whole byte. */
module ArrayLock {
  import opened BitArray

  /** Where a thread is; `again` tells the retry loops of lock and unlock from a single try_op. */
  datatype Pc =
    | Idle
    | LockSpin(pos: nat)                                 // lock: while (test_bit(pos))
    | UnlockTest(pos: nat)                               // unlock: if (!test_bit(pos))
    | TryTest(pos: nat, on: bool, again: bool)           // try_op: test_bit
    | TryRead(pos: nat, on: bool, again: bool)           // try_op: old = *lock
    | TryCas(pos: nat, on: bool, again: bool, was: bv8, want: bv8)

  /** `holding[t]` are the locks thread t has taken and not released. */
  datatype State = State(bytes: seq<bv8>, len: nat, pc: seq<Pc>, holding: seq<set<nat>>)

  datatype Action =
    | CallLock(t: nat, pos: nat)
    | CallUnlock(t: nat, pos: nat)
    | CallTry(t: nat, pos: nat, on: bool)
    | Exec(t: nat)

  ghost predicate Wf(s: State) {
    && |s.bytes| == s.len / 8 + 1
    && |s.holding| == |s.pc|
    && forall t :: 0 <= t < |s.pc| ==> s.pc[t].Idle? || s.pc[t].pos < s.len
  }

  predicate Bit(s: State, pos: nat)
    requires |s.bytes| == s.len / 8 + 1 && pos < s.len
  {
    BitOf(s.bytes, pos)
  }

  /** try_op did not succeed: lock and unlock start over, a single try_op returns false. */
  function Failed(pc: Pc): Pc
    requires pc.TryTest? || pc.TryCas?
  {
    if !pc.again then Idle else if pc.on then LockSpin(pc.pos) else UnlockTest(pc.pos)
  }

  function Prepare(b: bv8, pc: Pc): Pc
    requires pc.TryRead?
  {
    var o := pc.pos % 8;
    if pc.on then TryCas(pc.pos, true, pc.again, ClearByte(b, o), SetByte(b, o))
    else TryCas(pc.pos, false, pc.again, b, ClearByte(b, o))
  }

  predicate CasSucceeds(s: State, t: nat)
    requires Wf(s) && t < |s.pc|
  {
    s.pc[t].TryCas? && s.bytes[s.pc[t].pos / 8] == s.pc[t].was
  }

  function Instr(s: State, t: nat): State
    requires Wf(s) && t < |s.pc|
  {
    match s.pc[t]
    case Idle => s
    case LockSpin(pos) => if Bit(s, pos) then s else s.(pc := s.pc[t := TryTest(pos, true, true)])
    case UnlockTest(pos) => s.(pc := s.pc[t := if Bit(s, pos) then TryTest(pos, false, true) else Idle])
    case TryTest(pos, on, again) =>
      s.(pc := s.pc[t := if Bit(s, pos) == on then Failed(s.pc[t]) else TryRead(pos, on, again)])
    case TryRead(pos, on, again) => s.(pc := s.pc[t := Prepare(s.bytes[pos / 8], s.pc[t])])
    case TryCas(pos, on, again, was, want) =>
      if CasSucceeds(s, t) then
        s.(bytes := s.bytes[pos / 8 := want],
           pc := s.pc[t := Idle],
           holding := s.holding[t := if on then s.holding[t] + {pos} else s.holding[t] - {pos}])
      else s.(pc := s.pc[t := Failed(s.pc[t])])
  }

  /** Threads release only what they hold; an action its thread cannot take changes nothing. */
  function Step(s: State, a: Action): State
    requires Wf(s)
  {
    match a
    case CallLock(t, pos) =>
      if t < |s.pc| && s.pc[t].Idle? && pos < s.len then s.(pc := s.pc[t := LockSpin(pos)]) else s
    case CallUnlock(t, pos) =>
      if t < |s.pc| && s.pc[t].Idle? && pos in s.holding[t] && pos < s.len
      then s.(pc := s.pc[t := UnlockTest(pos)]) else s
    case CallTry(t, pos, on) =>
      if t < |s.pc| && s.pc[t].Idle? && pos < s.len && (on || pos in s.holding[t])
      then s.(pc := s.pc[t := TryTest(pos, on, false)]) else s
    case Exec(t) => if t < |s.pc| then Instr(s, t) else s
  }

  function Init(len: nat, threads: nat): State {
    State(seq(len / 8 + 1, _ => 0), len, seq(threads, _ => Idle), seq(threads, _ => {}))
  }

  // ---------------------------------------------------------------------------------------------
  // The invariant

  ghost predicate Held(s: State, pos: nat) {
    exists t :: 0 <= t < |s.holding| && pos in s.holding[t]
  }

  ghost predicate PcOk(s: State, t: nat)
    requires Wf(s) && t < |s.pc|
  {
    match s.pc[t]
    case UnlockTest(pos) => pos in s.holding[t]
    case TryTest(pos, on, again) => on || pos in s.holding[t]
    case TryRead(pos, on, again) => on || pos in s.holding[t]
    case TryCas(pos, on, again, was, want) =>
      && (on ==> !TestByte(was, pos % 8) && want == SetByte(was, pos % 8))
      && (!on ==> pos in s.holding[t] && want == ClearByte(was, pos % 8))
    case _ => true
  }

  ghost predicate Inv(s: State) {
    && Wf(s)
    && (forall pos :: 0 <= pos < s.len ==> (Bit(s, pos) <==> Held(s, pos)))
    && (forall t, pos :: 0 <= t < |s.holding| && pos in s.holding[t] ==> pos < s.len)
    && (forall t, u, pos ::
          0 <= t < |s.holding| && 0 <= u < |s.holding| && pos in s.holding[t] && pos in s.holding[u] ==> t == u)
    && (forall t :: 0 <= t < |s.pc| ==> PcOk(s, t))
  }

  lemma InitInv(len: nat, threads: nat)
    ensures Inv(Init(len, threads))
  {
    var s := Init(len, threads);
    forall pos | 0 <= pos < len ensures !Bit(s, pos) && !Held(s, pos) {
      OffsetCases(pos % 8);
    }
  }

  /** A successful compare-and-swap flips exactly the caller's own bit, however the byte changed since
      the caller read it. */
  lemma CasFlipsOwnBit(s: State, t: nat, q: nat)
    requires Inv(s) && t < |s.pc| && CasSucceeds(s, t) && q < s.len
    ensures |Instr(s, t).bytes| == |s.bytes|
    ensures Bit(Instr(s, t), q) == if q == s.pc[t].pos then s.pc[t].on else Bit(s, q)
    ensures Bit(s, s.pc[t].pos) != s.pc[t].on
  {
    assert PcOk(s, t);
    var pc := s.pc[t];
    var idx, o := pc.pos / 8, pc.pos % 8;
    BitAfterWrite(s.bytes, idx, pc.want, q);
    SamePosition(q, pc.pos);
    SetLaw(pc.was, o, q % 8);
    ClearLaw(pc.was, o, q % 8);
    assert !pc.on ==> Held(s, pc.pos);
  }

  lemma CasKeepsInv(s: State, t: nat)
    requires Inv(s) && t < |s.pc| && CasSucceeds(s, t)
    ensures Inv(Instr(s, t))
  {
    var s', pos := Instr(s, t), s.pc[t].pos;
    assert PcOk(s, t);
    CasFlipsOwnBit(s, t, pos);
    assert s.pc[t].on ==> !Held(s, pos);
    forall q | 0 <= q < s'.len ensures Bit(s', q) <==> Held(s', q) {
      CasFlipsOwnBit(s, t, q);
      HeldAfterCas(s, t, q);
    }
    forall u | 0 <= u < |s'.pc| ensures PcOk(s', u) {
      assert PcOk(s, u);
    }
  }

  lemma HeldAfterCas(s: State, t: nat, q: nat)
    requires Inv(s) && t < |s.pc| && CasSucceeds(s, t)
    requires s.pc[t].on ==> !Held(s, s.pc[t].pos)
    ensures Held(Instr(s, t), q) == if q == s.pc[t].pos then s.pc[t].on else Held(s, q)
  {
    assert PcOk(s, t);
    var s', pos := Instr(s, t), s.pc[t].pos;
    if q == pos {
      if s.pc[t].on {
        assert q in s'.holding[t];
      }
    } else {
      if Held(s, q) {
        var u :| 0 <= u < |s.holding| && q in s.holding[u];
        assert q in s'.holding[u];
      }
      if Held(s', q) {
        var u :| 0 <= u < |s'.holding| && q in s'.holding[u];
        assert q in s.holding[u];
      }
    }
  }

  lemma RestKeepsInv(s: State, s': State, t: nat)
    requires Inv(s) && Wf(s') && t < |s.pc| == |s'.pc| && s' == s.(pc := s.pc[t := s'.pc[t]]) && PcOk(s', t)
    ensures Inv(s')
  {
    forall q | 0 <= q < s'.len ensures Bit(s', q) <==> Held(s', q) {
      assert Bit(s, q) <==> Held(s, q);
    }
    forall u | 0 <= u < |s'.pc| ensures PcOk(s', u) {
      assert PcOk(s, u);
    }
  }

  lemma StepKeepsInv(s: State, a: Action)
    requires Inv(s)
    ensures Inv(Step(s, a))
  {
    if a.t < |s.pc| && Step(s, a) != s {
      assert PcOk(s, a.t);
      if a.Exec? && CasSucceeds(s, a.t) {
        CasKeepsInv(s, a.t);
      } else {
        var pc := s.pc[a.t];
        if a.Exec? && pc.TryRead? {
          var b := s.bytes[pc.pos / 8];
          ClearLaw(b, pc.pos % 8, pc.pos % 8);
          SetClearLaw(b, pc.pos % 8);
        }
        RestKeepsInv(s, Step(s, a), a.t);
      }
    }
  }

  /** unlock by the holder never finds its bit clear, and its try_op never gives up on the first test. */
  lemma UnlockNeverRefused(s: State, t: nat)
    requires Inv(s) && t < |s.pc|
    ensures s.pc[t].UnlockTest? ==> Instr(s, t).pc[t] == TryTest(s.pc[t].pos, false, true)
    ensures s.pc[t].TryTest? && !s.pc[t].on ==> Instr(s, t).pc[t].TryRead?
  {
    assert PcOk(s, t);
    if s.pc[t].UnlockTest? || (s.pc[t].TryTest? && !s.pc[t].on) {
      assert Held(s, s.pc[t].pos);
    }
  }

  // ---------------------------------------------------------------------------------------------
  // Which steps commute

  /** Thread t is about to commit to a byte that thread u is about to read, or to compare with a value that
      it holds before the commit or after it. */
  predicate Disturbs(s: State, t: nat, u: nat)
    requires Wf(s) && t < |s.pc| && u < |s.pc|
  {
    && CasSucceeds(s, t)
    && (s.pc[u].TryRead? || s.pc[u].TryCas?)
    && s.pc[u].pos / 8 == s.pc[t].pos / 8
    && (s.pc[u].TryCas? ==> s.pc[u].was == s.bytes[s.pc[t].pos / 8] || s.pc[u].was == s.pc[t].want)
  }

  ghost predicate Commute(s: State, t: nat, u: nat)
    requires Wf(s) && t < |s.pc| && u < |s.pc|
  {
    && Wf(Instr(s, t)) && Wf(Instr(s, u)) && |Instr(s, t).pc| == |Instr(s, u).pc| == |s.pc|
    && Instr(Instr(s, t), u) == Instr(Instr(s, u), t)
  }

  /** What a step of t leaves for the others. */
  lemma StepShape(s: State, t: nat)
    requires Wf(s) && t < |s.pc|
    ensures var s' := Instr(s, t);
            && Wf(s') && s'.len == s.len && |s'.pc| == |s.pc|
            && s'.pc == s.pc[t := s'.pc[t]]
            && s'.holding == s.holding[t := s'.holding[t]]
            && (if CasSucceeds(s, t) then s'.bytes == s.bytes[s.pc[t].pos / 8 := s.pc[t].want] else s'.bytes == s.bytes)
  {
    assert s.pc == s.pc[t := s.pc[t]] && s.holding == s.holding[t := s.holding[t]];
  }

  /** Thread u does the same in s' as in s, apart from what another thread did to the bytes. */
  ghost predicate ActsAlike(s: State, s': State, u: nat)
    requires Wf(s) && Wf(s') && u < |s.pc| == |s'.pc|
  {
    && Instr(s', u).pc[u] == Instr(s, u).pc[u]
    && Instr(s', u).holding[u] == Instr(s, u).holding[u]
    && CasSucceeds(s', u) == CasSucceeds(s, u)
  }

  /** A commit by t goes unnoticed by u: u looks at its own bit, which the commit leaves alone, unless u reads
      the whole byte. */
  lemma UndisturbedActsAlike(s: State, t: nat, u: nat)
    requires Inv(s) && t < |s.pc| && u < |s.pc| && t != u
    requires s.pc[t].Idle? || s.pc[u].Idle? || s.pc[t].pos != s.pc[u].pos
    requires !Disturbs(s, t, u)
    ensures |Instr(s, t).pc| == |s.pc| && Wf(Instr(s, t)) && ActsAlike(s, Instr(s, t), u)
  {
    StepShape(s, t);
    if CasSucceeds(s, t) && !s.pc[u].Idle? {
      CasFlipsOwnBit(s, t, s.pc[u].pos);
    }
  }

  lemma AlikeCommute(s: State, t: nat, u: nat)
    requires Wf(s) && t < |s.pc| && u < |s.pc| && t != u
    requires Wf(Instr(s, t)) && Wf(Instr(s, u)) && |Instr(s, t).pc| == |Instr(s, u).pc| == |s.pc|
    requires ActsAlike(s, Instr(s, t), u) && ActsAlike(s, Instr(s, u), t)
    requires CasSucceeds(s, t) && CasSucceeds(s, u) ==> s.pc[t].pos / 8 != s.pc[u].pos / 8
    ensures Commute(s, t, u)
  {
    StepShape(s, t);
    StepShape(s, u);
    StepShape(Instr(s, t), u);
    StepShape(Instr(s, u), t);
    hide Instr, Wf;
    var st, su := Instr(s, t), Instr(s, u);
    var stu, sut := Instr(st, u), Instr(su, t);
    assert s.pc[t := st.pc[t]][u := su.pc[u]] == s.pc[u := su.pc[u]][t := st.pc[t]];
    assert s.holding[t := st.holding[t]][u := su.holding[u]] == s.holding[u := su.holding[u]][t := st.holding[t]];
    assert stu.bytes == sut.bytes;
  }

  /** The byte after t's commit differs from the one before at t's offset and at no other thread's. */
  lemma CommitShows(s: State, t: nat, u: nat)
    requires Inv(s) && t < |s.pc| && u < |s.pc| && CasSucceeds(s, t) && !s.pc[u].Idle?
    requires s.pc[t].pos != s.pc[u].pos && s.pc[t].pos / 8 == s.pc[u].pos / 8
    ensures var b, want := s.bytes[s.pc[t].pos / 8], s.pc[t].want;
            && s.pc[t].pos % 8 != s.pc[u].pos % 8
            && TestByte(want, s.pc[t].pos % 8) != TestByte(b, s.pc[t].pos % 8)
            && TestByte(want, s.pc[u].pos % 8) == TestByte(b, s.pc[u].pos % 8)
  {
    SamePosition(s.pc[t].pos, s.pc[u].pos);
    CasFlipsOwnBit(s, t, s.pc[t].pos);
    CasFlipsOwnBit(s, t, s.pc[u].pos);
  }

  lemma ReadsDiffer(s: State, t: nat, u: nat)
    requires Inv(s) && t < |s.pc| && u < |s.pc| && t != u && Disturbs(s, t, u) && s.pc[t].pos != s.pc[u].pos
    requires s.pc[u].TryRead?
    ensures !Commute(s, t, u)
  {
    StepShape(s, t);
    StepShape(s, u);
    CommitShows(s, t, u);
    var b, want, o := s.bytes[s.pc[t].pos / 8], s.pc[t].want, s.pc[t].pos % 8;
    ClearLaw(b, s.pc[u].pos % 8, o);
    ClearLaw(want, s.pc[u].pos % 8, o);
    assert Instr(Instr(s, t), u).pc[u] == Prepare(want, s.pc[u]);
    assert Instr(Instr(s, u), t).pc[u] == Prepare(b, s.pc[u]);
    hide TestByte, ClearByte, SetByte;
  }

  lemma ComparesDiffer(s: State, t: nat, u: nat)
    requires Inv(s) && t < |s.pc| && u < |s.pc| && t != u && Disturbs(s, t, u) && s.pc[t].pos != s.pc[u].pos
    requires s.pc[u].TryCas?
    ensures !Commute(s, t, u)
  {
    StepShape(s, t);
    StepShape(s, u);
    StepShape(Instr(s, t), u);
    StepShape(Instr(s, u), t);
    CommitShows(s, t, u);
    var idx, o, o' := s.pc[t].pos / 8, s.pc[t].pos % 8, s.pc[u].pos % 8;
    var b, want, was, w := s.bytes[idx], s.pc[t].want, s.pc[u].was, s.pc[u].want;
    assert TestByte(w, o) == TestByte(was, o) && (was == want ==> TestByte(w, o') != TestByte(was, o')) by {
      WantedByte(s, u, o);
      WantedByte(s, u, o');
      if !s.pc[u].on {
        UnlockSeesBit(s, u);
      }
    }
    assert was == b ==> TestByte(w, o') != TestByte(b, o') by {
      WantedByte(s, u, o');
      if !s.pc[u].on {
        UnlockSeesBit(s, u);
      }
    }
    hide TestByte, ClearByte, SetByte, Inv, PcOk;
    var stu, sut := Instr(Instr(s, t), u), Instr(Instr(s, u), t);
    assert stu.bytes[idx] == if was == want then w else want;
    assert sut.bytes[idx] == if was == b then w else want;
  }

  lemma WantedByte(s: State, u: nat, o: nat)
    requires Inv(s) && u < |s.pc| && s.pc[u].TryCas? && o < 8
    ensures TestByte(s.pc[u].want, o) == if o == s.pc[u].pos % 8 then s.pc[u].on else TestByte(s.pc[u].was, o)
    ensures s.pc[u].on ==> !TestByte(s.pc[u].was, s.pc[u].pos % 8)
  {
    assert PcOk(s, u);
    SetLaw(s.pc[u].was, s.pc[u].pos % 8, o);
    ClearLaw(s.pc[u].was, s.pc[u].pos % 8, o);
  }

  lemma UnlockSeesBit(s: State, u: nat)
    requires Inv(s) && u < |s.pc| && s.pc[u].TryCas? && !s.pc[u].on
    ensures TestByte(s.bytes[s.pc[u].pos / 8], s.pc[u].pos % 8)
  {
    assert PcOk(s, u);
    assert Held(s, s.pc[u].pos);
    assert Bit(s, s.pc[u].pos);
  }

  /** Steps of threads that work on different bits commute, whatever the bits share, exactly when neither
      commits into a byte that the other is about to read or to compare with a value it holds around the
      commit. */
  lemma StepsCommuteIff(s: State, t: nat, u: nat)
    requires Inv(s) && t < |s.pc| && u < |s.pc| && t != u
    requires s.pc[t].Idle? || s.pc[u].Idle? || s.pc[t].pos != s.pc[u].pos
    ensures Commute(s, t, u) <==> !Disturbs(s, t, u) && !Disturbs(s, u, t)
  {
    if Disturbs(s, t, u) {
      DisturbedDiffers(s, t, u);
    } else if Disturbs(s, u, t) {
      DisturbedDiffers(s, u, t);
    } else {
      UndisturbedActsAlike(s, t, u);
      UndisturbedActsAlike(s, u, t);
      AlikeCommute(s, t, u);
    }
  }

  lemma DisturbedDiffers(s: State, t: nat, u: nat)
    requires Inv(s) && t < |s.pc| && u < |s.pc| && t != u && Disturbs(s, t, u) && s.pc[t].pos != s.pc[u].pos
    ensures !Commute(s, t, u)
  {
    if s.pc[u].TryRead? {
      ReadsDiffer(s, t, u);
    } else {
      ComparesDiffer(s, t, u);
    }
  }

  // ---------------------------------------------------------------------------------------------
  // Whole runs

  ghost function Final(s: State, acts: seq<Action>): (s': State)
    requires Inv(s)
    ensures Inv(s')
    decreases |acts|
  {
    if acts == [] then s else
      StepKeepsInv(s, acts[0]);
      Final(Step(s, acts[0]), acts[1..])
  }

  /** Mutual exclusion, in every state any schedule reaches: bit pos is set iff exactly one thread holds pos. */
  lemma BitIffExactlyOneHolder(len: nat, threads: nat, acts: seq<Action>, pos: nat)
    requires pos < len
    ensures Inv(Init(len, threads))
    ensures var s := Final(Init(len, threads), acts);
            && s.len == len
            && Wf(s)
            && (Bit(s, pos) <==> Held(s, pos))
            && (forall t, u ::
                  0 <= t < |s.holding| && 0 <= u < |s.holding| && pos in s.holding[t] && pos in s.holding[u] ==> t == u)
  {
    InitInv(len, threads);
    FinalLen(Init(len, threads), acts);
  }

  lemma {:induction false} FinalLen(s: State, acts: seq<Action>)
    requires Inv(s)
    ensures Final(s, acts).len == s.len && |Final(s, acts).pc| == |s.pc|
    decreases |acts|
  {
    if acts != [] {
      StepKeepsInv(s, acts[0]);
      FinalLen(Step(s, acts[0]), acts[1..]);
    }
  }

  /** Another thread than t commits a compare-and-swap on byte idx at some point of the run. */
  ghost predicate Interfered(s: State, acts: seq<Action>, t: nat, idx: nat)
    requires Inv(s)
    decreases |acts|
  {
    acts != [] && (
      (acts[0].Exec? && acts[0].t != t && acts[0].t < |s.pc| && CasSucceeds(s, acts[0].t)
       && s.pc[acts[0].t].pos / 8 == idx)
      || (StepKeepsInv(s, acts[0]); Interfered(Step(s, acts[0]), acts[1..], t, idx)))
  }

  ghost predicate Waits(acts: seq<Action>, t: nat) {
    forall i :: 0 <= i < |acts| ==> acts[i].t != t
  }

  /** While t waits and nobody commits to the byte, the byte and t's position stay. */
  lemma {:induction false} QuietByte(s: State, acts: seq<Action>, t: nat, idx: nat)
    requires Inv(s) && t < |s.pc| && idx < |s.bytes| && Waits(acts, t) && !Interfered(s, acts, t, idx)
    ensures var s' := Final(s, acts);
            |s'.bytes| == |s.bytes| && |s'.pc| == |s.pc| && s'.bytes[idx] == s.bytes[idx] && s'.pc[t] == s.pc[t]
    decreases |acts|
  {
    if acts != [] {
      StepKeepsInv(s, acts[0]);
      assert acts[0].t != t;
      assert Waits(acts[1..], t);
      QuietByte(Step(s, acts[0]), acts[1..], t, idx);
    }
  }

  /** try_op took its first look in state s and found the bit different from what it wants; later it reads
      the byte again, and later still its compare-and-swap fails.  Then some other thread committed a
      compare-and-swap on that byte after the first look. */
  lemma FailedCasMeansInterference(s: State, before: seq<Action>, between: seq<Action>, t: nat)
    requires Inv(s) && t < |s.pc| && s.pc[t].TryRead? && Bit(s, s.pc[t].pos) != s.pc[t].on
    requires Waits(before, t) && Waits(between, t)
    requires var s1 := Final(s, before);
             && t < |s1.pc| && s1.pc[t] == s.pc[t]
             && Inv(Step(s1, Exec(t)))
             && (var s2 := Final(Step(s1, Exec(t)), between);
                 t < |s2.pc| && s2.pc[t].TryCas? && !CasSucceeds(s2, t) && s2.pc[t].pos == s.pc[t].pos)
    ensures var idx, s1 := s.pc[t].pos / 8, Final(s, before);
            Interfered(s, before, t, idx) || Interfered(Step(s1, Exec(t)), between, t, idx)
  {
    var pos, idx := s.pc[t].pos, s.pc[t].pos / 8;
    var s1 := Final(s, before);
    FinalLen(s, before);
    var s2 := Step(s1, Exec(t));
    if !Interfered(s, before, t, idx) && !Interfered(s2, between, t, idx) {
      QuietByte(s, before, t, idx);
      SetClearLaw(s.bytes[idx], pos % 8);
      assert s2.pc[t] == Prepare(s.bytes[idx], s.pc[t]);
      QuietByte(s2, between, t, idx);
    }
  }

  // ---------------------------------------------------------------------------------------------
  // What a call does between its call and its return

  datatype Op = Lock(pos: nat) | Unlock(pos: nat) | Try(pos: nat, on: bool)

  function CallOf(t: nat, op: Op): Action {
    match op
    case Lock(pos) => CallLock(t, pos)
    case Unlock(pos) => CallUnlock(t, pos)
    case Try(pos, on) => CallTry(t, pos, on)
  }

  /** The bit value the operation is after. */
  function Wanted(op: Op): bool {
    op.Lock? || (op.Try? && op.on)
  }

  predicate Accepts(s: State, t: nat, op: Op)
    requires Wf(s)
  {
    t < |s.pc| && s.pc[t].Idle? && op.pos < s.len && (Wanted(op) || op.pos in s.holding[t])
  }

  predicate InCall(pc: Pc, op: Op) {
    && !pc.Idle? && pc.pos == op.pos
    && match op
       case Lock(pos) => pc.LockSpin? || (!pc.UnlockTest? && pc.on && pc.again)
       case Unlock(pos) => pc.UnlockTest? || (!pc.LockSpin? && !pc.on && pc.again)
       case Try(pos, on) => !pc.LockSpin? && !pc.UnlockTest? && pc.on == on && !pc.again
  }

  /** What the operation returns if the next access of thread t is its last: the first test and a refused unlock
      return false, the compare-and-swap its result.  lock has no result. */
  predicate Answer(s: State, t: nat)
    requires Wf(s) && t < |s.pc|
  {
    match s.pc[t]
    case TryCas(pos, on, again, was, want) => s.bytes[pos / 8] == was
    case _ => false
  }

  /** Thread t is inside its operation at every moment of the run. */
  ghost predicate Busy(s: State, acts: seq<Action>, t: nat)
    requires Inv(s)
    decreases |acts|
  {
    && t < |s.pc| && !s.pc[t].Idle?
    && (acts != [] ==> (StepKeepsInv(s, acts[0]); Busy(Step(s, acts[0]), acts[1..], t)))
  }

  /** No step of thread t in the run changes a bit or what t holds. */
  ghost predicate Harmless(s: State, acts: seq<Action>, t: nat)
    requires Inv(s)
    decreases |acts|
  {
    acts != [] ==>
      && (acts[0].t == t ==> Step(s, acts[0]).bytes == s.bytes && Step(s, acts[0]).holding == s.holding)
      && (StepKeepsInv(s, acts[0]); Harmless(Step(s, acts[0]), acts[1..], t))
  }

  /** An access that is not the last one of its operation. */
  lemma StaysInCall(s: State, t: nat, op: Op)
    requires Inv(s) && t < |s.pc| && InCall(s.pc[t], op) && !Instr(s, t).pc[t].Idle?
    ensures InCall(Instr(s, t).pc[t], op)
    ensures Instr(s, t).bytes == s.bytes && Instr(s, t).holding == s.holding
  {
  }

  lemma {:induction false} BusyInCall(s: State, acts: seq<Action>, t: nat, op: Op)
    requires Inv(s) && Busy(s, acts, t) && InCall(s.pc[t], op)
    ensures var s' := Final(s, acts);
            && t < |s'.pc| == |s.pc| && s'.len == s.len && InCall(s'.pc[t], op)
            && s'.holding[t] == s.holding[t] && Harmless(s, acts, t)
    decreases |acts|
  {
    hide InCall;
    if acts != [] {
      var act := acts[0];
      StepKeepsInv(s, act);
      OneStepInCall(s, act, t, op);
      BusyInCall(Step(s, act), acts[1..], t, op);
    }
  }

  lemma OneStepInCall(s: State, act: Action, t: nat, op: Op)
    requires Inv(s) && t < |s.pc| && InCall(s.pc[t], op)
    requires t < |Step(s, act).pc| && !Step(s, act).pc[t].Idle?
    ensures |Step(s, act).pc| == |s.pc| && Step(s, act).len == s.len && InCall(Step(s, act).pc[t], op)
    ensures Step(s, act).holding[t] == s.holding[t]
    ensures act.t == t ==> Step(s, act).bytes == s.bytes && Step(s, act).holding == s.holding
  {
    if act == Exec(t) {
      StaysInCall(s, t, op);
    }
  }

  /** The last access of an operation: it returns true iff it flips the bit it was called with, and then the
      caller holds the lock or has given it up; otherwise nothing changes.  lock and unlock only return so. */
  lemma LastAccess(s: State, t: nat, op: Op)
    requires Inv(s) && t < |s.pc| && InCall(s.pc[t], op) && op.pos < s.len && Instr(s, t).pc[t].Idle?
    ensures Returned(s, t, op)
  {
    assert PcOk(s, t);
    UnlockNeverRefused(s, t);
    if CasSucceeds(s, t) {
      forall q | 0 <= q < s.len
        ensures Bit(Instr(s, t), q) == if q == op.pos then Wanted(op) else Bit(s, q)
      {
        CasFlipsOwnBit(s, t, q);
      }
      CasFlipsOwnBit(s, t, op.pos);
    }
  }

  ghost predicate Returned(s: State, t: nat, op: Op)
    requires Wf(s) && t < |s.pc| && op.pos < s.len
  {
    var s', ok := Instr(s, t), Answer(s, t);
    && |s'.bytes| == |s.bytes| && s'.len == s.len && t < |s'.holding|
    && (op.Try? || ok)
    && (if ok then
          && Bit(s, op.pos) != Wanted(op)
          && (forall q :: 0 <= q < s.len ==> Bit(s', q) == if q == op.pos then Wanted(op) else Bit(s, q))
          && s'.holding == s.holding[t := if Wanted(op) then s.holding[t] + {op.pos} else s.holding[t] - {op.pos}]
        else s'.bytes == s.bytes && s'.holding == s.holding)
  }

  /** From an accepted call to its return, whatever the other threads do: until the last access the caller changes
      no bit and nothing it holds, and the last access does what the answer says, to the bit of the call alone. */
  lemma CallReturns(s: State, t: nat, op: Op, acts: seq<Action>)
    requires Inv(s) && Accepts(s, t, op)
    requires Inv(Step(s, CallOf(t, op))) && Busy(Step(s, CallOf(t, op)), acts, t)
    ensures var s1 := Step(s, CallOf(t, op));
            && s1.bytes == s.bytes && s1.holding == s.holding && Harmless(s1, acts, t)
            && (var s2 := Final(s1, acts);
                && t < |s2.pc| && op.pos < s2.len && s2.holding[t] == s.holding[t]
                && (Instr(s2, t).pc[t].Idle? ==> Returned(s2, t, op)))
  {
    var s1 := Step(s, CallOf(t, op));
    assert InCall(s1.pc[t], op);
    BusyInCall(s1, acts, t, op);
    var s2 := Final(s1, acts);
    if Instr(s2, t).pc[t].Idle? {
      LastAccess(s2, t, op);
    }
  }

  // ---------------------------------------------------------------------------------------------
  // A thread that runs alone

  function Alone(s: State, t: nat, n: nat): (s': State)
    requires Wf(s) && t < |s.pc|
    ensures Wf(s') && |s'.pc| == |s.pc| && s'.len == s.len
    decreases n
  {
    StepShape(s, t);
    if n == 0 then s else Alone(Instr(s, t), t, n - 1)
  }

  /** The bit is as thread t wants to find it. */
  predicate Ready(s: State, t: nat)
    requires Wf(s) && t < |s.pc| && !s.pc[t].Idle?
  {
    Bit(s, s.pc[t].pos) != (s.pc[t].LockSpin? || (!s.pc[t].UnlockTest? && s.pc[t].on))
  }

  /** How many accesses thread t has left if nobody disturbs it; a stale compare-and-swap costs a new round. */
  function Work(s: State, t: nat): nat
    requires Wf(s) && t < |s.pc|
  {
    match s.pc[t]
    case Idle => 0
    case LockSpin(pos) => 4
    case UnlockTest(pos) => 4
    case TryTest(pos, on, again) => 3
    case TryRead(pos, on, again) => 2
    case TryCas(pos, on, again, was, want) => if CasSucceeds(s, t) || !again then 1 else 5
  }

  lemma AloneProgress(s: State, t: nat)
    requires Inv(s) && t < |s.pc| && !s.pc[t].Idle? && Ready(s, t)
    ensures |Instr(s, t).pc| == |s.pc| && Work(Instr(s, t), t) < Work(s, t)
    ensures !Instr(s, t).pc[t].Idle? ==> Ready(Instr(s, t), t)
  {
    StepShape(s, t);
    if s.pc[t].TryRead? {
      SetClearLaw(s.bytes[s.pc[t].pos / 8], s.pc[t].pos % 8);
    }
  }

  /** While no other thread steps, an operation that finds its bit as it wants it returns within five accesses. */
  lemma {:induction false} AloneReturns(s: State, t: nat, n: nat)
    requires Inv(s) && t < |s.pc| && Work(s, t) <= n && (!s.pc[t].Idle? ==> Ready(s, t))
    ensures Work(s, t) <= 5 && Alone(s, t, n).pc[t].Idle?
    decreases n
  {
    if n > 0 && !s.pc[t].Idle? {
      AloneProgress(s, t);
      StepKeepsInv(s, Exec(t));
      AloneReturns(Instr(s, t), t, n - 1);
    } else if n > 0 {
      AloneReturns(s, t, n - 1);
    }
  }

  /** A single try_op that nobody disturbs returns true iff the bit differs from what it wants; refused, it
      leaves everything as it was. */
  lemma TryAlone(s: State, t: nat, pos: nat, on: bool)
    requires Inv(s) && Accepts(s, t, Try(pos, on))
    ensures var s1 := Step(s, CallTry(t, pos, on));
            if Bit(s, pos) == on then !Answer(s1, t) && Instr(s1, t) == s
            else
              && !Alone(s1, t, 1).pc[t].Idle? && !Alone(s1, t, 2).pc[t].Idle? && Alone(s1, t, 3).pc[t].Idle?
              && Answer(Alone(s1, t, 2), t) && Returned(Alone(s1, t, 2), t, Try(pos, on))
              && Alone(s1, t, 2).bytes == s.bytes && Alone(s1, t, 2).holding == s.holding
  {
    var s1 := Step(s, CallTry(t, pos, on));
    StepKeepsInv(s, CallTry(t, pos, on));
    if Bit(s, pos) == on {
      assert s.pc == s.pc[t := s.pc[t]];
    } else {
      TryThree(s1, t, pos, on);
      hide Instr, Inv;
      assert Alone(s1, t, 1) == Instr(s1, t) && Alone(s1, t, 2) == Instr(Instr(s1, t), t);
      assert Alone(s1, t, 3) == Alone(Instr(s1, t), t, 2) == Alone(Instr(Instr(s1, t), t), t, 1);
    }
  }

  lemma TryThree(s: State, t: nat, pos: nat, on: bool)
    requires Inv(s) && t < |s.pc| && s.pc[t] == TryTest(pos, on, false) && Bit(s, pos) != on
    ensures var s2 := Instr(s, t);
            && Wf(s2) && |s2.pc| == |s.pc| && s2.pc[t].TryRead?
            && (var s3 := Instr(s2, t);
                && Wf(s3) && |s3.pc| == |s.pc| && s3.pc[t].TryCas? && s3.bytes == s.bytes && s3.holding == s.holding
                && s3.len == s.len && Instr(s3, t).pc[t].Idle? && Answer(s3, t) && Returned(s3, t, Try(pos, on)))
  {
    StepKeepsInv(s, Exec(t));
    var s2 := Instr(s, t);
    StepKeepsInv(s2, Exec(t));
    SetClearLaw(s.bytes[pos / 8], pos % 8);
    LastAccess(Instr(s2, t), t, Try(pos, on));
  }

  /** lock that nobody disturbs spins for as long as the bit is set. */
  lemma LockSpins(s: State, t: nat, pos: nat)
    requires Inv(s) && Accepts(s, t, Lock(pos)) && Bit(s, pos)
    ensures Instr(Step(s, CallLock(t, pos)), t) == Step(s, CallLock(t, pos))
  {
  }

  // ---------------------------------------------------------------------------------------------
  // The same machine on a BitArray updated in place

  class Machine {
    const ba: BitArray
    var pc: seq<Pc>
    var holding: seq<set<nat>>

    ghost predicate Valid()
      reads this, ba
    {
      ba.Valid()
    }

    ghost function View(): State
      reads this, ba, ba.bitsBuf
    {
      State(ba.bitsBuf[..], ba.bufLen, pc, holding)
    }

    constructor (len: nat, threads: nat)
      ensures Valid() && Inv(View())
      ensures View().len == len && |View().pc| == threads
      ensures fresh(ba) && fresh(ba.bitsBuf)
    {
      ba := new BitArray(len);
      pc := seq(threads, _ => Idle);
      holding := seq(threads, _ => {});
      new;
      forall pos | 0 <= pos < len ensures !Bit(View(), pos) && !Held(View(), pos) {
        assert !ba.Bits()[pos];
      }
    }

    /** __sync_bool_compare_and_swap on one byte of the buffer. */
    method CompareAndSwap(idx: nat, was: bv8, want: bv8) returns (ok: bool)
      requires idx < ba.bitsBuf.Length
      modifies ba.bitsBuf
      ensures ok == (old(ba.bitsBuf[idx]) == was)
      ensures ba.bitsBuf[..] == if ok then old(ba.bitsBuf[..])[idx := want] else old(ba.bitsBuf[..])
    {
      ok := ba.bitsBuf[idx] == was;
      if ok {
        ba.bitsBuf[idx] := want;
      }
    }

    /** One shared-memory access of thread t. */
    method Exec(t: nat)
      requires Valid() && Wf(View()) && t < |pc|
      modifies this, ba.bitsBuf
      ensures Valid() && View() == Instr(old(View()), t)
    {
      match pc[t]
      case Idle =>
      case LockSpin(pos) =>
        var on := ba.TestBit(pos);
        if !on {
          pc := pc[t := TryTest(pos, true, true)];
        }
      case UnlockTest(pos) =>
        var on := ba.TestBit(pos);
        pc := pc[t := if on then TryTest(pos, false, true) else Idle];
      case TryTest(pos, on, again) =>
        var ret := ba.TestBit(pos);
        pc := pc[t := if ret == on then Failed(pc[t]) else TryRead(pos, on, again)];
      case TryRead(pos, on, again) =>
        var idx, offset := ba.GetPosition(pos);
        var was := ba.bitsBuf[idx];
        var want := was;
        if on {
          was := ClearByte(was, offset);
          want := SetByte(want, offset);
        } else {
          want := ClearByte(want, offset);
        }
        pc := pc[t := TryCas(pos, on, again, was, want)];
      case TryCas(pos, on, again, was, want) =>
        var ok := CompareAndSwap(pos / 8, was, want);
        if ok {
          holding := holding[t := if on then holding[t] + {pos} else holding[t] - {pos}];
          pc := pc[t := Idle];
        } else {
          pc := pc[t := Failed(pc[t])];
        }
    }

    method Take(act: Action)
      requires Valid() && Wf(View())
      modifies this, ba.bitsBuf
      ensures Valid() && View() == Step(old(View()), act)
    {
      match act
      case CallLock(t, pos) =>
        if t < |pc| && pc[t].Idle? && pos < ba.bufLen {
          pc := pc[t := LockSpin(pos)];
        }
      case CallUnlock(t, pos) =>
        if t < |pc| && pc[t].Idle? && pos in holding[t] && pos < ba.bufLen {
          pc := pc[t := UnlockTest(pos)];
        }
      case CallTry(t, pos, on) =>
        if t < |pc| && pc[t].Idle? && pos < ba.bufLen && (on || pos in holding[t]) {
          pc := pc[t := TryTest(pos, on, false)];
        }
      case Exec(t) =>
        if t < |pc| {
          Exec(t);
        }
    }
  }
}
