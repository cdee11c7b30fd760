/** Every step of the process machine keeps its invariant.

    Steps that change only the running thread go through ActInv, steps that change another
    slot as well through CalmInv; each needs only the changed slots and their pairs. */
module ProcessSteps {
  import opened Process

  lemma SlotIs(s: State, p: nat)
    requires Sound(s) && p < |s.procs|
    ensures SlotOk(s, p)
  {
  }

  lemma CpuIs(s: State, c: nat)
    requires Sound(s) && c < |s.cpus|
    ensures CpuOk(s, c)
  {
  }

  /** What is known of the thread on CPU c. */
  lemma ThreadIs(s: State, c: nat)
    requires Sound(s) && OnThread(s, c)
    ensures CpuOk(s, c) && SlotOk(s, Cur(s, c))
  {
  }

  /** The running thread changes its own record, and possibly wait_lock and sleep lock l. */
  function Acted(s: State, c: nat, x: Proc, w: Option<nat>, l: nat, y: SleepLock): State
    requires OnThread(s, c)
  {
    var sls := if l < |s.sls| then s.sls[l := y] else s.sls;
    s.(procs := s.procs[Cur(s, c) := x], waitLock := w, sls := sls)
  }

  predicate AsleepOn(x: Proc, ch: Chan) { x.state == Sleeping && x.chan == ch }

  /** Such a change that other slots cannot object to. */
  ghost predicate Polite(s: State, c: nat, x: Proc, w: Option<nat>, l: nat, y: SleepLock)
    requires OnThread(s, c)
  {
    var p := Cur(s, c);
    var o := s.procs[p];
    && x.cpu == o.cpu && x.pid == o.pid && x.parent == o.parent && x.maker == o.maker && x.frozen == o.frozen
    && (Forking(Work(o.pc)) || Forking(Work(x.pc)) ==> Work(x.pc) == Work(o.pc) && !o.pc.ForkSetup? && !x.pc.ForkSetup?)
    && o.state != Used && x.state != Used && x.state != Unused
    && (x.state == Zombie ==> forall q :: 0 <= q < |s.procs| ==> s.procs[q].parent != Some(p))
    && (InWakeLoop(o.pc) && o.pc.j < |s.procs| ==>
          && x.pc == Bump(o.pc) && !AsleepOn(s.procs[o.pc.j], LoopChan(s, p))
          && w == s.waitLock && (l < |s.sls| ==> y == s.sls[l]))
    && (w == s.waitLock || (HoldsWait(o.pc) && w == None) || (s.waitLock == None && w == Some(c)))
    && (l < |s.sls| ==>
          && (y.spin == s.sls[l].spin || (SpinHeld(o.pc) == Some(l) && y.spin == None)
              || (s.sls[l].spin == None && y.spin == Some(c)))
          && (|| (y.locked == s.sls[l].locked && y.pid == s.sls[l].pid && y.owner == s.sls[l].owner)
              || (!s.sls[l].locked && y.locked && y.owner == p)
              || (s.sls[l].locked && s.sls[l].owner == p && !y.locked && x.pc == RelWake(l, 0) && y.spin == Some(c))))
    && (forall m :: m != l ==> (m in x.owned <==> m in o.owned))
  }

  lemma ActedRun(s: State, c: nat, x: Proc, w: Option<nat>, l: nat, y: SleepLock, q: nat)
    requires Sound(s) && OnThread(s, c) && Polite(s, c, x, w, l, y) && q < |s.procs| && q != Cur(s, c)
    ensures RunOk(Acted(s, c, x, w, l, y), q)
  {
    ThreadIs(s, c);
    SlotIs(s, q);
  }

  lemma ActedTree(s: State, c: nat, x: Proc, w: Option<nat>, l: nat, y: SleepLock, q: nat)
    requires Sound(s) && OnThread(s, c) && Polite(s, c, x, w, l, y) && q < |s.procs| && q != Cur(s, c)
    ensures TreeOk(Acted(s, c, x, w, l, y), q)
  {
    ThreadIs(s, c);
    SlotIs(s, q);
  }

  lemma ActedLock(s: State, c: nat, x: Proc, w: Option<nat>, l: nat, y: SleepLock, q: nat)
    requires Sound(s) && OnThread(s, c) && Polite(s, c, x, w, l, y) && q < |s.procs| && q != Cur(s, c)
    ensures LockOk(Acted(s, c, x, w, l, y), q)
  {
    ThreadIs(s, c);
    SlotIs(s, q);
  }

  /** A sleeper on a lock that the step does not touch, or on the one it does. */
  lemma ActedSleeperOther(s: State, c: nat, x: Proc, w: Option<nat>, l: nat, y: SleepLock, q: nat)
    requires OnThread(s, c) && CpuOk(s, c) && Polite(s, c, x, w, l, y) && q < |s.procs| && q != Cur(s, c) && SleeperOk(s, q)
    requires s.procs[q].state == Sleeping && s.procs[q].chan.LockChan? && s.procs[q].chan.l != l
    ensures SleeperOk(Acted(s, c, x, w, l, y), q)
  {
  }

  lemma ActedSleeperSame(s: State, c: nat, x: Proc, w: Option<nat>, l: nat, y: SleepLock, q: nat)
    requires OnThread(s, c) && CpuOk(s, c) && LockOk(s, Cur(s, c)) && Polite(s, c, x, w, l, y) && q < |s.procs| && q != Cur(s, c) && SleeperOk(s, q)
    requires s.procs[q].state == Sleeping && s.procs[q].chan == LockChan(l)
    ensures SleeperOk(Acted(s, c, x, w, l, y), q)
  {
  }

  lemma ActedSleeper(s: State, c: nat, x: Proc, w: Option<nat>, l: nat, y: SleepLock, q: nat)
    requires Sound(s) && OnThread(s, c) && Polite(s, c, x, w, l, y) && q < |s.procs| && q != Cur(s, c)
    ensures SleeperOk(Acted(s, c, x, w, l, y), q)
  {
    ThreadIs(s, c);
    SlotIs(s, q);
    if s.procs[q].state == Sleeping && s.procs[q].chan.LockChan? {
      if s.procs[q].chan.l == l { ActedSleeperSame(s, c, x, w, l, y, q); } else { ActedSleeperOther(s, c, x, w, l, y, q); }
    }
  }

  lemma ActedPair(s: State, c: nat, x: Proc, w: Option<nat>, l: nat, y: SleepLock, a: nat, b: nat)
    requires Sound(s) && OnThread(s, c) && Polite(s, c, x, w, l, y)
    requires a < |s.procs| && b < |s.procs| && a != Cur(s, c) && b != Cur(s, c)
    ensures PairOk(Acted(s, c, x, w, l, y), a, b)
  {
    assert CpuOk(s, c) && SlotOk(s, Cur(s, c)) && PairOk(s, a, b);
    if s.waitLock.Some? && s.waitLock.value < |s.cpus| { assert CpuOk(s, s.waitLock.value); }
  }

  lemma ActedSpin(s: State, c: nat, x: Proc, w: Option<nat>, l: nat, y: SleepLock, m: nat)
    requires Sound(s) && OnThread(s, c) && Polite(s, c, x, w, l, y) && m < |s.sls| && m != l
    requires SpinHeld(s.procs[Cur(s, c)].pc) != Some(m)
    ensures SpinOk(Acted(s, c, x, w, l, y), m)
  {
    assert CpuOk(s, c) && SlotOk(s, Cur(s, c)) && SpinOk(s, m);
    if s.sls[m].spin.Some? { assert CpuOk(s, s.sls[m].spin.value); }
  }

  const NOLOCK := SleepLock(None, false, 0, 0)

  /** The pairs of slot z survive the step. */
  ghost predicate PairsKept(s: State, t: State, z: nat)
    requires z < |s.procs| && |t.procs| == |s.procs|
  {
    forall q {:trigger PairOk(s, z, q)} ::
      0 <= q < |s.procs| && SlotOk(s, q) && PairOk(s, z, q) && PairOk(s, q, z) ==> PairOk(t, z, q) && PairOk(t, q, z)
  }

  /** A slot whose place in exit and wait concerns nobody else. */
  predicate Private(t: State, p: nat)
    requires p < |t.procs|
  {
    !Exiting(t.procs[p].pc) && !HoldsWait(t.procs[p].pc) && !InWait(t, p) && t.procs[p].state != Zombie
  }

  /** What remains to be checked of the actor itself. */
  ghost predicate ActorOk(s: State, t: State, c: nat, l: nat)
    requires OnThread(s, c)
  {
    && |t.procs| == |s.procs| && |t.sls| == |s.sls|
    && (var y := if l < |s.sls| then t.sls[l] else NOLOCK;
        t == Acted(s, c, t.procs[Cur(s, c)], t.waitLock, l, y) && Polite(s, c, t.procs[Cur(s, c)], t.waitLock, l, y))
    && (SpinHeld(PcOf(s, c)).Some? ==> SpinHeld(PcOf(s, c)).value == l)
    && (t.waitLock == Some(c) ==> HoldsWait(t.procs[Cur(s, c)].pc))
    && SlotOk(t, Cur(s, c))
    && (l < |s.sls| && SpinOk(s, l) ==> SpinOk(t, l))
  }

  lemma ActSlots(s: State, t: State, c: nat, l: nat)
    requires Sound(s) && OnThread(s, c) && ActorOk(s, t, c, l)
    ensures WaitLockOk(t) && (forall q {:trigger SlotOk(t, q)} :: 0 <= q < |t.procs| ==> SlotOk(t, q))
    ensures forall d {:trigger CpuOk(t, d)} :: 0 <= d < |t.cpus| ==> CpuOk(t, d)
    ensures forall m {:trigger SpinOk(t, m)} :: 0 <= m < |t.sls| ==> SpinOk(t, m)
  {
    var p := Cur(s, c);
    var x, w, y := t.procs[p], t.waitLock, if l < |s.sls| then t.sls[l] else NOLOCK;
    assert CpuOk(s, c) && SlotOk(s, p) && (l < |s.sls| ==> SpinOk(s, l));
    forall q | 0 <= q < |t.procs| ensures SlotOk(t, q) {
      if q != p {
        ActedRun(s, c, x, w, l, y, q);
        ActedTree(s, c, x, w, l, y, q);
        ActedLock(s, c, x, w, l, y, q);
        ActedSleeper(s, c, x, w, l, y, q);
      }
    }
    forall d | 0 <= d < |t.cpus| ensures CpuOk(t, d) { assert CpuOk(s, d); }
    forall m | 0 <= m < |t.sls| ensures SpinOk(t, m) { if m != l { ActedSpin(s, c, x, w, l, y, m); } }
    if t.waitLock.Some? && t.waitLock.value < |s.cpus| { assert CpuOk(s, t.waitLock.value); }
  }

  /** A step whose pairs are checked one by one. */
  lemma ActInv(s: State, t: State, c: nat, l: nat)
    requires Sound(s) && OnThread(s, c) && ActorOk(s, t, c, l) && PairsKept(s, t, Cur(s, c))
    ensures Sound(t)
  {
    var p := Cur(s, c);
    ActSlots(s, t, c, l);
    forall a, b | 0 <= a < |t.procs| && 0 <= b < |t.procs| ensures PairOk(t, a, b) {
      SlotIs(s, a);
      SlotIs(s, b);
      assert PairOk(s, a, b) && PairOk(s, b, a);
      if a != p && b != p {
        ActedPair(s, c, t.procs[p], t.waitLock, l, if l < |s.sls| then t.sls[l] else NOLOCK, a, b);
      }
    }
  }

  /** A step that ends where exit and wait are not involved. */
  lemma ActPrivate(s: State, t: State, c: nat, l: nat)
    requires Sound(s) && OnThread(s, c) && ActorOk(s, t, c, l) && Private(t, Cur(s, c))
    ensures Sound(t)
  {
    var p := Cur(s, c);
    ThreadIs(s, c);
    forall q | 0 <= q < |s.procs| && SlotOk(s, q) && PairOk(s, p, q) && PairOk(s, q, p)
      ensures PairOk(t, p, q) && PairOk(t, q, p)
    {
    }
    ActInv(s, t, c, l);
  }

  /** A thread in the middle of kernel code, holding none of the process locks. */
  predicate Active(pc: Pc) {
    !pc.NoThread? && !pc.ForkRet? && !pc.AtSched? && !pc.Saved? && !Forking(pc)
  }

  /** Steps that move the thread on and at most take or drop wait_lock. */
  predicate CanGo(s: State, c: nat, pc: Pc, w: Option<nat>)
    requires OnThread(s, c)
  {
    && Active(PcOf(s, c)) && Active(pc) && !pc.Relock?
    && (InWakeLoop(PcOf(s, c)) ==> PcOf(s, c).j >= |s.procs|)
    && SpinHeld(pc) == SpinHeld(PcOf(s, c)) && !pc.RelWake?
    && (w == Some(c)) == HoldsWait(pc)
    && (w == s.waitLock || (HoldsWait(PcOf(s, c)) && w == None) || (s.waitLock == None && w == Some(c)))
    && (Exiting(pc) ==> Cur(s, c) != s.init && s.procs[Cur(s, c)].owned == {})
    && (pc.SleepEntry? ==> SleepArgs(Cur(s, c), pc.chan, pc.lk))
    && (pc.SleepEntry? && pc.lk.SpinLk? ==> pc.lk.l < |s.sls| && s.sls[pc.lk.l].locked)
  }

  lemma GotoSlot(s: State, c: nat, pc: Pc, w: Option<nat>)
    requires Sound(s) && OnThread(s, c) && CanGo(s, c, pc, w)
    ensures SlotOk(Goto(s.(waitLock := w), c, pc), Cur(s, c))
  {
    ThreadIs(s, c);
  }

  lemma GotoActor(s: State, c: nat, pc: Pc, w: Option<nat>)
    requires Sound(s) && OnThread(s, c) && CanGo(s, c, pc, w)
    ensures ActorOk(s, Goto(s.(waitLock := w), c, pc), c, if SpinHeld(pc).Some? then SpinHeld(pc).value else |s.sls|)
  {
    GotoSlot(s, c, pc, w);
    CpuIs(s, c);
    var l := if SpinHeld(pc).Some? then SpinHeld(pc).value else |s.sls|;
    assert l < |s.sls| ==> s.sls[l := s.sls[l]] == s.sls;
  }

  lemma GotoInv(s: State, c: nat, pc: Pc, w: Option<nat>)
    requires Sound(s) && OnThread(s, c) && CanGo(s, c, pc, w)
    requires PairsKept(s, Goto(s.(waitLock := w), c, pc), Cur(s, c))
    ensures Sound(Goto(s.(waitLock := w), c, pc))
  {
    GotoActor(s, c, pc, w);
    ActInv(s, Goto(s.(waitLock := w), c, pc), c, if SpinHeld(pc).Some? then SpinHeld(pc).value else |s.sls|);
  }

  lemma GotoPrivate(s: State, c: nat, pc: Pc, w: Option<nat>)
    requires Sound(s) && OnThread(s, c) && CanGo(s, c, pc, w) && !Exiting(pc) && !HoldsWait(pc)
    ensures Sound(Goto(s.(waitLock := w), c, pc))
  {
    GotoActor(s, c, pc, w);
    ThreadIs(s, c);
    ActPrivate(s, Goto(s.(waitLock := w), c, pc), c, if SpinHeld(pc).Some? then SpinHeld(pc).value else |s.sls|);
  }

  lemma SleepOtherInv(s: State, c: nat, n: nat)
    requires Sound(s) && OnThread(s, c) && PcOf(s, c).User?
    ensures Sound(Goto(s.(waitLock := s.waitLock), c, SleepEntry(Other(n), OtherLk)))
  {
    ThreadIs(s, c);
    GotoPrivate(s, c, SleepEntry(Other(n), OtherLk), s.waitLock);
  }

  /** The thread on CPU c moves on to pc, in exit or wait, and its pairs are as they should be. */
  ghost predicate Moves(s: State, c: nat, pc: Pc, w: Option<nat>) {
    OnThread(s, c) && CpuOk(s, c) && SlotOk(s, Cur(s, c)) && PairsKept(s, Goto(s.(waitLock := w), c, pc), Cur(s, c))
  }

  lemma ExitPairs(s: State, c: nat)
    requires OnThread(s, c) && CpuOk(s, c) && SlotOk(s, Cur(s, c)) && PcOf(s, c).User? && s.waitLock.None?
    ensures Moves(s, c, Reparent(0), Some(c))
  {
  }

  lemma ReparentSkipPairs(s: State, c: nat)
    requires OnThread(s, c) && CpuOk(s, c) && SlotOk(s, Cur(s, c)) && PcOf(s, c).Reparent? && PcOf(s, c).i < |s.procs|
    requires s.procs[PcOf(s, c).i].parent != Some(Cur(s, c))
    ensures Moves(s, c, Reparent(PcOf(s, c).i + 1), s.waitLock)
  {
  }

  lemma ScanPairs(s: State, c: nat)
    requires OnThread(s, c) && CpuOk(s, c) && SlotOk(s, Cur(s, c)) && PcOf(s, c).WaitScan? && PcOf(s, c).i < |s.procs|
    requires !ZombieChild(s, PcOf(s, c).i, Cur(s, c))
    ensures Moves(s, c, NextScan(s, c).procs[Cur(s, c)].pc, s.waitLock)
  {
  }

  lemma ExitInv(s: State, c: nat)
    requires Sound(s) && OnThread(s, c) && PcOf(s, c).User? && s.waitLock.None? && Cur(s, c) != s.init && s.procs[Cur(s, c)].owned == {}
    ensures Sound(Goto(s.(waitLock := Some(c)), c, Reparent(0)))
  {
    ThreadIs(s, c);
    ExitPairs(s, c);
    GotoInv(s, c, Reparent(0), Some(c));
  }

  lemma WaitInv(s: State, c: nat)
    requires Sound(s) && OnThread(s, c) && (PcOf(s, c).User? || PcOf(s, c) == Relock(WaitLk)) && s.waitLock.None?
    ensures Sound(Goto(s.(waitLock := Some(c)), c, WaitScan(0, false)))
  {
    ThreadIs(s, c);
    GotoInv(s, c, WaitScan(0, false), Some(c));
  }

  lemma WaitReturnInv(s: State, c: nat)
    requires Sound(s) && OnThread(s, c) && PcOf(s, c).WaitScan?
    ensures Sound(Goto(s.(waitLock := None), c, User))
  {
    ThreadIs(s, c);
    GotoPrivate(s, c, User, None);
  }

  lemma WaitSleepInv(s: State, c: nat)
    requires Sound(s) && OnThread(s, c) && PcOf(s, c).WaitScan? && PcOf(s, c).i == |s.procs|
    ensures Sound(Goto(s.(waitLock := s.waitLock), c, SleepEntry(ProcChan(Cur(s, c)), WaitLk)))
  {
    ThreadIs(s, c);
    GotoInv(s, c, SleepEntry(ProcChan(Cur(s, c)), WaitLk), s.waitLock);
  }

  lemma ReparentedInv(s: State, c: nat)
    requires Sound(s) && OnThread(s, c) && PcOf(s, c).Reparent? && PcOf(s, c).i >= |s.procs|
    ensures Sound(Goto(s.(waitLock := s.waitLock), c, ExitWake(0)))
  {
    ThreadIs(s, c);
    GotoInv(s, c, ExitWake(0), s.waitLock);
  }

  lemma ReparentSkipInv(s: State, c: nat)
    requires Sound(s) && OnThread(s, c) && PcOf(s, c).Reparent? && PcOf(s, c).i < |s.procs| && s.procs[PcOf(s, c).i].parent != Some(Cur(s, c))
    ensures Sound(Goto(s.(waitLock := s.waitLock), c, Reparent(PcOf(s, c).i + 1)))
  {
    ThreadIs(s, c);
    ReparentSkipPairs(s, c);
    GotoInv(s, c, Reparent(PcOf(s, c).i + 1), s.waitLock);
  }

  lemma InitWokenInv(s: State, c: nat)
    requires Sound(s) && OnThread(s, c) && PcOf(s, c).ReparentWake? && PcOf(s, c).j == |s.procs|
    ensures Sound(Goto(s.(waitLock := s.waitLock), c, Reparent(PcOf(s, c).i + 1)))
  {
    ThreadIs(s, c);
    GotoInv(s, c, Reparent(PcOf(s, c).i + 1), s.waitLock);
  }

  lemma ParentWokenInv(s: State, c: nat)
    requires Sound(s) && OnThread(s, c) && PcOf(s, c).ExitWake? && PcOf(s, c).j == |s.procs|
    ensures Sound(Goto(s.(waitLock := s.waitLock), c, ExitLock))
  {
    ThreadIs(s, c);
    GotoInv(s, c, ExitLock, s.waitLock);
  }

  lemma LockBusyInv(s: State, c: nat)
    requires Sound(s) && OnThread(s, c) && PcOf(s, c).AcqTest? && PcOf(s, c).l < |s.sls| && s.sls[PcOf(s, c).l].locked
    ensures Sound(Goto(s.(waitLock := s.waitLock), c, SleepEntry(LockChan(PcOf(s, c).l), SpinLk(PcOf(s, c).l))))
  {
    ThreadIs(s, c);
    GotoPrivate(s, c, SleepEntry(LockChan(PcOf(s, c).l), SpinLk(PcOf(s, c).l)), s.waitLock);
  }

  lemma RewokenInv(s: State, c: nat)
    requires Sound(s) && OnThread(s, c) && PcOf(s, c) == Relock(OtherLk)
    ensures Sound(Goto(s.(waitLock := s.waitLock), c, User))
  {
    ThreadIs(s, c);
    GotoPrivate(s, c, User, s.waitLock);
  }

  lemma ScanInv(s: State, c: nat)
    requires Sound(s) && OnThread(s, c) && PcOf(s, c).WaitScan? && PcOf(s, c).i < |s.procs|
    requires !ZombieChild(s, PcOf(s, c).i, Cur(s, c))
    ensures Sound(NextScan(s, c))
  {
    ThreadIs(s, c);
    ScanPairs(s, c);
    GotoInv(s, c, NextScan(s, c).procs[Cur(s, c)].pc, s.waitLock);
  }

  lemma AcquireActor(s: State, c: nat, l: nat)
    requires OnThread(s, c) && CpuOk(s, c) && SlotOk(s, Cur(s, c)) && LkFree(s, SpinLk(l)) && (PcOf(s, c).User? || PcOf(s, c) == Relock(SpinLk(l)))
    requires s.waitLock.Some? ==> s.waitLock != Some(c)
    ensures ActorOk(s, Goto(TakeLk(s, SpinLk(l), c), c, AcqTest(l)), c, l)
  {
  }

  /** A thread that is not in exit or wait does not hold wait_lock. */
  lemma NoWaitLock(s: State, c: nat)
    requires Sound(s) && OnThread(s, c) && !HoldsWait(PcOf(s, c))
    ensures s.waitLock != Some(c)
  {
  }

  lemma AcquireInv(s: State, c: nat, l: nat)
    requires Sound(s) && OnThread(s, c) && (PcOf(s, c).User? || PcOf(s, c) == Relock(SpinLk(l))) && LkFree(s, SpinLk(l))
    ensures Sound(Goto(TakeLk(s, SpinLk(l), c), c, AcqTest(l)))
  {
    ThreadIs(s, c);
    NoWaitLock(s, c);
    AcquireActor(s, c, l);
    ActPrivate(s, Goto(TakeLk(s, SpinLk(l), c), c, AcqTest(l)), c, l);
  }

  lemma LockTakenInv(s: State, c: nat)
    requires Sound(s) && OnThread(s, c) && PcOf(s, c).AcqTest? && PcOf(s, c).l < |s.sls| && !s.sls[PcOf(s, c).l].locked
    ensures Sound(NextTestLock(s, c))
  {
    ThreadIs(s, c);
    ActPrivate(s, NextTestLock(s, c), c, PcOf(s, c).l);
  }

  lemma ReleaseInv(s: State, c: nat, l: nat)
    requires Sound(s) && OnThread(s, c) && PcOf(s, c).User? && LkFree(s, SpinLk(l)) && l in s.procs[Cur(s, c)].owned
    ensures Sound(NextRelease(s, c, l))
  {
    ThreadIs(s, c);
    ActPrivate(s, NextRelease(s, c, l), c, l);
  }

  lemma ReleasedInv(s: State, c: nat)
    requires Sound(s) && OnThread(s, c) && PcOf(s, c).RelWake? && PcOf(s, c).j == |s.procs| && PcOf(s, c).l < |s.sls|
    ensures Sound(Goto(FreeLk(s, SpinLk(PcOf(s, c).l)), c, User))
  {
    ThreadIs(s, c);
    ActPrivate(s, Goto(FreeLk(s, SpinLk(PcOf(s, c).l)), c, User), c, PcOf(s, c).l);
  }

  lemma YieldInv(s: State, c: nat)
    requires Sound(s) && OnThread(s, c) && YieldPoint(PcOf(s, c))
    ensures Sound(NextYield(s, c))
  {
    ThreadIs(s, c);
    ActPrivate(s, NextYield(s, c), c, |s.sls|);
  }

  lemma ContinueInv(s: State, c: nat)
    requires Sound(s) && OnThread(s, c) && (PcOf(s, c).ForkRet? || (PcOf(s, c).Saved? && PcOf(s, c).r.FromYield?))
    ensures Sound(NextContinue(s, c))
  {
    ThreadIs(s, c);
    ActPrivate(s, NextContinue(s, c), c, |s.sls|);
  }

  lemma AwakeInv(s: State, c: nat)
    requires Sound(s) && OnThread(s, c) && PcOf(s, c).Saved? && PcOf(s, c).r.FromSleep?
    ensures Sound(NextContinue(s, c))
  {
    ThreadIs(s, c);
    ActPrivate(s, NextContinue(s, c), c, |s.sls|);
  }

  lemma EnterWaitPairs(s: State, c: nat)
    requires OnThread(s, c) && CpuOk(s, c) && SlotOk(s, Cur(s, c)) && PcOf(s, c).SleepEntry? && PcOf(s, c).lk == WaitLk
    ensures PairsKept(s, NextEnterSleep(s, c), Cur(s, c))
  {
  }

  lemma EnterWaitInv(s: State, c: nat)
    requires Sound(s) && OnThread(s, c) && PcOf(s, c).SleepEntry? && PcOf(s, c).lk == WaitLk
    ensures Sound(NextEnterSleep(s, c))
  {
    ThreadIs(s, c);
    EnterWaitPairs(s, c);
    ActInv(s, NextEnterSleep(s, c), c, |s.sls|);
  }

  lemma EnterSpinInv(s: State, c: nat)
    requires Sound(s) && OnThread(s, c) && PcOf(s, c).SleepEntry? && PcOf(s, c).lk.SpinLk? && PcOf(s, c).lk.l < |s.sls|
    ensures Sound(NextEnterSleep(s, c))
  {
    ThreadIs(s, c);
    ActPrivate(s, NextEnterSleep(s, c), c, PcOf(s, c).lk.l);
  }

  lemma EnterOtherInv(s: State, c: nat)
    requires Sound(s) && OnThread(s, c) && PcOf(s, c).SleepEntry? && PcOf(s, c).lk == OtherLk
    ensures Sound(NextEnterSleep(s, c))
  {
    ThreadIs(s, c);
    ActPrivate(s, NextEnterSleep(s, c), c, |s.sls|);
  }

  lemma ExitFinishInv(s: State, c: nat, status: int)
    requires Sound(s) && OnThread(s, c) && PcOf(s, c).ExitLock?
    ensures Sound(NextExitFinish(s, c, status))
  {
    ThreadIs(s, c);
    forall q | 0 <= q < |s.procs| ensures s.procs[q].parent != Some(Cur(s, c)) { assert PairOk(s, Cur(s, c), q); }
    ActInv(s, NextExitFinish(s, c, status), c, |s.sls|);
  }

  predicate Live(st: RunState) { st == Runnable || st == Sleeping || st == Running }

  /** What a change to slot z must leave alone for the slots outside {p, i}. */
  ghost predicate Steady(s: State, t: State, p: nat, i: nat, z: nat)
    requires z < |s.procs| && |t.procs| == |s.procs| && |t.cpus| == |s.cpus|
  {
    var o, x := s.procs[z], t.procs[z];
    && x.owned == o.owned
    && (Live(o.state) ==> Live(x.state) && x.pid == o.pid)
    && (Forking(Work(o.pc)) && Work(o.pc).np != p && Work(o.pc).np != i ==>
          Work(x.pc) == Work(o.pc) && (o.pc.ForkSetup? || x.pc.ForkSetup? ==> x.pc == o.pc && x.cpu == o.cpu))
    && (o.state == Used && o.maker.Some? && o.maker.value != p && o.maker.value != i ==> x.state == Used && x.maker == o.maker)
    && (SpinHeld(o.pc).Some? || HoldsWait(o.pc) ==>
          x.cpu == o.cpu && (o.cpu.Some? && o.cpu.value < |s.cpus| ==> t.cpus[o.cpu.value] == s.cpus[o.cpu.value]))
    && (SpinHeld(o.pc).Some? ==> SpinHeld(x.pc) == SpinHeld(o.pc))
    && (o.pc.RelWake? || o.pc.ReparentWake? ==> x.pc == o.pc)
  }

  /** A step that changes slots p and i, no sleep lock, and no CPU running anything else. */
  ghost predicate Calm(s: State, t: State, p: nat, i: nat) {
    && p < |s.procs| && i < |s.procs|
    && |t.procs| == |s.procs| && |t.cpus| == |s.cpus| && t.sls == s.sls && t.init == s.init && t.nextpid >= s.nextpid
    && (forall q :: 0 <= q < |s.procs| && q != p && q != i ==> t.procs[q] == s.procs[q])
    && Steady(s, t, p, i, p) && Steady(s, t, p, i, i)
    && (forall d :: 0 <= d < |s.cpus| ==>
          t.cpus[d] == s.cpus[d] || s.cpus[d].proc == None || s.cpus[d].proc == Some(p) || s.cpus[d].proc == Some(i))
    && (t.waitLock == s.waitLock || (s.waitLock == s.procs[p].cpu && s.procs[p].pc.WaitScan? && t.waitLock == None))
  }

  lemma CalmRun(s: State, t: State, p: nat, i: nat, q: nat)
    requires Sound(s) && Calm(s, t, p, i) && q < |s.procs| && q != p && q != i
    ensures RunOk(t, q)
  {
    SlotIs(s, q);
  }

  lemma CalmTree(s: State, t: State, p: nat, i: nat, q: nat)
    requires Sound(s) && Calm(s, t, p, i) && q < |s.procs| && q != p && q != i
    ensures TreeOk(t, q)
  {
    SlotIs(s, q);
    SlotIs(s, p);
    SlotIs(s, i);
  }

  lemma CalmLock(s: State, t: State, p: nat, i: nat, q: nat)
    requires Sound(s) && Calm(s, t, p, i) && q < |s.procs| && q != p && q != i
    ensures LockOk(t, q)
  {
    SlotIs(s, q);
    SlotIs(s, p);
  }

  lemma CalmSleeper(s: State, t: State, p: nat, i: nat, q: nat)
    requires Sound(s) && Calm(s, t, p, i) && q < |s.procs| && q != p && q != i
    ensures SleeperOk(t, q)
  {
    SlotIs(s, q);
    if s.procs[q].state == Sleeping && s.procs[q].chan.LockChan? {
      var l := s.procs[q].chan.l;
      if ReleasePending(s, l, q) {
        var d := s.sls[l].spin.value;
        assert CpuOk(s, d) && SlotOk(s, Cur(s, d));
      }
    }
  }

  /** z looks the same to its relatives. */
  predicate SameKin(s: State, t: State, z: nat)
    requires z < |s.procs| && |t.procs| == |s.procs|
  {
    var o, x := s.procs[z], t.procs[z];
    && x.pid == o.pid && x.parent == o.parent
    && (x.state == Zombie <==> o.state == Zombie) && (x.state == Unused <==> o.state == Unused)
    && (InWait(t, z) ==> InWait(s, z))
    && (x.pc == o.pc || (!Exiting(x.pc) && !HoldsWait(x.pc)) || (x.pc == Saved(Dead) && o.pc == AtSched(Dead)))
  }

  lemma CalmPair(s: State, t: State, p: nat, i: nat, a: nat, b: nat)
    requires Sound(s) && Calm(s, t, p, i) && a < |s.procs| && b < |s.procs|
    requires SameKin(s, t, a) && SameKin(s, t, b)
    ensures PairOk(t, a, b)
  {
    assert PairOk(s, a, b);
    if WakePending(s, a) {
      var d := s.waitLock.value;
      assert CpuOk(s, d) && SlotOk(s, Cur(s, d));
      assert SlotOk(s, p);
    }
  }

  lemma CalmSpin(s: State, t: State, p: nat, i: nat, l: nat)
    requires Sound(s) && Calm(s, t, p, i) && l < |s.sls|
    ensures SpinOk(t, l)
  {
    assert SpinOk(s, l);
    if s.sls[l].spin.Some? {
      var d := s.sls[l].spin.value;
      assert CpuOk(s, d) && SlotOk(s, Cur(s, d));
    }
  }

  /** What remains to be checked of the two slots themselves. */
  ghost predicate SlotsOk(s: State, t: State, p: nat, i: nat) {
    && Calm(s, t, p, i) && SlotOk(t, p) && SlotOk(t, i) && WaitLockOk(t)
    && (i != p ==> s.procs[i].cpu == t.procs[i].cpu)
    && (forall d :: 0 <= d < |s.cpus| && t.cpus[d] != s.cpus[d] ==> CpuOk(t, d))
    && (s.procs[p].cpu == t.procs[p].cpu || s.procs[p].cpu == None
        || (s.procs[p].cpu.value < |t.cpus| && t.cpus[s.procs[p].cpu.value].proc != Some(p)))
  }

  lemma CalmInv(s: State, t: State, p: nat, i: nat)
    requires Sound(s) && SlotsOk(s, t, p, i)
    requires (SameKin(s, t, p) || PairsKept(s, t, p)) && (SameKin(s, t, i) || PairsKept(s, t, i))
    ensures Sound(t)
  {
    SlotIs(s, p);
    SlotIs(s, i);
    forall q | 0 <= q < |t.procs| ensures SlotOk(t, q) {
      if q != p && q != i {
        CalmRun(s, t, p, i, q);
        CalmTree(s, t, p, i, q);
        CalmLock(s, t, p, i, q);
        CalmSleeper(s, t, p, i, q);
      }
    }
    forall a, b | 0 <= a < |t.procs| && 0 <= b < |t.procs| ensures PairOk(t, a, b) {
      SlotIs(s, a);
      SlotIs(s, b);
      assert PairOk(s, a, b) && PairOk(s, b, a);
      if SameKin(s, t, a) && SameKin(s, t, b) { CalmPair(s, t, p, i, a, b); }
    }
    forall d | 0 <= d < |t.cpus| ensures CpuOk(t, d) { assert CpuOk(s, d); }
    forall l | 0 <= l < |t.sls| ensures SpinOk(t, l) { CalmSpin(s, t, p, i, l); }
  }

  /** A step that the relatives of the two slots cannot see. */
  lemma KinInv(s: State, t: State, p: nat, i: nat)
    requires Sound(s) && SlotsOk(s, t, p, i) && SameKin(s, t, p) && SameKin(s, t, i)
    ensures Sound(t)
  {
    CalmInv(s, t, p, i);
  }

  /** A step that the relatives of p cannot see. */
  lemma MixInv(s: State, t: State, p: nat, i: nat)
    requires Sound(s) && SlotsOk(s, t, p, i) && SameKin(s, t, p) && PairsKept(s, t, i)
    ensures Sound(t)
  {
    CalmInv(s, t, p, i);
  }

  /** Another process marks slot i killed or frozen, or makes it runnable. */
  predicate Touched(o: Proc, x: Proc) {
    && x == o.(killed := x.killed, frozen := x.frozen, state := x.state)
    && (x.state == o.state || (o.state == Sleeping && x.state == Runnable))
  }

  lemma TouchSlot(s: State, i: nat, x: Proc)
    requires FreeSlot(s, i) && SlotOk(s, i) && Touched(s.procs[i], x)
    ensures SlotOk(Put(s, i, x), i) && Calm(s, Put(s, i, x), i, i)
  {
  }

  lemma TouchSlots(s: State, i: nat, x: Proc)
    requires FreeSlot(s, i) && WaitLockOk(s) && Touched(s.procs[i], x) && SlotOk(Put(s, i, x), i) && Calm(s, Put(s, i, x), i, i)
    ensures SlotsOk(s, Put(s, i, x), i, i) && SameKin(s, Put(s, i, x), i)
  {
  }

  lemma TouchInv(s: State, i: nat, x: Proc)
    requires Sound(s) && FreeSlot(s, i) && Touched(s.procs[i], x)
    ensures Sound(Put(s, i, x))
  {
    SlotIs(s, i);
    TouchSlot(s, i, x);
    TouchSlots(s, i, x);
    KinInv(s, Put(s, i, x), i, i);
  }

  /** A wakeup loop moves past slot j, which is not asleep on its channel. */
  lemma BumpActor(s: State, c: nat)
    requires Sound(s) && OnThread(s, c) && InWakeLoop(PcOf(s, c)) && PcOf(s, c).j < |s.procs|
    requires !AsleepOn(s.procs[PcOf(s, c).j], LoopChan(s, Cur(s, c)))
    ensures ActorOk(s, Goto(s, c, Bump(PcOf(s, c))), c, if PcOf(s, c).RelWake? then PcOf(s, c).l else |s.sls|)
  {
    ThreadIs(s, c);
    var l := if PcOf(s, c).RelWake? then PcOf(s, c).l else |s.sls|;
    assert l < |s.sls| ==> s.sls[l := s.sls[l]] == s.sls;
  }

  lemma BumpPair(s: State, c: nat, q: nat)
    requires OnThread(s, c) && CpuOk(s, c) && SlotOk(s, Cur(s, c)) && InWakeLoop(PcOf(s, c)) && PcOf(s, c).j < |s.procs|
    requires !AsleepOn(s.procs[PcOf(s, c).j], LoopChan(s, Cur(s, c))) && q < |s.procs| && SlotOk(s, q)
    requires PairOk(s, Cur(s, c), q) && PairOk(s, q, Cur(s, c))
    ensures var t := Goto(s, c, Bump(PcOf(s, c))); PairOk(t, Cur(s, c), q) && PairOk(t, q, Cur(s, c))
  {
  }

  lemma BumpPairs(s: State, c: nat)
    requires OnThread(s, c) && CpuOk(s, c) && SlotOk(s, Cur(s, c)) && InWakeLoop(PcOf(s, c)) && PcOf(s, c).j < |s.procs|
    requires !AsleepOn(s.procs[PcOf(s, c).j], LoopChan(s, Cur(s, c)))
    ensures PairsKept(s, Goto(s, c, Bump(PcOf(s, c))), Cur(s, c))
  {
    var p, t := Cur(s, c), Goto(s, c, Bump(PcOf(s, c)));
    forall q | 0 <= q < |s.procs| && SlotOk(s, q) && PairOk(s, p, q) && PairOk(s, q, p) ensures PairOk(t, p, q) && PairOk(t, q, p) {
      BumpPair(s, c, q);
    }
  }

  lemma BumpInv(s: State, c: nat)
    requires Sound(s) && OnThread(s, c) && InWakeLoop(PcOf(s, c)) && PcOf(s, c).j < |s.procs|
    requires !AsleepOn(s.procs[PcOf(s, c).j], LoopChan(s, Cur(s, c)))
    ensures Sound(Goto(s, c, Bump(PcOf(s, c))))
  {
    BumpActor(s, c);
    ThreadIs(s, c);
    BumpPairs(s, c);
    ActInv(s, Goto(s, c, Bump(PcOf(s, c))), c, if PcOf(s, c).RelWake? then PcOf(s, c).l else |s.sls|);
  }

  lemma DispatchInv(s: State, c: nat, p: nat)
    requires Sound(s) && c < |s.cpus| && s.cpus[c].proc.None? && FreeSlot(s, p) && s.procs[p].state == Runnable
    ensures Sound(NextDispatch(s, c, p))
  {
    SlotIs(s, p);
    KinInv(s, NextDispatch(s, c, p), p, p);
  }

  lemma UndispatchInv(s: State, c: nat)
    requires Sound(s) && c < |s.cpus| && s.cpus[c].proc.Some? && s.cpus[c].inSched && s.cpus[c].proc.value < |s.procs|
    ensures Sound(NextUndispatch(s, c))
  {
    var p := s.cpus[c].proc.value;
    assert CpuOk(s, c);
    SlotIs(s, p);
    KinInv(s, NextUndispatch(s, c), p, p);
  }

  lemma SchedInv(s: State, c: nat)
    requires Sound(s) && OnThread(s, c) && PcOf(s, c).AtSched?
    ensures Sound(NextSched(s, c))
  {
    ThreadIs(s, c);
    KinInv(s, NextSched(s, c), Cur(s, c), Cur(s, c));
  }

  /** What a step on slot i by the thread on CPU c can start from. */
  ghost predicate Known(s: State, c: nat, i: nat) {
    OnThread(s, c) && i < |s.procs| && CpuOk(s, c) && SlotOk(s, Cur(s, c)) && SlotOk(s, i) && WaitLockOk(s)
  }

  lemma KnownIs(s: State, c: nat, i: nat)
    requires Sound(s) && OnThread(s, c) && i < |s.procs|
    ensures Known(s, c, i)
  {
    ThreadIs(s, c);
    SlotIs(s, i);
  }

  /** exit is about to hand child i to init. */
  ghost predicate Adopts(s: State, c: nat, i: nat) {
    Known(s, c, i) && PcOf(s, c) == Reparent(i) && s.procs[i].parent == Some(Cur(s, c))
  }

  lemma AdoptTarget(s: State, c: nat, i: nat)
    requires Adopts(s, c, i) && s.init < |s.procs| && SlotOk(s, s.init) && PairOk(s, i, s.init)
    ensures SlotOk(NextReparent(s, c), i)
  {
  }

  lemma AdoptActor(s: State, c: nat, i: nat)
    requires Adopts(s, c, i)
    ensures SlotOk(NextReparent(s, c), Cur(s, c))
  {
  }

  lemma AdoptSlots(s: State, c: nat, i: nat)
    requires Adopts(s, c, i) && SlotOk(NextReparent(s, c), Cur(s, c)) && SlotOk(NextReparent(s, c), i)
    ensures SlotsOk(s, NextReparent(s, c), Cur(s, c), i)
  {
  }

  lemma AdoptActorPair(s: State, c: nat, i: nat, q: nat)
    requires Adopts(s, c, i) && q < |s.procs| && SlotOk(s, q) && PairOk(s, Cur(s, c), q) && PairOk(s, q, Cur(s, c))
    ensures PairOk(NextReparent(s, c), Cur(s, c), q) && PairOk(NextReparent(s, c), q, Cur(s, c))
  {
  }

  lemma AdoptChildPair(s: State, c: nat, i: nat, q: nat)
    requires Adopts(s, c, i) && q < |s.procs| && SlotOk(s, q) && PairOk(s, i, q) && PairOk(s, q, i)
    ensures PairOk(NextReparent(s, c), i, q) && PairOk(NextReparent(s, c), q, i)
  {
  }

  lemma AdoptPairs(s: State, c: nat, i: nat)
    requires Adopts(s, c, i)
    ensures PairsKept(s, NextReparent(s, c), Cur(s, c)) && PairsKept(s, NextReparent(s, c), i)
  {
    var p, t := Cur(s, c), NextReparent(s, c);
    forall q | 0 <= q < |s.procs| && SlotOk(s, q) && PairOk(s, p, q) && PairOk(s, q, p) ensures PairOk(t, p, q) && PairOk(t, q, p) {
      AdoptActorPair(s, c, i, q);
    }
    forall q | 0 <= q < |s.procs| && SlotOk(s, q) && PairOk(s, i, q) && PairOk(s, q, i) ensures PairOk(t, i, q) && PairOk(t, q, i) {
      AdoptChildPair(s, c, i, q);
    }
  }

  lemma AdoptInv(s: State, c: nat)
    requires Sound(s) && OnThread(s, c) && PcOf(s, c).Reparent? && PcOf(s, c).i < |s.procs| && s.procs[PcOf(s, c).i].parent == Some(Cur(s, c))
    ensures Sound(NextReparent(s, c))
  {
    var i := PcOf(s, c).i;
    KnownIs(s, c, i);
    SlotIs(s, s.init);
    assert PairOk(s, i, s.init);
    AdoptTarget(s, c, i);
    AdoptActor(s, c, i);
    AdoptSlots(s, c, i);
    AdoptPairs(s, c, i);
    CalmInv(s, NextReparent(s, c), Cur(s, c), i);
  }

  /** wait is about to free zombie child i. */
  ghost predicate ReapsChild(s: State, c: nat, i: nat) {
    Known(s, c, i) && PcOf(s, c).WaitScan? && PcOf(s, c).i == i && FreeSlot(s, i) && ZombieChild(s, i, Cur(s, c))
  }

  lemma ReapTarget(s: State, c: nat, i: nat)
    requires ReapsChild(s, c, i)
    ensures SlotOk(NextReap(s, c, true), i)
  {
  }

  lemma ReapActor(s: State, c: nat, i: nat)
    requires ReapsChild(s, c, i)
    ensures SlotOk(NextReap(s, c, true), Cur(s, c)) && i != Cur(s, c)
  {
  }

  lemma ReapSlots(s: State, c: nat, i: nat)
    requires ReapsChild(s, c, i) && SlotOk(NextReap(s, c, true), Cur(s, c)) && SlotOk(NextReap(s, c, true), i)
    ensures SlotsOk(s, NextReap(s, c, true), Cur(s, c), i) && SameKin(s, NextReap(s, c, true), Cur(s, c))
  {
  }

  lemma ReapPair(s: State, c: nat, i: nat, q: nat)
    requires ReapsChild(s, c, i) && q < |s.procs| && SlotOk(s, q) && PairOk(s, i, q) && PairOk(s, q, i)
    ensures PairOk(NextReap(s, c, true), i, q) && PairOk(NextReap(s, c, true), q, i)
  {
  }

  lemma ReapPairs(s: State, c: nat, i: nat)
    requires ReapsChild(s, c, i)
    ensures PairsKept(s, NextReap(s, c, true), i)
  {
    var t := NextReap(s, c, true);
    forall q | 0 <= q < |s.procs| && SlotOk(s, q) && PairOk(s, i, q) && PairOk(s, q, i) ensures PairOk(t, i, q) && PairOk(t, q, i) {
      ReapPair(s, c, i, q);
    }
  }

  lemma ReapInv(s: State, c: nat)
    requires Sound(s) && OnThread(s, c) && PcOf(s, c).WaitScan? && FreeSlot(s, PcOf(s, c).i) && ZombieChild(s, PcOf(s, c).i, Cur(s, c))
    ensures Sound(NextReap(s, c, true))
  {
    var i := PcOf(s, c).i;
    KnownIs(s, c, i);
    ReapTarget(s, c, i);
    ReapActor(s, c, i);
    ReapSlots(s, c, i);
    ReapPairs(s, c, i);
    MixInv(s, NextReap(s, c, true), Cur(s, c), i);
  }

  /** fork is about to claim slot np. */
  ghost predicate Claims(s: State, c: nat, np: nat) {
    Known(s, c, np) && PcOf(s, c).User? && FreeSlot(s, np) && s.procs[np].state == Unused
  }

  lemma ForkAllocTarget(s: State, c: nat, np: nat)
    requires Claims(s, c, np)
    ensures SlotOk(NextForkAlloc(s, c, np), np)
  {
  }

  lemma ForkAllocActor(s: State, c: nat, np: nat)
    requires Claims(s, c, np)
    ensures SlotOk(NextForkAlloc(s, c, np), Cur(s, c)) && np != Cur(s, c)
  {
  }

  lemma ForkAllocSlots(s: State, c: nat, np: nat)
    requires Claims(s, c, np) && SlotOk(NextForkAlloc(s, c, np), Cur(s, c)) && SlotOk(NextForkAlloc(s, c, np), np)
    ensures SlotsOk(s, NextForkAlloc(s, c, np), Cur(s, c), np) && SameKin(s, NextForkAlloc(s, c, np), Cur(s, c))
  {
  }

  lemma ForkAllocPair(s: State, c: nat, np: nat, q: nat)
    requires Claims(s, c, np) && q < |s.procs| && SlotOk(s, q) && PairOk(s, np, q) && PairOk(s, q, np)
    ensures PairOk(NextForkAlloc(s, c, np), np, q) && PairOk(NextForkAlloc(s, c, np), q, np)
  {
  }

  lemma ForkAllocInv(s: State, c: nat, np: nat)
    requires Sound(s) && OnThread(s, c) && PcOf(s, c).User? && FreeSlot(s, np) && s.procs[np].state == Unused
    ensures Sound(NextForkAlloc(s, c, np))
  {
    var t := NextForkAlloc(s, c, np);
    KnownIs(s, c, np);
    ForkAllocTarget(s, c, np);
    ForkAllocActor(s, c, np);
    ForkAllocSlots(s, c, np);
    forall q | 0 <= q < |s.procs| && SlotOk(s, q) && PairOk(s, np, q) && PairOk(s, q, np) ensures PairOk(t, np, q) && PairOk(t, q, np) {
      ForkAllocPair(s, c, np, q);
    }
    MixInv(s, t, Cur(s, c), np);
  }

  /** The four steps of fork on a child np that is still being made. */
  ghost predicate ForkStep(s: State, c: nat, np: nat, x: Proc, pc: Pc) {
    && Known(s, c, np) && Forking(PcOf(s, c)) && PcOf(s, c).np == np
    && var o := s.procs[np];
       || (PcOf(s, c).ForkSetup? && x == Freed(o) && pc == User)
       || (PcOf(s, c).ForkSetup? && x == o.(lock := None) && pc == ForkParent(np))
       || (PcOf(s, c).ForkParent? && x == o.(parent := Some(Cur(s, c))) && pc == ForkReady(np) && s.waitLock.None?)
       || (PcOf(s, c).ForkReady? && x == o.(state := Runnable, maker := None) && pc == User)
  }

  lemma ForkActor(s: State, c: nat, np: nat, x: Proc, pc: Pc)
    requires ForkStep(s, c, np, x, pc)
    ensures SlotOk(Both(s, c, x, pc), Cur(s, c)) && np != Cur(s, c)
  {
  }

  lemma ForkChild(s: State, c: nat, np: nat, x: Proc, pc: Pc)
    requires ForkStep(s, c, np, x, pc)
    ensures SlotOk(Both(s, c, x, pc), np)
  {
  }

  lemma ForkPair(s: State, c: nat, np: nat, x: Proc, pc: Pc, q: nat)
    requires ForkStep(s, c, np, x, pc) && q < |s.procs| && SlotOk(s, q) && PairOk(s, np, q) && PairOk(s, q, np)
    ensures PairOk(Both(s, c, x, pc), np, q) && PairOk(Both(s, c, x, pc), q, np)
  {
  }

  lemma ForkSteady(s: State, c: nat, np: nat, x: Proc, pc: Pc)
    requires ForkStep(s, c, np, x, pc) && np != Cur(s, c)
    ensures Calm(s, Both(s, c, x, pc), Cur(s, c), np)
  {
  }

  lemma ForkCalm(s: State, c: nat, np: nat, x: Proc, pc: Pc)
    requires ForkStep(s, c, np, x, pc) && np != Cur(s, c) && Calm(s, Both(s, c, x, pc), Cur(s, c), np)
    requires SlotOk(Both(s, c, x, pc), Cur(s, c)) && SlotOk(Both(s, c, x, pc), np)
    ensures SlotsOk(s, Both(s, c, x, pc), Cur(s, c), np) && SameKin(s, Both(s, c, x, pc), Cur(s, c))
  {
  }

  lemma ForkInv(s: State, c: nat, x: Proc, pc: Pc)
    requires Sound(s) && OnThread(s, c) && Forking(PcOf(s, c)) && PcOf(s, c).np < |s.procs|
    requires Known(s, c, PcOf(s, c).np) ==> ForkStep(s, c, PcOf(s, c).np, x, pc)
    ensures Sound(Both(s, c, x, pc))
  {
    var t, np := Both(s, c, x, pc), PcOf(s, c).np;
    KnownIs(s, c, np);
    ForkActor(s, c, np, x, pc);
    ForkChild(s, c, np, x, pc);
    ForkSteady(s, c, np, x, pc);
    ForkCalm(s, c, np, x, pc);
    forall q | 0 <= q < |s.procs| && SlotOk(s, q) && PairOk(s, np, q) && PairOk(s, q, np) ensures PairOk(t, np, q) && PairOk(t, q, np) {
      ForkPair(s, c, np, x, pc, q);
    }
    MixInv(s, t, Cur(s, c), np);
  }

  lemma WakeSlotInv(s: State, c: nat)
    requires Sound(s) && OnThread(s, c) && InWakeLoop(PcOf(s, c)) && PcOf(s, c).j < |s.procs|
    requires PcOf(s, c).j != Cur(s, c) ==> FreeSlot(s, PcOf(s, c).j)
    ensures Sound(NextWakeSlot(s, c))
  {
    var p, j := Cur(s, c), PcOf(s, c).j;
    ThreadIs(s, c);
    if j == p {
      BumpInv(s, c);
    } else {
      var u := Put(s, j, Woken(s.procs[j], LoopChan(s, p)));
      TouchInv(s, j, u.procs[j]);
      BumpInv(u, c);
      assert Goto(u, c, Bump(PcOf(u, c))) == NextWakeSlot(s, c);
    }
  }

  lemma FamilyStepInv(s: State, a: Action, t: State)
    requires Sound(s) && Step(s, a, t)
    requires a.Exit? || a.ExitFinish? || a.Wait? || a.ScanStep? || a.Reap? || a.ForkAlloc?
    ensures Sound(t)
  {
    match a
    case Exit(c) => ExitInv(s, c);
    case ExitFinish(c, status) => ExitFinishInv(s, c, status);
    case Wait(c) => WaitInv(s, c);
    case ScanStep(c) => ScanInv(s, c);
    case Reap(c, copied) => if copied { ReapInv(s, c); } else { WaitReturnInv(s, c); }
    case ForkAlloc(c, np) => ForkAllocInv(s, c, np);
  }

  lemma ForkStepInv(s: State, a: Action, t: State)
    requires Sound(s) && Step(s, a, t) && (a.ForkFail? || a.ForkCopied? || a.SetParent? || a.SetReady?)
    ensures Sound(t)
  {
    var o, np := s.procs[PcOf(s, a.c).np], PcOf(s, a.c).np;
    match a
    case ForkFail(c) => ForkInv(s, c, Freed(o), User);
    case ForkCopied(c) => ForkInv(s, c, o.(lock := None), ForkParent(np));
    case SetParent(c) => ForkInv(s, c, o.(parent := Some(Cur(s, c))), ForkReady(np));
    case SetReady(c) => ForkInv(s, c, o.(state := Runnable, maker := None), User);
  }

  lemma SleepStepInv(s: State, a: Action, t: State)
    requires Sound(s) && Step(s, a, t) && (a.Continue? || a.Reacquire? || a.EnterSleep? || a.TestLock?)
    ensures Sound(t)
  {
    var c := a.c;
    ThreadIs(s, c);
    match PcOf(s, c)
    case ForkRet => ContinueInv(s, c);
    case Saved(r) => if r.FromSleep? { AwakeInv(s, c); } else { ContinueInv(s, c); }
    case Relock(lk) =>
      if lk == WaitLk { WaitInv(s, c); } else if lk == OtherLk { RewokenInv(s, c); } else { AcquireInv(s, c, lk.l); }
    case SleepEntry(_, lk) =>
      if lk == WaitLk { EnterWaitInv(s, c); } else if lk == OtherLk { EnterOtherInv(s, c); } else { EnterSpinInv(s, c); }
    case AcqTest(l) => if s.sls[l].locked { LockBusyInv(s, c); } else { LockTakenInv(s, c); }
  }

  lemma WakeDoneInv(s: State, c: nat, t: State)
    requires Sound(s) && Step(s, WakeDone(c), t)
    ensures Sound(t)
  {
    ThreadIs(s, c);
    match PcOf(s, c)
    case RelWake(_, _) => ReleasedInv(s, c);
    case ReparentWake(_, _) => InitWokenInv(s, c);
    case ExitWake(_) => ParentWokenInv(s, c);
  }

  lemma LoopStepInv(s: State, a: Action, t: State)
    requires Sound(s) && Step(s, a, t) && (a.ScanDone? || a.ReparentStep?)
    ensures Sound(t)
  {
    var c := a.c;
    match PcOf(s, c)
    case WaitScan(_, kids) => if !kids || s.procs[Cur(s, c)].killed { WaitReturnInv(s, c); } else { WaitSleepInv(s, c); }
    case Reparent(i) =>
      if i >= |s.procs| { ReparentedInv(s, c); }
      else if s.procs[i].parent == Some(Cur(s, c)) { AdoptInv(s, c); }
      else { ReparentSkipInv(s, c); }
  }

  lemma RunStepInv(s: State, a: Action, t: State)
    requires Sound(s) && Step(s, a, t) && (a.Dispatch? || a.Undispatch? || a.Yield? || a.Sched? || a.SleepOther?)
    ensures Sound(t)
  {
    match a
    case Dispatch(c, p) => DispatchInv(s, c, p);
    case Undispatch(c) => UndispatchInv(s, c);
    case Yield(c) => YieldInv(s, c);
    case Sched(c) => SchedInv(s, c);
    case SleepOther(c, n) => SleepOtherInv(s, c, n);
  }

  lemma LockStepInv(s: State, a: Action, t: State)
    requires Sound(s) && Step(s, a, t) && (a.Acquire? || a.Release? || a.WakeSlot?)
    ensures Sound(t)
  {
    match a
    case Acquire(c, l) => AcquireInv(s, c, l);
    case Release(c, l) => ReleaseInv(s, c, l);
    case WakeSlot(c) => WakeSlotInv(s, c);
  }

  lemma TouchStepInv(s: State, a: Action, t: State)
    requires Sound(s) && Step(s, a, t) && (a.WakeOther? || a.Kill? || a.Freeze? || a.Unfreeze?)
    ensures Sound(t)
  {
    var i := if a.WakeOther? then a.j else a.i;
    TouchInv(s, i, t.procs[i]);
  }

  /** Every step of every CPU keeps the invariant on dispatch, family and locks. */
  lemma StepSound(s: State, a: Action, t: State)
    requires Sound(s) && Step(s, a, t)
    ensures Sound(t)
  {
    if a.ForkFail? || a.ForkCopied? || a.SetParent? || a.SetReady? { ForkStepInv(s, a, t); }
    else if a.Continue? || a.Reacquire? || a.EnterSleep? || a.TestLock? { SleepStepInv(s, a, t); }
    else if a.WakeDone? { WakeDoneInv(s, a.c, t); }
    else if a.ScanDone? || a.ReparentStep? { LoopStepInv(s, a, t); }
    else if a.Dispatch? || a.Undispatch? || a.Yield? || a.Sched? || a.SleepOther? { RunStepInv(s, a, t); }
    else if a.Acquire? || a.Release? || a.WakeSlot? { LockStepInv(s, a, t); }
    else if a.WakeOther? || a.Kill? || a.Freeze? || a.Unfreeze? { TouchStepInv(s, a, t); }
    else { FamilyStepInv(s, a, t); }
  }
}
