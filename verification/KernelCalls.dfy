/** What the calls of proc.c and sleeplock.c have done when they return, over whole runs, and that
    no set of them ever waits for one another. */
module KernelCalls {
  import opened Process
  import opened ProcessSteps
  import opened ProcessTheorems
  import Freezer

  /** A process in the middle of a call is not made or freed by others. */
  lemma StaysAt(s: State, a: Action, t: State, p: nat)
    requires Inv(s) && Step(s, a, t) && p < |s.procs| && !Acts(s, a, p)
    requires s.procs[p].state == Running || s.procs[p].state == Runnable || s.procs[p].state == Sleeping
    ensures p < |t.procs| && t.procs[p].pc == s.procs[p].pc && t.procs[p].owned == s.procs[p].owned
  {
    StepFrame(s, a, t, p);
    if Target(s, a) == Some(p) { TargetIs(s, a, t, p); }
  }

  /** Process p is in none of the calls. */
  predicate AtUser(s: State, p: nat) { p < |s.procs| && s.procs[p].pc.User? }

  // ---------------------------------------------------------------- acquiresleep and releasesleep

  /** The thread has called acquiresleep(l) and has not returned. */
  predicate Acquiring(pc: Pc, l: nat) {
    || pc == AcqTest(l) || pc == SleepEntry(LockChan(l), SpinLk(l)) || Work(pc) == Relock(SpinLk(l))
    || ((pc.AtSched? || pc.Saved?) && pc.r == FromSleep(LockChan(l), SpinLk(l)))
  }

  /** acquiresleep's test: the caller returns exactly when the lock was free, and then owns it;
      otherwise it goes to sleep on the lock, the inner lock still held. */
  lemma TestLockIs(s: State, c: nat, t: State)
    requires Inv(s) && Step(s, TestLock(c), t)
    ensures var p := Cur(s, c); var l := PcOf(s, c).l;
            && l < |s.sls| == |t.sls| && p < |t.procs|
            && (t.procs[p].pc.User? <==> !s.sls[l].locked)
            && (t.procs[p].pc.User? ==> l in t.procs[p].owned && t.sls[l].locked && t.sls[l].spin.None?)
            && (!t.procs[p].pc.User? ==> t == Goto(s, c, SleepEntry(LockChan(l), SpinLk(l))) && s.sls[l].spin == Some(c))
  {
    ThreadIs(s, c);
  }

  lemma AcquireFlow(n: nat, a: Action, o: Pc, x: Pc, l: nat)
    requires Flow(n, a, o, x) && Acquiring(o, l)
    ensures Acquiring(x, l) || (a.TestLock? && o == AcqTest(l) && x.User?)
  {
  }

  lemma AcquiringActs(s: State, a: Action, t: State, p: nat, l: nat)
    requires Inv(s) && Step(s, a, t) && Acts(s, a, p) && Acquiring(s.procs[p].pc, l)
    ensures p < |t.procs| && (Acquiring(t.procs[p].pc, l) || (a.TestLock? && t.procs[p].pc.User? && l in t.procs[p].owned))
  {
    FlowIs(s, a, t, p);
    AcquireFlow(|s.procs|, a, s.procs[p].pc, t.procs[p].pc, l);
    if a.TestLock? { TestLockIs(s, a.c, t); }
  }

  lemma AcquiringStep(s: State, a: Action, t: State, p: nat, l: nat)
    requires Inv(s) && Step(s, a, t) && p < |s.procs| && Acquiring(s.procs[p].pc, l)
    ensures p < |t.procs| && (Acquiring(t.procs[p].pc, l) || (t.procs[p].pc.User? && l in t.procs[p].owned))
  {
    SlotIs(s, p);
    if Acts(s, a, p) { AcquiringActs(s, a, t, p, l); } else { StaysAt(s, a, t, p); }
  }

  lemma {:induction false} StillAcquiring(states: seq<State>, acts: seq<Action>, k: nat, m: nat, p: nat, l: nat)
    requires Run(states, acts) && Inv(states[0]) && k <= m < |states| && p < |states[k].procs| && Acquiring(states[k].procs[p].pc, l)
    requires forall j: nat {:trigger AtUser(states[j], p)} :: k < j < m ==> !AtUser(states[j], p)
    ensures p < |states[m].procs|
    ensures Acquiring(states[m].procs[p].pc, l) || (states[m].procs[p].pc.User? && l in states[m].procs[p].owned)
    decreases m
  {
    if k < m {
      var j := m - 1;
      StillAcquiring(states, acts, k, j, p, l);
      RunInv(states, acts, j);
      assert k < j ==> !AtUser(states[j], p);
      AcquiringStep(states[j], acts[j], states[m], p, l);
    }
  }

  /** acquiresleep returns only to the owner: from the call at k, however often the process sleeps,
      is woken for nothing by kill or unfreeze, is preempted or finds the lock taken again, it is
      next back at m with the lock its own and nobody else's. */
  lemma AcquireReturns(states: seq<State>, acts: seq<Action>, k: nat, m: nat, p: nat, l: nat)
    requires Run(states, acts) && Inv(states[0]) && k + 1 < m < |states|
    requires acts[k].Acquire? && acts[k].l == l && Acts(states[k], acts[k], p)
    requires AtUser(states[m], p)
    requires forall j: nat {:trigger AtUser(states[j], p)} :: k < j < m ==> !AtUser(states[j], p)
    ensures l in states[m].procs[p].owned && l < |states[m].sls| && states[m].sls[l].locked
    ensures forall q :: 0 <= q < |states[m].procs| && l in states[m].procs[q].owned ==> q == p
  {
    FlowIs(states[k], acts[k], states[k + 1], p);
    StillAcquiring(states, acts, k + 1, m, p, l);
    RunInv(states, acts, m);
    SlotIs(states[m], p);
    forall q | 0 <= q < |states[m].procs| && l in states[m].procs[q].owned ensures q == p { SleepLockExclusive(states[m], p, q, l); }
  }

  /** releasesleep: the lock is free at once and no longer the caller's. */
  lemma ReleaseIs(s: State, c: nat, l: nat, t: State)
    requires Inv(s) && Step(s, Release(c, l), t)
    ensures l < |t.sls| && !t.sls[l].locked && t.sls[l].spin == Some(c)
    ensures Cur(s, c) < |t.procs| && t.procs[Cur(s, c)].owned == s.procs[Cur(s, c)].owned - {l}
    ensures forall q :: 0 <= q < |t.procs| ==> l !in t.procs[q].owned
  {
    StepInv(s, Release(c, l), t);
    forall q | 0 <= q < |t.procs| ensures l !in t.procs[q].owned { SlotIs(t, q); }
  }

  /** When it returns, nobody is left asleep on the lock and nobody holds it. */
  lemma ReleaseWakesAll(s: State, c: nat, t: State, l: nat, q: nat)
    requires Inv(s) && Step(s, WakeDone(c), t) && OnThread(s, c) && PcOf(s, c).RelWake? && PcOf(s, c).l == l && q < |t.procs|
    ensures l < |t.sls| && !t.sls[l].locked && t.sls[l].spin.None? && l !in t.procs[q].owned
    ensures !(t.procs[q].state == Sleeping && t.procs[q].chan == LockChan(l))
    ensures t.procs[Cur(s, c)].pc.User?
  {
    ThreadIs(s, c);
    CallIs(s, Cur(s, c));
    StepInv(s, WakeDone(c), t);
    SlotIs(t, q);
  }

  // ---------------------------------------------------------------- wait

  /** wait() gives up exactly when the caller is killed or has no child; otherwise it goes to sleep
      on itself, wait_lock still held. */
  lemma WaitGivesUp(s: State, c: nat, t: State)
    requires Inv(s) && Step(s, ScanDone(c), t)
    ensures var p := Cur(s, c);
            && p < |t.procs|
            && (t.procs[p].pc.User? <==> s.procs[p].killed || !exists q: nat :: ChildOf(s, q, p))
            && (t.procs[p].pc.User? ==> t.waitLock.None?)
            && (!t.procs[p].pc.User? ==> t == Goto(s, c, SleepEntry(ProcChan(p), WaitLk)) && t.waitLock == Some(c))
  {
    var p := Cur(s, c);
    ThreadIs(s, c);
    CallIs(s, p);
    if q: nat :| ChildOf(s, q, p) { assert q < s.procs[p].pc.i; }
  }

  /** The thread has called wait() and has not returned. */
  predicate Waiting(pc: Pc, p: nat) {
    || pc.WaitScan? || pc == SleepEntry(ProcChan(p), WaitLk) || Work(pc) == Relock(WaitLk)
    || ((pc.AtSched? || pc.Saved?) && pc.r == FromSleep(ProcChan(p), WaitLk))
  }

  /** wait() returns by reaping a zombie child, or for one of its two reasons. */
  predicate WaitEnds(s: State, a: Action, p: nat) {
    && p < |s.procs| && Acts(s, a, p) && PcOf(s, a.c).WaitScan?
    && ((a.Reap? && PcOf(s, a.c).i < |s.procs| && ZombieChild(s, PcOf(s, a.c).i, p))
        || (a.ScanDone? && (s.procs[p].killed || forall q: nat :: q < |s.procs| ==> s.procs[q].parent != Some(p))))
  }

  lemma WaitFlow(n: nat, a: Action, o: Pc, x: Pc, p: nat)
    requires Flow(n, a, o, x) && Waiting(o, p) && !a.ScanDone?
    ensures Waiting(x, p) || (a.Reap? && o.WaitScan? && x.User?)
  {
  }

  lemma NoChildren(s: State, p: nat)
    requires !exists q: nat :: ChildOf(s, q, p)
    ensures forall q: nat :: q < |s.procs| ==> s.procs[q].parent != Some(p)
  {
    forall q: nat | q < |s.procs| ensures s.procs[q].parent != Some(p) { assert !ChildOf(s, q, p); }
  }

  lemma WaitingActs(s: State, a: Action, t: State, p: nat)
    requires Inv(s) && Step(s, a, t) && Acts(s, a, p) && Waiting(s.procs[p].pc, p)
    ensures p < |t.procs| && (Waiting(t.procs[p].pc, p) || (WaitEnds(s, a, p) && t.procs[p].pc.User?))
  {
    FlowIs(s, a, t, p);
    if a.ScanDone? {
      WaitGivesUp(s, a.c, t);
      if !exists q: nat :: ChildOf(s, q, p) { NoChildren(s, p); }
    } else {
      WaitFlow(|s.procs|, a, s.procs[p].pc, t.procs[p].pc, p);
    }
  }

  lemma WaitingStep(s: State, a: Action, t: State, p: nat)
    requires Inv(s) && Step(s, a, t) && p < |s.procs| && Waiting(s.procs[p].pc, p)
    ensures p < |t.procs| && (Waiting(t.procs[p].pc, p) || (WaitEnds(s, a, p) && t.procs[p].pc.User?))
  {
    SlotIs(s, p);
    if Acts(s, a, p) { WaitingActs(s, a, t, p); } else { StaysAt(s, a, t, p); }
  }

  lemma {:induction false} StillWaiting(states: seq<State>, acts: seq<Action>, k: nat, m: nat, p: nat)
    requires Run(states, acts) && Inv(states[0]) && k <= m < |states| && p < |states[k].procs| && Waiting(states[k].procs[p].pc, p)
    requires forall j: nat {:trigger AtUser(states[j], p)} :: k < j <= m ==> !AtUser(states[j], p)
    ensures p < |states[m].procs| && Waiting(states[m].procs[p].pc, p)
    decreases m
  {
    if k < m {
      var j := m - 1;
      StillWaiting(states, acts, k, j, p);
      RunInv(states, acts, j);
      assert !AtUser(states[m], p);
      WaitingStep(states[j], acts[j], states[m], p);
    }
  }

  lemma WaitStarts(s: State, a: Action, t: State, p: nat)
    requires Step(s, a, t) && a.Wait? && Acts(s, a, p)
    ensures p < |t.procs| && Waiting(t.procs[p].pc, p)
  {
    FlowIs(s, a, t, p);
  }

  /** From the call at k until it is next back at m + 1, through sleep, wakeups of any cause and
      preemption: wait() has reaped a zombie child, or is killed, or has no child. */
  lemma WaitReturns(states: seq<State>, acts: seq<Action>, k: nat, m: nat, p: nat)
    requires Run(states, acts) && Inv(states[0]) && k < m < |acts| && acts[k].Wait? && Acts(states[k], acts[k], p)
    requires AtUser(states[m + 1], p)
    requires forall j: nat {:trigger AtUser(states[j], p)} :: k < j <= m ==> !AtUser(states[j], p)
    ensures WaitEnds(states[m], acts[m], p)
  {
    WaitStarts(states[k], acts[k], states[k + 1], p);
    StillWaiting(states, acts, k + 1, m, p);
    RunInv(states, acts, m);
    WaitingStep(states[m], acts[m], states[m + 1], p);
  }

  // ---------------------------------------------------------------- exit

  /** How many slots exit() has handed over. */
  function HandedTo(pc: Pc, n: nat): nat {
    match pc
    case Reparent(i) => i
    case ReparentWake(i, _) => i + 1
    case _ => n
  }

  predicate InExit(pc: Pc) { pc.Reparent? || pc.ReparentWake? || pc.ExitWake? || pc.ExitLock? }

  /** Slot q has the parent it had in s0, or init if exit() of p has passed it. */
  predicate HandedOver(s0: State, s: State, p: nat, q: nat, n: nat)
    requires q < |s0.procs| == |s.procs|
  {
    s.procs[q].parent == if s0.procs[q].parent == Some(p) && q < n then Some(s0.init) else s0.procs[q].parent
  }

  ghost predicate Handing(s0: State, s: State, p: nat) {
    && p < |s.procs| == |s0.procs| && s.init == s0.init && InExit(s.procs[p].pc)
    && forall q: nat {:trigger HandedOver(s0, s, p, q, HandedTo(s.procs[p].pc, |s.procs|))} :: q < |s.procs| ==>
         HandedOver(s0, s, p, q, HandedTo(s.procs[p].pc, |s.procs|))
  }

  predicate Finishes(s: State, a: Action, p: nat) { a.ExitFinish? && Acts(s, a, p) }

  predicate Exits(s: State, a: Action, p: nat) { a.Exit? && Acts(s, a, p) }

  /** exit() goes on slot by slot. */
  lemma ExitFlow(n: nat, a: Action, o: Pc, x: Pc)
    requires Flow(n, a, o, x) && InExit(o) && !a.ExitFinish?
    ensures InExit(x) && (a.WakeSlot? || a.WakeDone? || a.ReparentStep?)
    ensures if a.ReparentStep? then o.Reparent? && (if o.i < n then HandedTo(x, n) == o.i + 1 else HandedTo(x, n) == n) else HandedTo(x, n) == HandedTo(o, n)
  {
  }

  lemma ExitParent(s: State, a: Action, t: State, p: nat, q: nat)
    requires Step(s, a, t) && Acts(s, a, p) && (a.WakeSlot? || a.WakeDone? || a.ReparentStep?) && q < |s.procs|
    ensures |t.procs| == |s.procs| && t.procs[q].parent == (if a.ReparentStep? && s.procs[p].pc.Reparent? && s.procs[p].pc.i == q && q != p
              && s.procs[q].parent == Some(p) then Some(s.init) else s.procs[q].parent)
  {
  }

  lemma HandingSlot(s0: State, s: State, a: Action, t: State, p: nat, q: nat)
    requires Inv(s) && Step(s, a, t) && Handing(s0, s, p) && Acts(s, a, p) && !a.ExitFinish? && q < |s.procs|
    ensures |t.procs| == |s.procs| && InExit(t.procs[p].pc) && HandedOver(s0, t, p, q, HandedTo(t.procs[p].pc, |t.procs|))
  {
    FlowIs(s, a, t, p);
    ExitFlow(|s.procs|, a, s.procs[p].pc, t.procs[p].pc);
    ExitParent(s, a, t, p, q);
    assert HandedOver(s0, s, p, q, HandedTo(s.procs[p].pc, |s.procs|));
    if q == p { OwnChild(s, p); }
  }

  lemma OwnChild(s: State, p: nat)
    requires Inv(s) && p < |s.procs|
    ensures s.procs[p].parent != Some(p)
  {
    SlotIs(s, p);
  }

  lemma HandingStep(s0: State, s: State, a: Action, t: State, p: nat)
    requires Inv(s) && Step(s, a, t) && Handing(s0, s, p) && !Finishes(s, a, p)
    ensures Handing(s0, t, p)
  {
    StepFrame(s, a, t, p);
    if !Acts(s, a, p) {
      SlotIs(s, p);
      StaysAt(s, a, t, p);
    }
    forall q: nat | q < |s.procs| ensures InExit(t.procs[p].pc) && HandedOver(s0, t, p, q, HandedTo(t.procs[p].pc, |t.procs|)) {
      if Acts(s, a, p) {
        HandingSlot(s0, s, a, t, p, q);
      } else {
        ParentsHeld(s, a, t, p, q);
        assert HandedOver(s0, s, p, q, HandedTo(s.procs[p].pc, |s.procs|));
      }
    }
  }

  lemma ExitStarts(s: State, a: Action, t: State, p: nat)
    requires Step(s, a, t) && Exits(s, a, p)
    ensures Handing(s, t, p)
  {
    FlowIs(s, a, t, p);
    forall q: nat | q < |t.procs| ensures HandedOver(s, t, p, q, 0) { }
  }

  /** The last step, after every slot has been passed. */
  lemma ExitEnds(s0: State, s: State, a: Action, t: State, p: nat, q: nat)
    requires Step(s, a, t) && Finishes(s, a, p) && Handing(s0, s, p) && q < |s.procs|
    ensures |t.procs| == |s.procs| && t.procs[p].state == Zombie && HandedOver(s0, t, p, q, |t.procs|)
  {
    assert HandedOver(s0, s, p, q, HandedTo(s.procs[p].pc, |s.procs|));
  }

  lemma {:induction false} StillHanding(states: seq<State>, acts: seq<Action>, k: nat, m: nat, p: nat)
    requires Run(states, acts) && Inv(states[0]) && k < m < |states| && Exits(states[k], acts[k], p)
    requires forall j: nat {:trigger Finishes(states[j], acts[j], p)} :: k < j < m ==> !Finishes(states[j], acts[j], p)
    ensures Handing(states[k], states[m], p)
    decreases m
  {
    if k + 1 == m {
      ExitStarts(states[k], acts[k], states[m], p);
    } else {
      var j := m - 1;
      StillHanding(states, acts, k, j, p);
      RunInv(states, acts, j);
      assert !Finishes(states[j], acts[j], p);
      HandingStep(states[k], states[j], acts[j], states[m], p);
    }
  }

  /** exit() of p, from its call at k to its last step at m: it is a zombie then, its children are
      init's, and every other process has the parent it had. */
  lemma ExitHandsOver(states: seq<State>, acts: seq<Action>, k: nat, m: nat, p: nat, q: nat)
    requires Run(states, acts) && Inv(states[0]) && k < m < |acts| && Exits(states[k], acts[k], p)
    requires Finishes(states[m], acts[m], p)
    requires forall j: nat {:trigger Finishes(states[j], acts[j], p)} :: k < j < m ==> !Finishes(states[j], acts[j], p)
    requires q < |states[k].procs|
    ensures q < |states[m + 1].procs| && p < |states[m + 1].procs| && states[m + 1].procs[p].state == Zombie
    ensures states[m + 1].procs[q].parent ==
            if states[k].procs[q].parent == Some(p) then Some(states[k].init) else states[k].procs[q].parent
  {
    StillHanding(states, acts, k, m, p);
    ExitEnds(states[k], states[m], acts[m], states[m + 1], p, q);
  }

  // ---------------------------------------------------------------- fork

  /** When fork() returns, the child is runnable, the caller's, has a pid of its own, younger than
      the caller's, and holds no lock. */
  lemma ForkReturns(s: State, c: nat, t: State)
    requires Inv(s) && Step(s, SetReady(c), t)
    ensures OnThread(s, c) && PcOf(s, c).ForkReady? && PcOf(s, c).np < |t.procs| && t.procs[Cur(s, c)].pc.User?
    ensures var x := t.procs[PcOf(s, c).np];
            && x.state == Runnable && x.parent == Some(Cur(s, c)) && x.pc.ForkRet? && x.lock.None? && x.owned == {}
            && s.procs[Cur(s, c)].pid < x.pid < t.nextpid
            && forall q :: 0 <= q < |t.procs| && q != PcOf(s, c).np && t.procs[q].state != Unused ==> t.procs[q].pid != x.pid
  {
    var np := PcOf(s, c).np;
    ThreadIs(s, c);
    SlotIs(s, np);
    StepInv(s, SetReady(c), t);
    forall q | 0 <= q < |t.procs| && q != np && t.procs[q].state != Unused ensures t.procs[q].pid != t.procs[np].pid {
      assert PairOk(t, q, np);
    }
  }

  // ---------------------------------------------------------------- kill, freeze, wakeup

  /** kill marks any slot and makes a sleeping victim runnable, wherever it sleeps. */
  lemma KillIs(s: State, c: nat, i: nat, t: State)
    requires Step(s, Kill(c, i), t)
    ensures i < |t.procs| == |s.procs| && t.procs[i].killed && t.procs[i].state != Sleeping
    ensures t.procs[i].state == (if s.procs[i].state == Sleeping then Runnable else s.procs[i].state)
    ensures t == s.(procs := s.procs[i := s.procs[i].(killed := true, state := t.procs[i].state)])
  {
  }

  lemma KilledMove(s: State, a: Action, t: State, p: nat)
    requires Inv(s) && Step(s, a, t) && p < |s.procs|
    requires s.procs[p].state == Running || s.procs[p].state == Sleeping
    ensures p < |t.procs| && (t.procs[p].killed <==> s.procs[p].killed || Freezer.Kills(a, p))
    ensures s.procs[p].state == Sleeping && Freezer.Kills(a, p) ==> t.procs[p].state != Sleeping
  {
    StepFrame(s, a, t, p);
    if Acts(s, a, p) { KilledActor(s, a, t, p); } else if Target(s, a) == Some(p) { TargetIs(s, a, t, p); }
  }

  lemma KilledActor(s: State, a: Action, t: State, p: nat)
    requires Inv(s) && Step(s, a, t) && Acts(s, a, p)
    ensures p < |t.procs| && (t.procs[p].killed <==> s.procs[p].killed || Freezer.Kills(a, p))
    ensures s.procs[p].state == Sleeping ==> !Freezer.Kills(a, p)
  {
    ThreadIs(s, a.c);
    FlowIs(s, a, t, p);
  }

  predicate Busy(s: State, p: nat) { p < |s.procs| && (s.procs[p].state == Running || s.procs[p].state == Sleeping) }

  predicate Asleep(s: State, p: nat) { p < |s.procs| && s.procs[p].state == Sleeping }

  predicate Killed(s: State, p: nat) { p < |s.procs| && s.procs[p].killed }

  /** While a process runs or sleeps, only kill marks it. */
  lemma {:induction false} KilledSince(states: seq<State>, acts: seq<Action>, k: nat, m: nat, p: nat)
    requires Run(states, acts) && Inv(states[0]) && k <= m < |states|
    requires forall j: nat {:trigger Busy(states[j], p)} :: k <= j <= m ==> Busy(states[j], p)
    ensures Killed(states[m], p) <==> Killed(states[k], p) || Freezer.KilledBetween(acts, p, k, m)
    decreases m
  {
    if k < m {
      var j := m - 1;
      KilledSince(states, acts, k, j, p);
      RunInv(states, acts, j);
      assert Busy(states[j], p);
      KilledMove(states[j], acts[j], states[m], p);
      Freezer.KilledNext(acts, p, k, j);
    }
  }

  /** A kill leaves nobody asleep. */
  lemma {:induction false} NoKillAsleep(states: seq<State>, acts: seq<Action>, k: nat, m: nat, p: nat)
    requires Run(states, acts) && Inv(states[0]) && k <= m < |states|
    requires forall j: nat {:trigger Asleep(states[j], p)} :: k <= j <= m ==> Asleep(states[j], p)
    ensures !Freezer.KilledBetween(acts, p, k, m)
    decreases m
  {
    if k < m {
      var j := m - 1;
      NoKillAsleep(states, acts, k, j, p);
      RunInv(states, acts, j);
      assert Asleep(states[j], p) && Asleep(states[m], p);
      KilledMove(states[j], acts[j], states[m], p);
      Freezer.KilledNext(acts, p, k, j);
    }
  }

  /** A process that waits stays asleep although killed exactly when the kill came after wait() had
      looked at the flag, at d, and before it was asleep, at k. */
  lemma KillMissed(states: seq<State>, acts: seq<Action>, d: nat, k: nat, m: nat, p: nat)
    requires Run(states, acts) && Inv(states[0]) && d < k <= m < |states|
    requires acts[d].ScanDone? && Acts(states[d], acts[d], p) && p < |states[d + 1].procs| && !states[d + 1].procs[p].pc.User?
    requires forall j: nat {:trigger Busy(states[j], p)} :: d < j <= m ==> Busy(states[j], p)
    requires forall j: nat {:trigger Asleep(states[j], p)} :: k <= j <= m ==> Asleep(states[j], p)
    ensures Killed(states[m], p) <==> Freezer.KilledBetween(acts, p, d + 1, k)
  {
    RunInv(states, acts, d);
    NotKilledYet(states[d], acts[d].c, states[d + 1], p);
    KilledSince(states, acts, d + 1, k, p);
    KilledSince(states, acts, k, m, p);
    NoKillAsleep(states, acts, k, m, p);
  }

  lemma NotKilledYet(s: State, c: nat, t: State, p: nat)
    requires Inv(s) && Step(s, ScanDone(c), t) && Cur(s, c) == p && p < |t.procs| && !t.procs[p].pc.User?
    ensures !Killed(t, p)
  {
    WaitGivesUp(s, c, t);
  }

  /** unfreeze clears the flag and makes a sleeper runnable, on whatever it slept. */
  lemma UnfreezeIs(s: State, c: nat, i: nat, t: State)
    requires Step(s, Unfreeze(c, i), t)
    ensures i < |t.procs| == |s.procs| && s.procs[i].frozen && !t.procs[i].frozen && t.procs[i].state != Sleeping
    ensures t.procs[i].state == (if s.procs[i].state == Sleeping then Runnable else s.procs[i].state)
    ensures t == s.(procs := s.procs[i := s.procs[i].(frozen := false, state := t.procs[i].state)])
  {
  }

  predicate HasProcess(x: Proc) { x.state == Used || x.state == Sleeping || x.state == Runnable || x.state == Running }

  /** freeze succeeds on every process that exists, is alive and is not frozen yet, whatever it is
      doing, and on no other; it changes nothing but the flag. */
  lemma FreezeIs(s: State, c: nat, i: nat)
    requires OnThread(s, c) && PcOf(s, c).User? && FreeSlot(s, i)
    ensures HasProcess(s.procs[i]) && !s.procs[i].frozen <==> exists t :: Step(s, Freeze(c, i), t)
    ensures HasProcess(s.procs[i]) && !s.procs[i].frozen ==> Step(s, Freeze(c, i), s.(procs := s.procs[i := s.procs[i].(frozen := true)]))
  {
    if HasProcess(s.procs[i]) && !s.procs[i].frozen { assert Step(s, Freeze(c, i), s.(procs := s.procs[i := s.procs[i].(frozen := true)])); }
  }

  /** The channel a wakeup in progress is for. */
  predicate WakesOn(s: State, p: nat, ch: Chan) {
    && p < |s.procs|
    && match s.procs[p].pc
       case RelWake(l, _) => ch == LockChan(l)
       case ReparentWake(_, _) => ch == ProcChan(s.init)
       case ExitWake(_) => s.procs[p].parent.Some? && ch == ProcChan(s.procs[p].parent.value)
       case _ => false
  }

  /** One turn of a wakeup makes the slot runnable exactly when it is asleep on that channel, and
      leaves it asleep on any other. */
  lemma WakesOnly(s: State, c: nat, t: State, ch: Chan, j: nat)
    requires Inv(s) && Step(s, WakeSlot(c), t) && WakesOn(s, Cur(s, c), ch) && j == PcOf(s, c).j && j != Cur(s, c)
    ensures j < |s.procs| == |t.procs|
    ensures t.procs[j] == if AsleepOn(s.procs[j], ch) then s.procs[j].(state := Runnable) else s.procs[j]
  {
  }

  // ---------------------------------------------------------------- no deadlock

  /** CPU c can go on; being preempted does not count. */
  ghost predicate Moves(s: State, c: nat) {
    exists a: Action, t: State :: Step(s, a, t) && !a.WakeOther? && !a.Dispatch? && !a.Yield? && a.c == c
  }

  lemma MovesBy(s: State, a: Action, t: State)
    requires Step(s, a, t) && !a.WakeOther? && !a.Dispatch? && !a.Yield?
    ensures Moves(s, a.c)
  {
  }

  /** Whoever holds a process's lock is on its way into or out of the scheduler or in fork, and
      waits for nothing. */
  lemma LockedMoves(s: State, j: nat) returns (d: nat)
    requires Inv(s) && j < |s.procs| && s.procs[j].lock.Some?
    ensures Moves(s, d)
  {
    SlotIs(s, j);
    if s.procs[j].cpu.Some? {
      d := s.procs[j].cpu.value;
      SwitchMoves(s, d);
    } else {
      var p := s.procs[j].maker.value;
      SlotIs(s, p);
      d := s.procs[p].cpu.value;
      assert OnThread(s, d) && PcOf(s, d).ForkSetup?;
      MovesBy(s, ForkCopied(d), Both(s, d, s.procs[j].(lock := None), ForkParent(j)));
    }
  }

  lemma SwitchMoves(s: State, c: nat)
    requires Inv(s) && c < |s.cpus| && s.cpus[c].proc.Some?
    requires s.cpus[c].inSched || (OnThread(s, c) && (PcOf(s, c).AtSched? || PcOf(s, c).Saved? || PcOf(s, c).ForkRet?))
    ensures Moves(s, c)
  {
    CpuIs(s, c);
    if s.cpus[c].inSched { MovesBy(s, Undispatch(c), NextUndispatch(s, c)); }
    else if PcOf(s, c).AtSched? { MovesBy(s, Sched(c), NextSched(s, c)); }
    else { MovesBy(s, Continue(c), NextContinue(s, c)); }
  }

  lemma WakeMoves(s: State, c: nat) returns (d: nat)
    requires Inv(s) && OnThread(s, c) && InWakeLoop(PcOf(s, c))
    ensures Moves(s, d)
  {
    d := c;
    CallIs(s, Cur(s, c));
    var j := PcOf(s, c).j;
    if j == |s.procs| { MovesBy(s, WakeDone(c), NextWakeDone(s, c)); }
    else if j == Cur(s, c) || FreeSlot(s, j) { MovesBy(s, WakeSlot(c), NextWakeSlot(s, c)); }
    else { d := LockedMoves(s, j); }
  }

  lemma ScanMoves(s: State, c: nat) returns (d: nat)
    requires Inv(s) && OnThread(s, c) && PcOf(s, c).WaitScan?
    ensures Moves(s, d)
  {
    d := c;
    CallIs(s, Cur(s, c));
    var i := PcOf(s, c).i;
    if i == |s.procs| { MovesBy(s, ScanDone(c), NextScanDone(s, c)); }
    else if s.procs[i].lock.Some? { d := LockedMoves(s, i); }
    else if ZombieChild(s, i, Cur(s, c)) { MovesBy(s, Reap(c, true), NextReap(s, c, true)); }
    else { MovesBy(s, ScanStep(c), NextScan(s, c)); }
  }

  /** A holder of wait_lock or of a sleep lock's inner lock waits for process locks only. */
  lemma HolderMoves(s: State, c: nat) returns (d: nat)
    requires Inv(s) && OnThread(s, c) && (HoldsWait(PcOf(s, c)) || SpinHeld(PcOf(s, c)).Some?)
    ensures Moves(s, d)
  {
    d := c;
    ThreadIs(s, c);
    match PcOf(s, c)
    case AcqTest(_) => MovesBy(s, TestLock(c), NextTestLock(s, c));
    case SleepEntry(_, _) => MovesBy(s, EnterSleep(c), NextEnterSleep(s, c));
    case Reparent(_) => MovesBy(s, ReparentStep(c), NextReparent(s, c));
    case ExitLock => MovesBy(s, ExitFinish(c, 0), NextExitFinish(s, c, 0));
    case WaitScan(_, _) => d := ScanMoves(s, c);
    case _ => d := WakeMoves(s, c);
  }

  lemma WaitLockMoves(s: State) returns (d: nat)
    requires Inv(s) && s.waitLock.Some?
    ensures Moves(s, d)
  {
    d := HolderMoves(s, s.waitLock.value);
  }

  lemma RelockMoves(s: State, c: nat) returns (d: nat)
    requires Inv(s) && OnThread(s, c) && PcOf(s, c).Relock?
    ensures Moves(s, d)
  {
    d := c;
    ThreadIs(s, c);
    var lk := PcOf(s, c).lk;
    if LkFree(s, lk) {
      MovesBy(s, Reacquire(c), NextReacquire(s, c));
    } else if lk == WaitLk {
      d := WaitLockMoves(s);
    } else {
      assert SpinOk(s, lk.l);
      d := HolderMoves(s, s.sls[lk.l].spin.value);
    }
  }

  lemma ForkMoves(s: State, c: nat) returns (d: nat)
    requires Inv(s) && OnThread(s, c) && Forking(PcOf(s, c))
    ensures Moves(s, d)
  {
    d := c;
    ThreadIs(s, c);
    var np := PcOf(s, c).np;
    match PcOf(s, c)
    case ForkSetup(_) => MovesBy(s, ForkCopied(c), Both(s, c, s.procs[np].(lock := None), ForkParent(np)));
    case ForkParent(_) =>
      if s.waitLock.Some? { d := WaitLockMoves(s); }
      else { MovesBy(s, SetParent(c), Both(s, c, s.procs[np].(parent := Some(Cur(s, c))), ForkReady(np))); }
    case ForkReady(_) =>
      if s.procs[np].lock.Some? { d := LockedMoves(s, np); }
      else { MovesBy(s, SetReady(c), Both(s, c, s.procs[np].(state := Runnable, maker := None), User)); }
  }

  /** In every reachable state in which some CPU runs a process, some CPU can go on: p->lock,
      wait_lock and the locks inside sleep locks never wait for one another in a circle. */
  lemma NoDeadlock(s: State, c: nat) returns (d: nat)
    requires Inv(s) && c < |s.cpus| && s.cpus[c].proc.Some?
    ensures Moves(s, d)
  {
    d := c;
    CpuIs(s, c);
    if s.cpus[c].inSched {
      SwitchMoves(s, c);
    } else {
      ThreadIs(s, c);
      var pc := PcOf(s, c);
      if pc.AtSched? || pc.Saved? || pc.ForkRet? { SwitchMoves(s, c); }
      else if pc.User? { MovesBy(s, SleepOther(c, 0), Goto(s, c, SleepEntry(Other(0), OtherLk))); }
      else if pc.Relock? { d := RelockMoves(s, c); }
      else if Forking(pc) { d := ForkMoves(s, c); }
      else if pc.SleepEntry? { MovesBy(s, EnterSleep(c), NextEnterSleep(s, c)); }
      else { d := HolderMoves(s, c); }
    }
  }

  /** An idle CPU can take any runnable process that is not frozen and has left its own CPU. */
  lemma IdleDispatches(s: State, c: nat, p: nat)
    requires Inv(s) && c < |s.cpus| && s.cpus[c].proc.None? && p < |s.procs|
    requires s.procs[p].state == Runnable && s.procs[p].cpu.None? && !s.procs[p].frozen
    ensures Step(s, Dispatch(c, p), NextDispatch(s, c, p))
  {
    SlotIs(s, p);
  }
}
