/** What the process machine guarantees over whole runs. */
module ProcessTheorems {
  import opened Process
  import opened ProcessSteps

  // ---------------------------------------------------------------- runs

  /** After userinit: one runnable process in the init slot, every CPU in its scheduler. */
  predicate Boot(s: State) {
    && s.init < |s.procs| && s.nextpid == 2 && s.waitLock.None?
    && (forall p :: 0 <= p < |s.procs| ==>
          s.procs[p] == if p == s.init
            then Proc(Runnable, NoChan, false, 0, 1, false, None, None, ForkRet, None, None, {})
            else Proc(Unused, NoChan, false, 0, 0, false, None, None, NoThread, None, None, {}))
    && (forall c :: 0 <= c < |s.cpus| ==> s.cpus[c] == Cpu(None, false))
    && (forall l :: 0 <= l < |s.sls| ==> s.sls[l] == SleepLock(None, false, 0, 0))
  }

  lemma BootInv(s: State)
    requires Boot(s)
    ensures Inv(s)
  {
  }

  /** The steps of fork after the child's slot has been claimed. */
  predicate ForkAction(a: Action) { a.ForkFail? || a.ForkCopied? || a.SetParent? || a.SetReady? }

  /** The slot, besides the running thread's own, that a step may change. */
  function Target(s: State, a: Action): Option<nat> {
    match a
    case Dispatch(_, p) => Some(p)
    case Undispatch(c) => if c < |s.cpus| then s.cpus[c].proc else None
    case WakeOther(j) => Some(j)
    case ForkAlloc(_, np) => Some(np)
    case Kill(_, i) => Some(i)
    case Freeze(_, i) => Some(i)
    case Unfreeze(_, i) => Some(i)
    case WakeSlot(c) => if OnThread(s, c) && InWakeLoop(PcOf(s, c)) then Some(PcOf(s, c).j) else None
    case ReparentStep(c) => if OnThread(s, c) && PcOf(s, c).Reparent? then Some(PcOf(s, c).i) else None
    case Reap(c, _) => if OnThread(s, c) && PcOf(s, c).WaitScan? then Some(PcOf(s, c).i) else None
    case _ => if ForkAction(a) && OnThread(s, a.c) && Forking(PcOf(s, a.c)) then Some(PcOf(s, a.c).np) else None
  }

  predicate Acts(s: State, a: Action, i: nat) {
    !a.WakeOther? && !a.Dispatch? && !a.Undispatch? && OnThread(s, a.c) && Cur(s, a.c) == i
  }

  predicate ThreadAction(a: Action) {
    || a.Dispatch? || a.Undispatch? || a.Continue? || a.Yield? || a.Sched? || a.Reacquire? || a.EnterSleep? || a.SleepOther?
    || a.Acquire? || a.TestLock? || a.Release?
  }

  predicate FamilyAction(a: Action) {
    || a.WakeSlot? || a.WakeDone? || a.WakeOther? || a.Exit? || a.ReparentStep? || a.ExitFinish? || a.Wait? || a.ScanStep?
    || a.Reap? || a.ScanDone?
  }

  /** What a step can do to slot i: nothing, unless it is the actor or the target; change the
      flag only by freeze and unfreeze; clear the pid or give it the next one. */
  predicate SlotChange(s: State, a: Action, t: State, i: nat) {
    && i < |s.procs| == |t.procs| && s.nextpid <= t.nextpid && t.init == s.init
    && (Target(s, a) != Some(i) && !Acts(s, a, i) ==> t.procs[i] == s.procs[i])
    && (t.procs[i].frozen == s.procs[i].frozen || (a.Freeze? && a.i == i) || (a.Unfreeze? && a.i == i))
    && (t.procs[i].pid == s.procs[i].pid || t.procs[i].pid == 0 || t.procs[i].pid == s.nextpid)
  }

  lemma ThreadSlot(s: State, a: Action, t: State, i: nat)
    requires Step(s, a, t) && i < |s.procs| && ThreadAction(a)
    ensures SlotChange(s, a, t, i)
  {
  }

  lemma FamilySlot(s: State, a: Action, t: State, i: nat)
    requires Step(s, a, t) && i < |s.procs| && FamilyAction(a)
    ensures SlotChange(s, a, t, i)
  {
  }

  lemma OtherSlot(s: State, a: Action, t: State, i: nat)
    requires Step(s, a, t) && i < |s.procs| && !ThreadAction(a) && !FamilyAction(a)
    ensures SlotChange(s, a, t, i)
  {
  }

  /** A step changes the thread that takes it, its target, and nothing else. */
  lemma StepFrame(s: State, a: Action, t: State, i: nat)
    requires Step(s, a, t) && i < |s.procs|
    ensures SlotChange(s, a, t, i)
  {
    if ThreadAction(a) { ThreadSlot(s, a, t, i); } else if FamilyAction(a) { FamilySlot(s, a, t, i); } else { OtherSlot(s, a, t, i); }
  }

  /** What a step of another thread does to its target. */
  predicate Effect(a: Action, o: Proc, x: Proc) {
    match a
    case Dispatch(c, _) => o.state == Runnable && !o.frozen && x == o.(lock := Some(c), state := Running, cpu := Some(c))
    case Undispatch(_) => o.cpu.Some? && x == o.(lock := None, cpu := None)
    case WakeSlot(_) => x == o || (o.state == Sleeping && x == o.(state := Runnable))
    case WakeOther(_) => o.state == Sleeping && x == o.(state := Runnable)
    case ReparentStep(_) => x == o.(parent := x.parent)
    case Reap(_, copied) => o.state == Zombie && (x == if copied then Freed(o) else o)
    case ForkAlloc(_, _) => o.state == Unused && o.cpu.None? && x == o.(state := Used, pid := x.pid, lock := x.lock, pc := ForkRet, maker := x.maker)
    case ForkFail(_) => o.state == Used && o.lock.Some? && x == Freed(o)
    case ForkCopied(_) => o.state == Used && o.lock.Some? && x == o.(lock := None)
    case SetParent(_) => o.state == Used && x == o.(parent := x.parent)
    case SetReady(_) => o.state == Used && x == o.(state := Runnable, maker := None)
    case Kill(_, _) => x == KilledProc(o)
    case Freeze(_, _) => CanFreeze(o) && x == o.(frozen := true)
    case Unfreeze(_, _) => o.frozen && x == ThawedProc(o)
    case _ => false
  }

  ghost predicate Hits(s: State, a: Action, t: State, i: nat) {
    Inv(s) && Step(s, a, t) && i < |s.procs| && Target(s, a) == Some(i) && !Acts(s, a, i)
  }

  lemma ThreadTarget(s: State, a: Action, t: State, i: nat)
    requires Hits(s, a, t, i) && ThreadAction(a)
    ensures |t.procs| == |s.procs| && Effect(a, s.procs[i], t.procs[i])
  {
    if a.Undispatch? { CpuIs(s, a.c); }
  }

  lemma FamilyTarget(s: State, a: Action, t: State, i: nat)
    requires Hits(s, a, t, i) && FamilyAction(a)
    ensures |t.procs| == |s.procs| && Effect(a, s.procs[i], t.procs[i])
  {
  }

  lemma ForkTarget(s: State, a: Action, t: State, i: nat)
    requires Step(s, a, t) && ForkAction(a) && Known(s, a.c, i) && Target(s, a) == Some(i)
    ensures |t.procs| == |s.procs| && Effect(a, s.procs[i], t.procs[i])
  {
  }

  lemma AllocTarget(s: State, a: Action, t: State, i: nat)
    requires Hits(s, a, t, i) && a.ForkAlloc?
    ensures |t.procs| == |s.procs| && Effect(a, s.procs[i], t.procs[i])
  {
    SlotIs(s, i);
    ThreadIs(s, a.c);
  }

  lemma TargetIs(s: State, a: Action, t: State, i: nat)
    requires Hits(s, a, t, i)
    ensures |t.procs| == |s.procs| && Effect(a, s.procs[i], t.procs[i])
  {
    if ThreadAction(a) { ThreadTarget(s, a, t, i); }
    else if FamilyAction(a) { FamilyTarget(s, a, t, i); }
    else if ForkAction(a) { KnownIs(s, a.c, i); ForkTarget(s, a, t, i); }
    else if a.ForkAlloc? { AllocTarget(s, a, t, i); }
  }

  lemma ActsOnCpu(s: State, a: Action, i: nat)
    requires Inv(s) && Acts(s, a, i)
    ensures i < |s.procs| && s.procs[i].cpu.Some?
  {
    CpuIs(s, a.c);
  }

  /** Where the actor's thread goes; n is the number of slots. */
  predicate Flow(n: nat, a: Action, o: Pc, x: Pc) {
    match a
    case Continue(_) =>
      if o.Saved? && o.r.FromSleep? then x == Relock(o.r.lk)
      else if o.Saved? && o.r.FromYield? then x == o.r.back else (o.Saved? || o.ForkRet?) && x.User?
    case Yield(_) => YieldPoint(o) && x == AtSched(FromYield(o))
    case Sched(_) => o.AtSched? && x == Saved(o.r)
    case Reacquire(_) =>
      o.Relock? && x == (match o.lk case WaitLk => WaitScan(0, false) case SpinLk(l) => AcqTest(l) case OtherLk => User)
    case EnterSleep(_) => o.SleepEntry? && x == AtSched(FromSleep(o.chan, o.lk))
    case SleepOther(_, m) => o.User? && x == SleepEntry(Other(m), OtherLk)
    case Acquire(_, l) => o.User? && x == AcqTest(l)
    case TestLock(_) => o.AcqTest? && (x.User? || x == SleepEntry(LockChan(o.l), SpinLk(o.l)))
    case Release(_, l) => o.User? && x == RelWake(l, 0)
    case WakeSlot(_) => InWakeLoop(o) && o.j < n && x == Bump(o)
    case WakeDone(_) =>
      InWakeLoop(o) && o.j == n && x == if o.RelWake? then User else if o.ReparentWake? then Reparent(o.i + 1) else ExitLock
    case Exit(_) => o.User? && x == Reparent(0)
    case ReparentStep(_) => o.Reparent? && x == if o.i >= n then ExitWake(0) else if x.ReparentWake? then ReparentWake(o.i, 0) else Reparent(o.i + 1)
    case ExitFinish(_, _) => o.ExitLock? && x == AtSched(Dead)
    case Wait(_) => o.User? && x == WaitScan(0, false)
    case ScanStep(_) => o.WaitScan? && o.i < n && x.WaitScan? && x.i == o.i + 1
    case Reap(_, _) => o.WaitScan? && x.User?
    case ScanDone(_) => o.WaitScan? && (x.User? || (x.SleepEntry? && x.chan.ProcChan? && x.lk == WaitLk))
    case ForkAlloc(_, np) => o.User? && x == ForkSetup(np)
    case ForkFail(_) => o.ForkSetup? && x.User?
    case ForkCopied(_) => o.ForkSetup? && x == ForkParent(o.np)
    case SetParent(_) => o.ForkParent? && x == ForkReady(o.np)
    case SetReady(_) => o.ForkReady? && x.User?
    case _ => o.User? && x.User?
  }

  predicate OwnMove(s: State, a: Action, t: State, p: nat)
    requires !a.WakeOther?
  {
    && p < |s.procs| == |t.procs| && Flow(|s.procs|, a, s.procs[p].pc, t.procs[p].pc) && t.procs[p].parent == s.procs[p].parent
    && (t.procs[p].killed <==> s.procs[p].killed || a == Kill(a.c, p))
  }

  lemma ThreadFlow(s: State, a: Action, t: State, p: nat)
    requires Step(s, a, t) && Acts(s, a, p) && ThreadAction(a)
    ensures OwnMove(s, a, t, p)
  {
  }

  lemma FamilyFlow(s: State, a: Action, t: State, p: nat)
    requires Step(s, a, t) && Acts(s, a, p) && FamilyAction(a)
    ensures OwnMove(s, a, t, p)
  {
  }

  lemma OtherFlow(s: State, a: Action, t: State, p: nat)
    requires Step(s, a, t) && Acts(s, a, p) && !ThreadAction(a) && !FamilyAction(a)
    ensures OwnMove(s, a, t, p)
  {
  }

  /** A step takes its own thread along the code and leaves its parent alone. */
  lemma FlowIs(s: State, a: Action, t: State, p: nat)
    requires Step(s, a, t) && Acts(s, a, p)
    ensures OwnMove(s, a, t, p)
  {
    if ThreadAction(a) { ThreadFlow(s, a, t, p); } else if FamilyAction(a) { FamilyFlow(s, a, t, p); } else { OtherFlow(s, a, t, p); }
  }

  // ---------------------------------------------------------------- system calls in progress

  lemma CallIs(s: State, p: nat)
    requires Inv(s) && p < |s.procs|
    ensures CallOk(s, p)
  {
  }

  /** Who may change a parent: fork and exit, under wait_lock, and wait's reaping. */
  predicate MovesParent(s: State, a: Action) {
    || (a.SetParent? && s.waitLock.None?)
    || ((a.ReparentStep? || a.Reap?) && OnThread(s, a.c) && HoldsWait(PcOf(s, a.c)))
  }

  lemma ParentMoves(s: State, a: Action, t: State, q: nat)
    requires Inv(s) && Step(s, a, t) && q < |s.procs|
    ensures q < |t.procs| && (t.procs[q].parent == s.procs[q].parent || MovesParent(s, a))
  {
    StepFrame(s, a, t, q);
    SlotIs(s, q);
    if Acts(s, a, q) {
      FlowIs(s, a, t, q);
    } else if Target(s, a) == Some(q) {
      TargetIs(s, a, t, q);
      if a.ForkFail? { KnownIs(s, a.c, q); }
    }
  }

  /** While a process holds wait_lock, nobody else moves a parent. */
  lemma ParentsHeld(s: State, a: Action, t: State, p: nat, q: nat)
    requires Inv(s) && Step(s, a, t) && p < |s.procs| && HoldsWait(s.procs[p].pc) && !Acts(s, a, p) && q < |s.procs|
    ensures q < |t.procs| && t.procs[q].parent == s.procs[q].parent
  {
    ParentMoves(s, a, t, q);
    SlotIs(s, p);
    if MovesParent(s, a) && !a.SetParent? { ThreadIs(s, a.c); }
  }

  /** Others leave a thread where it is, unless they make or free its slot. */
  lemma PcMoves(s: State, a: Action, t: State, p: nat)
    requires Inv(s) && Step(s, a, t) && p < |s.procs| && !Acts(s, a, p)
    ensures p < |t.procs| && (t.procs[p].pc == s.procs[p].pc || t.procs[p].pc.ForkRet? || t.procs[p].pc.NoThread?)
  {
    StepFrame(s, a, t, p);
    if Target(s, a) == Some(p) { TargetIs(s, a, t, p); }
  }

  lemma KidsActor(s: State, a: Action, t: State, p: nat)
    requires Step(s, a, t) && p < |s.procs| == |t.procs| && Acts(s, a, p) && LockOk(s, p) && t.procs[p].pc.WaitScan?
    ensures t.procs[p].pc == WaitScan(0, false) || (a.ScanStep? && s.procs[p].pc.WaitScan? && s.procs[p].pc.i < |s.procs|
              && t.procs[p].pc == WaitScan(s.procs[p].pc.i + 1, s.procs[p].pc.kids || ChildOf(s, s.procs[p].pc.i, p)))
  {
    FlowIs(s, a, t, p);
    assert a.Wait? || a.Reacquire? || a.ScanStep?;
  }

  lemma LoopStep(s: State, a: Action, t: State, p: nat)
    requires Inv(s) && Step(s, a, t) && p < |s.procs| == |t.procs|
    ensures LoopOk(t, t.procs[p].pc)
  {
    CallIs(s, p);
    SlotIs(s, p);
    if Acts(s, a, p) {
      FlowIs(s, a, t, p);
      LoopActor(|s.procs|, a, s.procs[p].pc, t.procs[p].pc);
    } else { PcMoves(s, a, t, p); }
  }

  lemma LoopActor(n: nat, a: Action, o: Pc, x: Pc)
    requires Flow(n, a, o, x) && (o.WaitScan? ==> o.i <= n) && (InWakeLoop(o) ==> o.j <= n)
    requires (o.AtSched? || o.Saved?) && o.r.FromYield? ==> YieldPoint(o.r.back)
    ensures (x.WaitScan? ==> x.i <= n) && (InWakeLoop(x) ==> x.j <= n)
  {
  }

  lemma KidsStep(s: State, a: Action, t: State, p: nat)
    requires Inv(s) && Step(s, a, t) && p < |s.procs| == |t.procs| && t.procs[p].pc.WaitScan?
    ensures t.procs[p].pc.kids <==> exists q: nat :: q < t.procs[p].pc.i && ChildOf(t, q, p)
  {
    CallIs(s, p);
    SlotIs(s, p);
    if Acts(s, a, p) {
      KidsActor(s, a, t, p);
      if a.ScanStep? {
        forall q: nat | q < |s.procs| ensures ChildOf(t, q, p) == ChildOf(s, q, p) { ParentMoves(s, a, t, q); }
        KidsNext(s, t, p, s.procs[p].pc.i);
      }
    } else {
      PcMoves(s, a, t, p);
      forall q: nat | q < |s.procs| ensures ChildOf(t, q, p) == ChildOf(s, q, p) { ParentsHeld(s, a, t, p, q); }
    }
  }

  lemma KidsNext(s: State, t: State, p: nat, i: nat)
    requires |t.procs| == |s.procs| && forall q: nat :: q < |s.procs| ==> ChildOf(t, q, p) == ChildOf(s, q, p)
    ensures (exists q: nat :: q < i + 1 && ChildOf(t, q, p)) <==> (exists q: nat :: q < i && ChildOf(s, q, p)) || ChildOf(s, i, p)
  {
    if q: nat :| q < i + 1 && ChildOf(t, q, p) { assert ChildOf(s, q, p); }
    if q: nat :| q < i && ChildOf(s, q, p) { assert ChildOf(t, q, p); }
    if ChildOf(s, i, p) { assert ChildOf(t, i, p); }
  }

  /** A sleep lock is taken and released under its inner lock. */
  lemma LockMoves(s: State, a: Action, t: State, l: nat)
    requires Step(s, a, t) && l < |s.sls|
    ensures |t.sls| == |s.sls|
    ensures t.sls[l].locked == s.sls[l].locked
            || (a.TestLock? && OnThread(s, a.c) && PcOf(s, a.c) == AcqTest(l)) || (a.Release? && a.l == l && s.sls[l].spin.None?)
  {
    if !ThreadAction(a) { LockStays(s, a, t, l); }
  }

  lemma LockStays(s: State, a: Action, t: State, l: nat)
    requires Step(s, a, t) && l < |s.sls| && !ThreadAction(a)
    ensures |t.sls| == |s.sls| && t.sls[l].locked == s.sls[l].locked
  {
  }

  lemma ClearedStep(s: State, a: Action, t: State, p: nat)
    requires Inv(s) && Step(s, a, t) && p < |s.procs| == |t.procs| && t.procs[p].pc.RelWake? && t.procs[p].pc.l < |t.sls|
    ensures !t.sls[t.procs[p].pc.l].locked
  {
    CallIs(s, p);
    SlotIs(s, p);
    if Acts(s, a, p) {
      ClearedActor(s, a, t, p);
    } else {
      PcMoves(s, a, t, p);
      LockMoves(s, a, t, t.procs[p].pc.l);
      if a.TestLock? { ThreadIs(s, a.c); }
    }
  }

  lemma ClearedActor(s: State, a: Action, t: State, p: nat)
    requires Step(s, a, t) && p < |s.procs| == |t.procs| && Acts(s, a, p) && LockOk(s, p) && CallOk(s, p)
    requires t.procs[p].pc.RelWake? && t.procs[p].pc.l < |t.sls|
    ensures !t.sls[t.procs[p].pc.l].locked
  {
    FlowIs(s, a, t, p);
    assert a.Release? || a.WakeSlot?;
  }

  /** Every step of every CPU keeps the invariant. */
  lemma StepInv(s: State, a: Action, t: State)
    requires Inv(s) && Step(s, a, t)
    ensures Inv(t)
  {
    StepSound(s, a, t);
    forall p | 0 <= p < |t.procs| ensures CallOk(t, p) {
      StepFrame(s, a, t, 0);
      LoopStep(s, a, t, p);
      if t.procs[p].pc.WaitScan? { KidsStep(s, a, t, p); }
      if t.procs[p].pc.RelWake? && t.procs[p].pc.l < |t.sls| { ClearedStep(s, a, t, p); }
    }
  }

  ghost predicate Run(states: seq<State>, acts: seq<Action>) {
    |states| == |acts| + 1 && forall k {:trigger acts[k]} :: 0 <= k < |acts| ==> Step(states[k], acts[k], states[k + 1])
  }

  /** Every state of every run from a good state is good. */
  lemma {:induction false} RunInv(states: seq<State>, acts: seq<Action>, k: nat)
    requires Run(states, acts) && Inv(states[0]) && k < |states|
    ensures Inv(states[k])
  {
    if k > 0 {
      RunInv(states, acts, k - 1);
      StepInv(states[k - 1], acts[k - 1], states[k]);
    }
  }

  // ---------------------------------------------------------------- dispatch

  predicate RunsOn(s: State, p: nat, c: nat) { c < |s.cpus| && s.cpus[c].proc == Some(p) }

  /** While p->lock is free, p is RUNNING exactly when it is the current process of one CPU,
      and then of no other. */
  lemma DispatchExclusive(s: State, p: nat)
    requires Inv(s) && FreeSlot(s, p)
    ensures s.procs[p].state == Running <==> exists c: nat :: RunsOn(s, p, c)
    ensures forall c: nat, d: nat :: RunsOn(s, p, c) && RunsOn(s, p, d) ==> c == d
  {
    SlotIs(s, p);
    forall c: nat | RunsOn(s, p, c) ensures s.procs[p].cpu == Some(c) { CpuIs(s, c); }
    if s.procs[p].state == Running { assert RunsOn(s, p, s.procs[p].cpu.value); }
  }

  /** sched() never panics: the caller holds its own lock, no other lock is held by that
      CPU, and the state has been changed. */
  lemma SchedNeverPanics(s: State, c: nat)
    requires Inv(s) && OnThread(s, c) && PcOf(s, c).AtSched?
    ensures s.procs[Cur(s, c)].lock == Some(c) && s.procs[Cur(s, c)].state != Running
    ensures s.waitLock != Some(c) && forall l :: 0 <= l < |s.sls| ==> s.sls[l].spin != Some(c)
    ensures forall q :: 0 <= q < |s.procs| && q != Cur(s, c) ==> s.procs[q].lock != Some(c)
  {
    ThreadIs(s, c);
    forall l | 0 <= l < |s.sls| ensures s.sls[l].spin != Some(c) { assert SpinOk(s, l); }
    forall q | 0 <= q < |s.procs| && q != Cur(s, c) ensures s.procs[q].lock != Some(c) {
      SlotIs(s, q);
      if s.procs[q].state == Used && s.procs[q].cpu.None? { SlotIs(s, s.procs[q].maker.value); }
    }
  }

  /** The lock crosses swtch in both directions: a freshly switched-to thread and a CPU
      that has just switched back both hold the process's lock, and "zombie exit" is not
      reached. */
  lemma LockCrossesSwtch(s: State, c: nat)
    requires Inv(s) && c < |s.cpus| && s.cpus[c].proc.Some?
    ensures s.cpus[c].proc.value < |s.procs|
    ensures var x := s.procs[s.cpus[c].proc.value];
            && (s.cpus[c].inSched ==> x.lock == Some(c) && x.state != Running)
            && (!s.cpus[c].inSched && (x.pc.Saved? || x.pc.ForkRet?) ==>
                  x.lock == Some(c) && x.state == Running && x.pc != Saved(Dead))
  {
    assert CpuOk(s, c);
    SlotIs(s, s.cpus[c].proc.value);
  }

  // ---------------------------------------------------------------- exit and wait

  /** While wait_lock is free nobody is asleep in wait() with a zombie child. */
  lemma NoLostExit(s: State, q: nat, z: nat)
    requires Inv(s) && s.waitLock.None? && q < |s.procs| && z < |s.procs|
    ensures !(InWait(s, q) && ZombieChild(s, z, q))
  {
    assert PairOk(s, q, z);
  }

  /** The pid wait() on CPU c is about to return. */
  function ReapedPid(s: State, c: nat): nat {
    if OnThread(s, c) && PcOf(s, c).WaitScan? && PcOf(s, c).i < |s.procs| then s.procs[PcOf(s, c).i].pid else 0
  }

  /** A zombie is reaped only after its thread has left the CPU for good, and its slot is free then. */
  lemma ReapIsClean(s: State, c: nat, t: State)
    requires Inv(s) && Step(s, Reap(c, true), t)
    ensures OnThread(s, c) && PcOf(s, c).WaitScan? && PcOf(s, c).i < |s.procs| == |t.procs|
    ensures var i := PcOf(s, c).i;
            && (forall d: nat :: !RunsOn(s, i, d)) && s.procs[i].pc == Saved(Dead)
            && t.procs[i].state == Unused && Gone(t, ReapedPid(s, c))
  {
    var i := PcOf(s, c).i;
    SlotIs(s, i);
    forall d: nat ensures !RunsOn(s, i, d) { if RunsOn(s, i, d) { CpuIs(s, d); } }
    forall p | 0 <= p < |t.procs| ensures t.procs[p].pid != ReapedPid(s, c) {
      assert PairOk(s, p, i);
      SlotIs(s, p);
    }
  }

  /** A pid that has been handed out and belongs to no process any more. */
  predicate Gone(s: State, n: nat) {
    0 < n < s.nextpid && forall p :: 0 <= p < |s.procs| ==> s.procs[p].pid != n
  }

  lemma GoneStays(s: State, a: Action, t: State, n: nat)
    requires Step(s, a, t) && Gone(s, n) && 0 < |s.procs|
    ensures Gone(t, n)
  {
    StepFrame(s, a, t, 0);
    forall p | 0 <= p < |t.procs| ensures t.procs[p].pid != n { StepFrame(s, a, t, p); }
  }

  lemma {:induction false} GoneForever(states: seq<State>, acts: seq<Action>, k: nat, m: nat, n: nat)
    requires Run(states, acts) && k <= m < |states| && Gone(states[k], n) && 0 < |states[k].procs|
    ensures Gone(states[m], n) && |states[m].procs| == |states[k].procs|
    decreases m
  {
    if k < m {
      GoneForever(states, acts, k, m - 1, n);
      GoneStays(states[m - 1], acts[m - 1], states[m], n);
      StepFrame(states[m - 1], acts[m - 1], states[m], 0);
    }
  }

  /** No pid is ever returned by wait() twice. */
  lemma ReapedOnce(states: seq<State>, acts: seq<Action>, k: nat, m: nat)
    requires Run(states, acts) && Inv(states[0]) && k < m < |acts|
    requires acts[k].Reap? && acts[k].copied && acts[m].Reap? && acts[m].copied
    ensures ReapedPid(states[k], acts[k].c) != ReapedPid(states[m], acts[m].c)
  {
    RunInv(states, acts, k);
    ReapIsClean(states[k], acts[k].c, states[k + 1]);
    GoneForever(states, acts, k + 1, m, ReapedPid(states[k], acts[k].c));
  }

  predicate Reaps(s: State, a: Action, z: nat) { a.Reap? && a.copied && Target(s, a) == Some(z) }

  predicate ZombieWith(s: State, z: nat, pid: nat, status: int) {
    z < |s.procs| && s.procs[z].state == Zombie && s.procs[z].pid == pid && s.procs[z].xstate == status
  }

  lemma ZombieActs(s: State, a: Action, t: State, z: nat)
    requires Inv(s) && Step(s, a, t) && z < |s.procs| && s.procs[z].state == Zombie && Acts(s, a, z)
    ensures ZombieWith(t, z, s.procs[z].pid, s.procs[z].xstate)
  {
    ThreadIs(s, a.c);
    assert s.procs[z].pc == AtSched(Dead) && s.procs[z].lock == Some(a.c);
  }

  /** A zombie keeps its pid and status until a parent's wait() reaps it. */
  lemma ZombieWaits(s: State, a: Action, t: State, z: nat)
    requires Inv(s) && Step(s, a, t) && z < |s.procs| && s.procs[z].state == Zombie && !Reaps(s, a, z)
    ensures ZombieWith(t, z, s.procs[z].pid, s.procs[z].xstate)
  {
    if Acts(s, a, z) { ZombieActs(s, a, t, z); }
    else if Target(s, a) == Some(z) { TargetIs(s, a, t, z); SlotIs(s, z); }
    else { StepFrame(s, a, t, z); }
  }

  lemma {:induction false} ZombieKept(states: seq<State>, acts: seq<Action>, k: nat, m: nat, z: nat, pid: nat, status: int)
    requires Run(states, acts) && Inv(states[0]) && k <= m < |states| && ZombieWith(states[k], z, pid, status)
    requires forall i: nat {:trigger Reaps(states[i], acts[i], z)} :: k <= i < m ==> !Reaps(states[i], acts[i], z)
    ensures ZombieWith(states[m], z, pid, status)
    decreases m
  {
    if k < m {
      ZombieKept(states, acts, k, m - 1, z, pid, status);
      RunInv(states, acts, m - 1);
      ZombieWaits(states[m - 1], acts[m - 1], states[m], z);
    }
  }

  /** wait() returns the pid and the status with which the reaped process exited. */
  lemma WaitReturnsExit(states: seq<State>, acts: seq<Action>, k: nat, m: nat, z: nat)
    requires Run(states, acts) && Inv(states[0]) && k < m < |acts|
    requires acts[k].ExitFinish? && OnThread(states[k], acts[k].c) && Cur(states[k], acts[k].c) == z
    requires Reaps(states[m], acts[m], z) && forall i: nat {:trigger Reaps(states[i], acts[i], z)} :: k < i < m ==> !Reaps(states[i], acts[i], z)
    ensures ReapedPid(states[m], acts[m].c) == states[k].procs[z].pid
    ensures z < |states[m].procs| && states[m].procs[z].xstate == acts[k].status
  {
    ZombieKept(states, acts, k + 1, m, z, states[k].procs[z].pid, acts[k].status);
  }

  /** Parent links lead to live processes with smaller pids, init alone has none. */
  lemma ParentsAreOlder(s: State, p: nat)
    requires Inv(s) && p < |s.procs| && s.procs[p].parent.Some?
    ensures var q := s.procs[p].parent.value;
            q < |s.procs| && s.procs[q].pid < s.procs[p].pid && Live(s.procs[q].state)
  {
    SlotIs(s, p);
  }

  // ---------------------------------------------------------------- sleep locks

  /** At most one process holds a sleep lock, and holdingsleep() tells it so. */
  lemma SleepLockExclusive(s: State, p: nat, q: nat, l: nat)
    requires Inv(s) && p < |s.procs| && q < |s.procs| && l < |s.sls|
    ensures l in s.procs[p].owned && l in s.procs[q].owned ==> p == q
    ensures s.procs[p].state != Unused ==>
              (l in s.procs[p].owned <==> s.sls[l].locked && s.sls[l].pid == s.procs[p].pid)
  {
    SlotIs(s, p);
    SlotIs(s, q);
    assert SpinOk(s, l);
    if s.sls[l].locked {
      SlotIs(s, s.sls[l].owner);
      assert PairOk(s, p, s.sls[l].owner);
    }
  }

  /** While the inner spinlock is free, a process asleep on the lock means some process
      holds it, whatever spurious wakeups kill and unfreeze have injected. */
  lemma NoLostRelease(s: State, l: nat, q: nat)
    requires Inv(s) && l < |s.sls| && s.sls[l].spin.None? && q < |s.procs|
    requires s.procs[q].state == Sleeping && s.procs[q].chan == LockChan(l)
    ensures s.sls[l].locked && exists p :: 0 <= p < |s.procs| && l in s.procs[p].owned
  {
    SlotIs(s, q);
    assert SpinOk(s, l);
  }
}
