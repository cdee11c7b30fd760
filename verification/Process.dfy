/** Processes, CPUs and the locks between them, as a machine of atomic steps: the
    scheduler, sleep and wakeup, exit and wait, fork, sleep locks, kill, freeze and
    unfreeze (proc.c, sleeplock.c, sysproc.c).

    A step is one acquire, one release, or what the code does between them; a critical
    section that takes and drops a single lock is one step.  Locks belong to CPUs, as in
    the source, so a process lock taken on one side of swtch is dropped on the other. */
module Process {

  datatype Option<T> = None | Some(value: T)

  datatype RunState = Unused | Used | Sleeping | Runnable | Running | Zombie

  /** What a process sleeps on: a process (wait), a sleep lock, or anything else. */
  datatype Chan = NoChan | ProcChan(p: nat) | LockChan(l: nat) | Other(n: nat)

  /** The lock handed to sleep(). */
  datatype Lk = WaitLk | SpinLk(l: nat) | OtherLk

  /** Why a kernel thread called sched(), and where a preempted one goes on. */
  datatype Resume = FromYield(back: Pc) | FromSleep(chan: Chan, lk: Lk) | Dead

  /** Where a kernel thread is, or where it will continue. */
  datatype Pc =
    | NoThread
    | ForkRet                          // fresh context, first scheduled into forkret
    | User                             // anywhere that holds none of these locks
    | AtSched(r: Resume)               // p->lock held, state changed, about to swtch
    | Saved(r: Resume)                 // switched out inside sched()
    | Relock(lk: Lk)                   // woken, about to reacquire lk
    | SleepEntry(chan: Chan, lk: Lk)   // in sleep(), holding lk, about to take p->lock
    | AcqTest(l: nat)                  // acquiresleep, holding the inner spinlock
    | RelWake(l: nat, j: nat)          // releasesleep, in its wakeup loop
    | Reparent(i: nat)                 // exit, holding wait_lock
    | ReparentWake(i: nat, j: nat)
    | ExitWake(j: nat)
    | ExitLock
    | WaitScan(i: nat, kids: bool)     // wait, holding wait_lock
    | ForkSetup(np: nat)               // fork, holding the child's p->lock
    | ForkParent(np: nat)
    | ForkReady(np: nat)

  /** struct proc.  `cpu`, `maker` and `owned` record which CPU's c->proc is this slot, who
      is forking into it, and which sleep locks it has acquired. */
  datatype Proc = Proc(state: RunState, chan: Chan, killed: bool, xstate: int, pid: nat, frozen: bool,
                       parent: Option<nat>, lock: Option<nat>, pc: Pc,
                       cpu: Option<nat>, maker: Option<nat>, owned: set<nat>)

  /** struct cpu; inSched: the thread has switched back, c->proc not yet cleared. */
  datatype Cpu = Cpu(proc: Option<nat>, inSched: bool)

  /** struct sleeplock; `owner` records the slot that acquired it. */
  datatype SleepLock = SleepLock(spin: Option<nat>, locked: bool, pid: nat, owner: nat)

  datatype State = State(procs: seq<Proc>, cpus: seq<Cpu>, waitLock: Option<nat>, sls: seq<SleepLock>,
                         nextpid: nat, init: nat)

  // ---------------------------------------------------------------- steps

  datatype Action =
    | Dispatch(c: nat, p: nat)        // scheduler: acquire, test, swtch to the process
    | Undispatch(c: nat)              // scheduler after swtch: c->proc = 0, release
    | Continue(c: nat)                // forkret, or yield/sleep after sched() returns
    | Yield(c: nat)
    | Sched(c: nat)                   // swtch to the scheduler
    | Reacquire(c: nat)
    | EnterSleep(c: nat)
    | SleepOther(c: nat, n: nat)      // any other caller of sleep()
    | Acquire(c: nat, l: nat)         // acquiresleep
    | TestLock(c: nat)
    | Release(c: nat, l: nat)         // releasesleep
    | WakeSlot(c: nat)                // one turn of a wakeup loop
    | WakeDone(c: nat)
    | WakeOther(j: nat)               // wakeup of another channel, e.g. from an interrupt
    | Exit(c: nat)
    | ReparentStep(c: nat)
    | ExitFinish(c: nat, status: int)
    | Wait(c: nat)
    | ScanStep(c: nat)
    | Reap(c: nat, copied: bool)
    | ScanDone(c: nat)
    | ForkAlloc(c: nat, np: nat)
    | ForkFail(c: nat)
    | ForkCopied(c: nat)
    | SetParent(c: nat)
    | SetReady(c: nat)
    | Kill(c: nat, i: nat)
    | Freeze(c: nat, i: nat)
    | Unfreeze(c: nat, i: nat)

  /** The places where no spinlock is held, so that a timer interrupt can preempt the thread. */
  predicate YieldPoint(pc: Pc) { pc.User? || pc.Relock? || pc.ForkParent? || pc.ForkReady? }

  /** What a thread is in the middle of, preempted or not. */
  function Work(pc: Pc): Pc { if (pc.AtSched? || pc.Saved?) && pc.r.FromYield? then pc.r.back else pc }

  /** CPU c is executing a process's kernel thread. */
  predicate OnThread(s: State, c: nat) {
    c < |s.cpus| && s.cpus[c].proc.Some? && !s.cpus[c].inSched && s.cpus[c].proc.value < |s.procs|
  }

  function Cur(s: State, c: nat): nat
    requires OnThread(s, c)
  {
    s.cpus[c].proc.value
  }

  function PcOf(s: State, c: nat): Pc
    requires OnThread(s, c)
  {
    s.procs[Cur(s, c)].pc
  }

  function Put(s: State, p: nat, x: Proc): State
    requires p < |s.procs|
  {
    s.(procs := s.procs[p := x])
  }

  function Goto(s: State, c: nat, pc: Pc): State
    requires OnThread(s, c)
  {
    Put(s, Cur(s, c), s.procs[Cur(s, c)].(pc := pc))
  }

  function FreeLk(s: State, lk: Lk): State {
    match lk
    case WaitLk => s.(waitLock := None)
    case SpinLk(l) => if l < |s.sls| then s.(sls := s.sls[l := s.sls[l].(spin := None)]) else s
    case OtherLk => s
  }

  predicate LkFree(s: State, lk: Lk) {
    match lk
    case WaitLk => s.waitLock.None?
    case SpinLk(l) => l < |s.sls| && s.sls[l].spin.None?
    case OtherLk => true
  }

  function TakeLk(s: State, lk: Lk, c: nat): State {
    match lk
    case WaitLk => s.(waitLock := Some(c))
    case SpinLk(l) => if l < |s.sls| then s.(sls := s.sls[l := s.sls[l].(spin := Some(c))]) else s
    case OtherLk => s
  }

  function StateAfter(r: Resume): RunState {
    match r
    case FromYield(_) => Runnable
    case FromSleep(_, _) => Sleeping
    case Dead => Zombie
  }

  /** wakeup's test on one slot. */
  function Woken(x: Proc, ch: Chan): Proc {
    if x.state == Sleeping && x.chan == ch then x.(state := Runnable) else x
  }

  /** freeproc: everything is cleared but the frozen flag. */
  function Freed(x: Proc): Proc {
    Proc(Unused, NoChan, false, 0, 0, x.frozen, None, None, NoThread, None, None, {})
  }

  predicate InWakeLoop(pc: Pc) { pc.RelWake? || pc.ReparentWake? || pc.ExitWake? }

  /** The channel a wakeup loop is for. */
  function LoopChan(s: State, p: nat): Chan
    requires p < |s.procs|
  {
    match s.procs[p].pc
    case RelWake(l, _) => LockChan(l)
    case ReparentWake(_, _) => ProcChan(s.init)
    case ExitWake(_) => if s.procs[p].parent.Some? then ProcChan(s.procs[p].parent.value) else NoChan
    case _ => NoChan
  }

  function Bump(pc: Pc): Pc {
    match pc
    case RelWake(l, j) => RelWake(l, j + 1)
    case ReparentWake(i, j) => ReparentWake(i, j + 1)
    case ExitWake(j) => ExitWake(j + 1)
    case _ => pc
  }

  predicate ZombieChild(s: State, z: nat, q: nat)
    requires z < |s.procs|
  {
    s.procs[z].state == Zombie && s.procs[z].parent == Some(q)
  }

  predicate FreeSlot(s: State, i: nat) { i < |s.procs| && s.procs[i].lock.None? }

  function NextDispatch(s: State, c: nat, p: nat): State
    requires c < |s.cpus| && p < |s.procs|
  {
    Put(s.(cpus := s.cpus[c := Cpu(Some(p), false)]), p, s.procs[p].(lock := Some(c), state := Running, cpu := Some(c)))
  }

  function NextUndispatch(s: State, c: nat): State
    requires c < |s.cpus| && s.cpus[c].proc.Some? && s.cpus[c].proc.value < |s.procs|
  {
    var p := s.cpus[c].proc.value;
    Put(s.(cpus := s.cpus[c := Cpu(None, false)]), p, s.procs[p].(lock := None, cpu := None))
  }

  function NextYield(s: State, c: nat): State
    requires OnThread(s, c)
  {
    Put(s, Cur(s, c), s.procs[Cur(s, c)].(lock := Some(c), state := Runnable, pc := AtSched(FromYield(PcOf(s, c)))))
  }

  function NextSched(s: State, c: nat): State
    requires OnThread(s, c) && PcOf(s, c).AtSched?
  {
    Goto(s, c, Saved(PcOf(s, c).r)).(cpus := s.cpus[c := s.cpus[c].(inSched := true)])
  }

  function NextScan(s: State, c: nat): State
    requires OnThread(s, c) && PcOf(s, c).WaitScan? && PcOf(s, c).i < |s.procs|
  {
    var i := PcOf(s, c).i;
    Goto(s, c, WaitScan(i + 1, PcOf(s, c).kids || s.procs[i].parent == Some(Cur(s, c))))
  }

  function NextContinue(s: State, c: nat): State
    requires OnThread(s, c)
  {
    var p := Cur(s, c);
    var x := s.procs[p].(lock := None);
    match x.pc
    case Saved(FromSleep(_, lk)) => Put(s, p, x.(chan := NoChan, pc := Relock(lk)))
    case Saved(FromYield(back)) => Put(s, p, x.(pc := back))
    case _ => Put(s, p, x.(pc := User))
  }

  function NextReacquire(s: State, c: nat): State
    requires OnThread(s, c) && PcOf(s, c).Relock?
  {
    match PcOf(s, c).lk
    case WaitLk => Goto(TakeLk(s, WaitLk, c), c, WaitScan(0, false))
    case SpinLk(l) => Goto(TakeLk(s, SpinLk(l), c), c, AcqTest(l))
    case OtherLk => Goto(s, c, User)
  }

  function NextEnterSleep(s: State, c: nat): State
    requires OnThread(s, c) && PcOf(s, c).SleepEntry?
  {
    var p, pc := Cur(s, c), PcOf(s, c);
    var x := s.procs[p].(lock := Some(c), chan := pc.chan, state := Sleeping, pc := AtSched(FromSleep(pc.chan, pc.lk)));
    Put(FreeLk(s, pc.lk), p, x)
  }

  function NextTestLock(s: State, c: nat): State
    requires OnThread(s, c) && PcOf(s, c).AcqTest? && PcOf(s, c).l < |s.sls|
  {
    var p, l := Cur(s, c), PcOf(s, c).l;
    if s.sls[l].locked then Goto(s, c, SleepEntry(LockChan(l), SpinLk(l)))
    else
      var t := s.(sls := s.sls[l := SleepLock(None, true, s.procs[p].pid, p)]);
      Put(t, p, s.procs[p].(pc := User, owned := s.procs[p].owned + {l}))
  }

  function NextRelease(s: State, c: nat, l: nat): State
    requires OnThread(s, c) && l < |s.sls|
  {
    var p := Cur(s, c);
    Put(s.(sls := s.sls[l := SleepLock(Some(c), false, 0, p)]), p,
        s.procs[p].(pc := RelWake(l, 0), owned := s.procs[p].owned - {l}))
  }

  function NextWakeSlot(s: State, c: nat): State
    requires OnThread(s, c) && InWakeLoop(PcOf(s, c)) && PcOf(s, c).j < |s.procs|
  {
    var p, j := Cur(s, c), PcOf(s, c).j;
    var t := if j == p then s else Put(s, j, Woken(s.procs[j], LoopChan(s, p)));
    Put(t, p, s.procs[p].(pc := Bump(PcOf(s, c))))
  }

  function NextWakeDone(s: State, c: nat): State
    requires OnThread(s, c)
  {
    match PcOf(s, c)
    case RelWake(l, _) => Goto(FreeLk(s, SpinLk(l)), c, User)
    case ReparentWake(i, _) => Goto(s, c, Reparent(i + 1))
    case _ => Goto(s, c, ExitLock)
  }

  function NextReparent(s: State, c: nat): State
    requires OnThread(s, c) && PcOf(s, c).Reparent?
  {
    var p, i := Cur(s, c), PcOf(s, c).i;
    if i >= |s.procs| then Goto(s, c, ExitWake(0))
    else if s.procs[i].parent == Some(p) then
      Put(Put(s, i, s.procs[i].(parent := Some(s.init))), p, s.procs[p].(pc := ReparentWake(i, 0)))
    else Goto(s, c, Reparent(i + 1))
  }

  function NextExitFinish(s: State, c: nat, status: int): State
    requires OnThread(s, c)
  {
    var p := Cur(s, c);
    Put(s.(waitLock := None), p, s.procs[p].(lock := Some(c), xstate := status, state := Zombie, pc := AtSched(Dead)))
  }

  function NextReap(s: State, c: nat, copied: bool): State
    requires OnThread(s, c) && PcOf(s, c).WaitScan? && PcOf(s, c).i < |s.procs|
  {
    var p, i := Cur(s, c), PcOf(s, c).i;
    if copied then Put(Put(s.(waitLock := None), i, Freed(s.procs[i])), p, s.procs[p].(pc := User))
    else Goto(s.(waitLock := None), c, User)   // copyout failed
  }

  function NextScanDone(s: State, c: nat): State
    requires OnThread(s, c) && PcOf(s, c).WaitScan?
  {
    var p := Cur(s, c);
    if !PcOf(s, c).kids || s.procs[p].killed then Goto(s.(waitLock := None), c, User)
    else Goto(s, c, SleepEntry(ProcChan(p), WaitLk))
  }

  function NextForkAlloc(s: State, c: nat, np: nat): State
    requires OnThread(s, c) && np < |s.procs|
  {
    var p := Cur(s, c);
    var child := s.procs[np].(state := Used, pid := s.nextpid, lock := Some(c), pc := ForkRet, maker := Some(p));
    Put(Put(s, np, child), p, s.procs[p].(pc := ForkSetup(np))).(nextpid := s.nextpid + 1)
  }

  predicate Forking(pc: Pc) { pc.ForkSetup? || pc.ForkParent? || pc.ForkReady? }

  /** A step of fork on the child's slot. */
  function Both(s: State, c: nat, x: Proc, pc: Pc): State
    requires OnThread(s, c) && Forking(PcOf(s, c)) && PcOf(s, c).np < |s.procs|
  {
    Put(Put(s, PcOf(s, c).np, x), Cur(s, c), s.procs[Cur(s, c)].(pc := pc))
  }

  /** kill: the flag, and a spurious wakeup. */
  function KilledProc(x: Proc): Proc {
    if x.state == Sleeping then x.(killed := true, state := Runnable) else x.(killed := true)
  }

  function NextKill(s: State, i: nat): State
    requires i < |s.procs|
  {
    Put(s, i, KilledProc(s.procs[i]))
  }

  predicate CanFreeze(x: Proc) { x.state != Zombie && x.state != Unused && !x.frozen }

  /** unfreeze: the flag, and a spurious wakeup. */
  function ThawedProc(x: Proc): Proc {
    if x.state == Sleeping then x.(frozen := false, state := Runnable) else x.(frozen := false)
  }

  function NextUnfreeze(s: State, i: nat): State
    requires i < |s.procs|
  {
    Put(s, i, ThawedProc(s.procs[i]))
  }

  /** One step: the guard (the code's own test and the locks it waits for) and the effect. */
  predicate Step(s: State, a: Action, t: State) {
    match a
    case Dispatch(c, p) =>
      && c < |s.cpus| && s.cpus[c].proc.None? && FreeSlot(s, p)
      && !s.procs[p].frozen && s.procs[p].state == Runnable && t == NextDispatch(s, c, p)
    case Undispatch(c) =>
      && c < |s.cpus| && s.cpus[c].proc.Some? && s.cpus[c].inSched && s.cpus[c].proc.value < |s.procs|
      && t == NextUndispatch(s, c)
    case Continue(c) => OnThread(s, c) && (PcOf(s, c).Saved? || PcOf(s, c).ForkRet?) && t == NextContinue(s, c)
    case Yield(c) => OnThread(s, c) && YieldPoint(PcOf(s, c)) && FreeSlot(s, Cur(s, c)) && t == NextYield(s, c)
    case Sched(c) => OnThread(s, c) && PcOf(s, c).AtSched? && t == NextSched(s, c)
    case Reacquire(c) => OnThread(s, c) && PcOf(s, c).Relock? && LkFree(s, PcOf(s, c).lk) && t == NextReacquire(s, c)
    case EnterSleep(c) => OnThread(s, c) && PcOf(s, c).SleepEntry? && FreeSlot(s, Cur(s, c)) && t == NextEnterSleep(s, c)
    case SleepOther(c, n) => OnThread(s, c) && PcOf(s, c).User? && t == Goto(s, c, SleepEntry(Other(n), OtherLk))
    case Acquire(c, l) =>
      && OnThread(s, c) && PcOf(s, c).User? && LkFree(s, SpinLk(l))
      && t == Goto(TakeLk(s, SpinLk(l), c), c, AcqTest(l))
    case TestLock(c) => OnThread(s, c) && PcOf(s, c).AcqTest? && PcOf(s, c).l < |s.sls| && t == NextTestLock(s, c)
    case Release(c, l) =>   // callers hold the lock
      && OnThread(s, c) && PcOf(s, c).User? && LkFree(s, SpinLk(l)) && l in s.procs[Cur(s, c)].owned
      && t == NextRelease(s, c, l)
    case WakeSlot(c) =>
      && OnThread(s, c) && InWakeLoop(PcOf(s, c)) && PcOf(s, c).j < |s.procs|
      && (PcOf(s, c).j != Cur(s, c) ==> FreeSlot(s, PcOf(s, c).j)) && t == NextWakeSlot(s, c)
    case WakeDone(c) =>
      OnThread(s, c) && InWakeLoop(PcOf(s, c)) && PcOf(s, c).j == |s.procs| && t == NextWakeDone(s, c)
    case WakeOther(j) =>
      && FreeSlot(s, j) && s.procs[j].state == Sleeping && s.procs[j].chan.Other?
      && t == Put(s, j, s.procs[j].(state := Runnable))
    case Exit(c) =>         // exit of init panics; no sleep lock is held on the way to exit
      && OnThread(s, c) && PcOf(s, c).User? && s.waitLock.None?
      && Cur(s, c) != s.init && s.procs[Cur(s, c)].owned == {}
      && t == Goto(s.(waitLock := Some(c)), c, Reparent(0))
    case ReparentStep(c) => OnThread(s, c) && PcOf(s, c).Reparent? && t == NextReparent(s, c)
    case ExitFinish(c, status) =>
      OnThread(s, c) && PcOf(s, c).ExitLock? && FreeSlot(s, Cur(s, c)) && t == NextExitFinish(s, c, status)
    case Wait(c) =>
      OnThread(s, c) && PcOf(s, c).User? && s.waitLock.None? && t == Goto(s.(waitLock := Some(c)), c, WaitScan(0, false))
    case ScanStep(c) =>
      && OnThread(s, c) && PcOf(s, c).WaitScan? && PcOf(s, c).i < |s.procs|
      && (s.procs[PcOf(s, c).i].parent == Some(Cur(s, c)) ==> FreeSlot(s, PcOf(s, c).i))
      && !ZombieChild(s, PcOf(s, c).i, Cur(s, c)) && t == NextScan(s, c)
    case Reap(c, copied) =>
      && OnThread(s, c) && PcOf(s, c).WaitScan? && FreeSlot(s, PcOf(s, c).i)
      && ZombieChild(s, PcOf(s, c).i, Cur(s, c)) && t == NextReap(s, c, copied)
    case ScanDone(c) => OnThread(s, c) && PcOf(s, c).WaitScan? && PcOf(s, c).i == |s.procs| && t == NextScanDone(s, c)
    case ForkAlloc(c, np) =>
      && OnThread(s, c) && PcOf(s, c).User? && FreeSlot(s, np) && s.procs[np].state == Unused
      && t == NextForkAlloc(s, c, np)
    case ForkFail(c) =>
      && OnThread(s, c) && PcOf(s, c).ForkSetup? && PcOf(s, c).np < |s.procs|
      && t == Both(s, c, Freed(s.procs[PcOf(s, c).np]), User)
    case ForkCopied(c) =>
      && OnThread(s, c) && PcOf(s, c).ForkSetup? && PcOf(s, c).np < |s.procs|
      && t == Both(s, c, s.procs[PcOf(s, c).np].(lock := None), ForkParent(PcOf(s, c).np))
    case SetParent(c) =>
      && OnThread(s, c) && PcOf(s, c).ForkParent? && PcOf(s, c).np < |s.procs| && s.waitLock.None?
      && t == Both(s, c, s.procs[PcOf(s, c).np].(parent := Some(Cur(s, c))), ForkReady(PcOf(s, c).np))
    case SetReady(c) =>
      && OnThread(s, c) && PcOf(s, c).ForkReady? && FreeSlot(s, PcOf(s, c).np)
      && t == Both(s, c, s.procs[PcOf(s, c).np].(state := Runnable, maker := None), User)
    case Kill(c, i) => OnThread(s, c) && PcOf(s, c).User? && FreeSlot(s, i) && t == NextKill(s, i)
    case Freeze(c, i) =>
      && OnThread(s, c) && PcOf(s, c).User? && FreeSlot(s, i) && CanFreeze(s.procs[i])
      && t == Put(s, i, s.procs[i].(frozen := true))
    case Unfreeze(c, i) =>
      OnThread(s, c) && PcOf(s, c).User? && FreeSlot(s, i) && s.procs[i].frozen && t == NextUnfreeze(s, i)
  }

  // ---------------------------------------------------------------- invariant

  predicate HoldsWait(pc: Pc) {
    || pc.Reparent? || pc.ReparentWake? || pc.ExitWake? || pc.ExitLock? || pc.WaitScan?
    || (pc.SleepEntry? && pc.lk == WaitLk)
  }

  /** The sleep lock whose inner spinlock this thread holds. */
  function SpinHeld(pc: Pc): Option<nat> {
    match pc
    case AcqTest(l) => Some(l)
    case RelWake(l, _) => Some(l)
    case SleepEntry(_, SpinLk(l)) => Some(l)
    case _ => None
  }

  predicate Exiting(pc: Pc) {
    pc.Reparent? || pc.ReparentWake? || pc.ExitWake? || pc.ExitLock? || pc == AtSched(Dead) || pc == Saved(Dead)
  }

  /** The pairs (channel, lock) with which process p calls sleep(). */
  predicate SleepArgs(p: nat, ch: Chan, lk: Lk) {
    match lk
    case WaitLk => ch == ProcChan(p)
    case SpinLk(l) => ch == LockChan(l)
    case OtherLk => ch.Other?
  }

  /** Dispatch: who holds p->lock, what the state is and where the thread is. */
  ghost predicate RunOk(s: State, p: nat)
    requires p < |s.procs|
  {
    var x := s.procs[p];
    match x.cpu
    case Some(c) =>
      && c < |s.cpus| && s.cpus[c].proc == Some(p)
      && (if s.cpus[c].inSched then x.lock == Some(c) && x.pc.Saved? && x.state == StateAfter(x.pc.r)
          else if x.pc.AtSched? then x.lock == Some(c) && x.state == StateAfter(x.pc.r)
          else if x.pc.Saved? || x.pc.ForkRet? then x.lock == Some(c) && x.state == Running && x.pc != Saved(Dead)
          else x.lock.None? && x.state == Running && !x.pc.NoThread?)
    case None =>
      && x.state != Running
      && (x.state == Unused ==> x.pc.NoThread?)
      && (x.state == Used ==> x.pc.ForkRet?)
      && (x.state == Runnable ==> x.pc.ForkRet? || (x.pc.Saved? && x.pc.r != Dead))
      && (x.state == Sleeping ==> x.pc.Saved? && x.pc.r.FromSleep?)
      && (x.state == Zombie ==> x.pc == Saved(Dead))
      && (x.state != Used ==> x.lock.None?)
  }

  /** Identity, parenthood and fork. */
  ghost predicate TreeOk(s: State, p: nat)
    requires p < |s.procs|
  {
    var x := s.procs[p];
    && (x.state == Unused ==> x.pid == 0 && x.parent.None? && x.owned == {})
    && (x.state != Unused ==> 0 < x.pid < s.nextpid)
    && (x.parent.Some? ==>
          && x.parent.value < |s.procs| && x.state != Unused
          && s.procs[x.parent.value].pid < x.pid
          && (s.procs[x.parent.value].state == Runnable || s.procs[x.parent.value].state == Sleeping
              || s.procs[x.parent.value].state == Running))
    && (x.state == Zombie || x.state == Runnable || x.state == Sleeping || x.state == Running ==>
          p == s.init || x.parent.Some?)
    && (x.state == Used ==>
          && x.maker.Some? && x.maker.value < |s.procs|
          && Forking(Work(s.procs[x.maker.value].pc)) && Work(s.procs[x.maker.value].pc).np == p && s.procs[x.maker.value].pid < x.pid
          && x.parent == (if Work(s.procs[x.maker.value].pc).ForkReady? then x.maker else None)
          && x.lock == (if s.procs[x.maker.value].pc.ForkSetup? then s.procs[x.maker.value].cpu else None)
          && x.owned == {})
    && (Forking(Work(x.pc)) ==>
          Work(x.pc).np < |s.procs| && s.procs[Work(x.pc).np].state == Used && s.procs[Work(x.pc).np].maker == Some(p))
    && (p == s.init ==> x.pid == 1 && x.parent.None? && x.state != Zombie && x.state != Unused && x.state != Used)
    && (Exiting(x.pc) ==> p != s.init && x.owned == {})
  }

  /** Locks held, sleep arguments and sleep locks owned. */
  ghost predicate LockOk(s: State, p: nat)
    requires p < |s.procs|
  {
    var x := s.procs[p];
    && (HoldsWait(x.pc) ==> s.waitLock == x.cpu)
    && (SpinHeld(x.pc).Some? ==>
          SpinHeld(x.pc).value < |s.sls| && s.sls[SpinHeld(x.pc).value].spin == x.cpu)
    && (x.pc.SleepEntry? ==> SleepArgs(p, x.pc.chan, x.pc.lk))
    && ((x.pc.AtSched? || x.pc.Saved?) && x.pc.r.FromSleep? ==> SleepArgs(p, x.pc.r.chan, x.pc.r.lk))
    && (x.state == Sleeping ==> (x.pc.AtSched? || x.pc.Saved?) && x.pc.r.FromSleep? && x.chan == x.pc.r.chan)
    && ((x.pc.AtSched? || x.pc.Saved?) && x.pc.r.FromYield? ==> YieldPoint(x.pc.r.back))
    && (Work(x.pc).Relock? && Work(x.pc).lk.SpinLk? ==> Work(x.pc).lk.l < |s.sls|)
    && ((x.pc.AtSched? || x.pc.Saved?) && x.pc.r.FromSleep? && x.pc.r.lk.SpinLk? ==> x.pc.r.lk.l < |s.sls|)
    && (x.pc.SleepEntry? && x.pc.lk.SpinLk? ==> x.pc.lk.l < |s.sls| && s.sls[x.pc.lk.l].locked)
    && (forall l :: l in x.owned ==> l < |s.sls| && s.sls[l].locked && s.sls[l].pid == x.pid && s.sls[l].owner == p)
  }

  predicate InWait(s: State, q: nat)
    requires q < |s.procs|
  {
    s.procs[q].state == Sleeping && s.procs[q].chan == ProcChan(q)
  }

  /** The thread that holds wait_lock has yet to reach q in its wakeup(initproc) loop. */
  predicate WakePending(s: State, q: nat) {
    && q == s.init && s.waitLock.Some? && OnThread(s, s.waitLock.value)
    && PcOf(s, s.waitLock.value).ReparentWake? && PcOf(s, s.waitLock.value).j <= q
  }

  /** What slots p and q owe each other. */
  ghost predicate PairOk(s: State, p: nat, q: nat)
    requires p < |s.procs| && q < |s.procs|
  {
    var x, y := s.procs[p], s.procs[q];
    && (p != q && x.state != Unused && y.state != Unused ==> x.pid != y.pid)
    // exit: children already handed to init
    && (x.pc.Reparent? && q < x.pc.i ==> y.parent != Some(p))
    && (x.pc.ReparentWake? && q <= x.pc.i ==> y.parent != Some(p))
    && (x.pc.ExitWake? || x.pc.ExitLock? || x.pc == AtSched(Dead) || x.pc == Saved(Dead) ==> y.parent != Some(p))
    // exit: the parent has been woken
    && (x.pc.ExitWake? && x.parent == Some(q) && q < x.pc.j ==> !InWait(s, q))
    && (x.pc.ExitLock? && x.parent == Some(q) ==> !InWait(s, q))
    // wait: nothing found so far, and nobody sleeps through a zombie child
    && (x.pc.WaitScan? && q < x.pc.i ==> !ZombieChild(s, q, p))
    && (x.pc.SleepEntry? && x.pc.lk == WaitLk ==> !ZombieChild(s, q, p))
    && (InWait(s, p) && ZombieChild(s, q, p) ==> WakePending(s, p))
  }

  ghost predicate CpuOk(s: State, c: nat)
    requires c < |s.cpus|
  {
    s.cpus[c].proc.Some? ==> s.cpus[c].proc.value < |s.procs| && s.procs[s.cpus[c].proc.value].cpu == Some(c)
  }

  ghost predicate SpinOk(s: State, l: nat)
    requires l < |s.sls|
  {
    && (s.sls[l].spin.Some? ==>
          OnThread(s, s.sls[l].spin.value) && SpinHeld(PcOf(s, s.sls[l].spin.value)) == Some(l))
    && (s.sls[l].locked ==> s.sls[l].owner < |s.procs| && l in s.procs[s.sls[l].owner].owned)
  }

  /** releasesleep has cleared the lock and has yet to reach q in its wakeup loop. */
  predicate ReleasePending(s: State, l: nat, q: nat)
    requires l < |s.sls|
  {
    && s.sls[l].spin.Some? && OnThread(s, s.sls[l].spin.value)
    && PcOf(s, s.sls[l].spin.value).RelWake? && PcOf(s, s.sls[l].spin.value).l == l
    && PcOf(s, s.sls[l].spin.value).j <= q
  }

  /** A process asleep on a sleep lock is waiting for a holder, or is about to be woken. */
  ghost predicate SleeperOk(s: State, q: nat)
    requires q < |s.procs|
  {
    s.procs[q].state == Sleeping && s.procs[q].chan.LockChan? ==>
      && s.procs[q].chan.l < |s.sls|
      && (s.sls[s.procs[q].chan.l].locked || ReleasePending(s, s.procs[q].chan.l, q))
  }

  ghost predicate SlotOk(s: State, p: nat)
    requires p < |s.procs|
  {
    RunOk(s, p) && TreeOk(s, p) && LockOk(s, p) && SleeperOk(s, p)
  }

  ghost predicate WaitLockOk(s: State) {
    s.waitLock.Some? ==> OnThread(s, s.waitLock.value) && HoldsWait(PcOf(s, s.waitLock.value))
  }

  predicate ChildOf(s: State, q: nat, p: nat) { q < |s.procs| && s.procs[q].parent == Some(p) }

  /** What a system call in progress has found out: wait() knows whether a slot it has passed is a
      child, and releasesleep() has cleared the lock for as long as it wakes. */
  ghost predicate CallOk(s: State, p: nat)
    requires p < |s.procs|
  {
    var x := s.procs[p];
    && (x.pc.WaitScan? ==> (x.pc.kids <==> exists q: nat :: q < x.pc.i && ChildOf(s, q, p)))
    && (x.pc.RelWake? && x.pc.l < |s.sls| ==> !s.sls[x.pc.l].locked)
    && LoopOk(s, x.pc)
  }

  /** Loops over the table stay within it. */
  predicate LoopOk(s: State, pc: Pc) {
    (pc.WaitScan? ==> pc.i <= |s.procs|) && (InWakeLoop(pc) ==> pc.j <= |s.procs|)
  }

  ghost predicate Inv(s: State) {
    Sound(s) && forall p {:trigger CallOk(s, p)} :: 0 <= p < |s.procs| ==> CallOk(s, p)
  }

  ghost predicate Sound(s: State) {
    && s.init < |s.procs| && WaitLockOk(s)
    && (forall p {:trigger SlotOk(s, p)} :: 0 <= p < |s.procs| ==> SlotOk(s, p))
    && (forall p, q {:trigger PairOk(s, p, q)} :: 0 <= p < |s.procs| && 0 <= q < |s.procs| ==> PairOk(s, p, q))
    && (forall c {:trigger CpuOk(s, c)} :: 0 <= c < |s.cpus| ==> CpuOk(s, c))
    && (forall l {:trigger SpinOk(s, l)} :: 0 <= l < |s.sls| ==> SpinOk(s, l))
  }
}
