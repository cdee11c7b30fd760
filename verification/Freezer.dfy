/** freeze and unfreeze: what a frozen slot can and cannot do, over whole runs. */
module Freezer {
  import opened Process
  import opened ProcessSteps
  import opened ProcessTheorems

  predicate Frozen(s: State, i: nat) { i < |s.procs| && s.procs[i].frozen }

  predicate OffCpu(s: State, i: nat) { i < |s.procs| && s.procs[i].cpu.None? }

  /** Only freeze and unfreeze of that slot change the flag; freeproc and allocproc do not. */
  lemma FlagOnlyBySyscall(s: State, a: Action, t: State, i: nat)
    requires Step(s, a, t) && i < |s.procs|
    ensures |t.procs| == |s.procs|
    ensures t.procs[i].frozen == s.procs[i].frozen || (a.Freeze? && a.i == i) || (a.Unfreeze? && a.i == i)
  {
    StepFrame(s, a, t, i);
  }

  /** A frozen slot is never dispatched. */
  lemma NeverDispatched(s: State, a: Action, t: State, i: nat)
    requires Step(s, a, t) && Frozen(s, i)
    ensures !(a.Dispatch? && a.p == i)
  {
  }

  /** What others may do to a process that is off the CPU: make it runnable, mark it
      killed, freeze or unfreeze it, reparent it, complete or abandon its fork, free it when
      it is a zombie, or claim its free slot. */
  predicate ByOthers(o: Proc, x: Proc) {
    || (&& x == o.(state := x.state, killed := x.killed, frozen := x.frozen, parent := x.parent, lock := x.lock,
                   cpu := x.cpu, maker := x.maker)
        && (x.state == o.state || (o.state == Sleeping && x.state == Runnable) || (o.state == Used && x.state == Runnable)
            || (o.state == Runnable && x.state == Running && !o.frozen))
        && (o.killed ==> x.killed))
    || (o.state == Used && x == Freed(o))
    || (o.state == Zombie && x == Freed(o))
    || (o.state == Unused && x.state == Used && x.frozen == o.frozen)
  }

  lemma OthersMove(s: State, a: Action, t: State, i: nat)
    requires Inv(s) && Step(s, a, t) && OffCpu(s, i)
    ensures |t.procs| == |s.procs| && ByOthers(s.procs[i], t.procs[i])
    ensures t.procs[i].cpu.None? || (a.Dispatch? && a.p == i)
  {
    if Acts(s, a, i) { ActsOnCpu(s, a, i); }
    else if Target(s, a) == Some(i) { TargetIs(s, a, t, i); }
    else { StepFrame(s, a, t, i); }
  }

  lemma FrozenMove(s: State, a: Action, t: State, i: nat)
    requires Inv(s) && Step(s, a, t) && OffCpu(s, i) && Frozen(s, i)
    ensures OffCpu(t, i)
  {
    OthersMove(s, a, t, i);
    NeverDispatched(s, a, t, i);
  }

  // ---------------------------------------------------------------- over whole runs

  predicate Unfreezes(a: Action, i: nat) { a.Unfreeze? && a.i == i }

  ghost predicate NotUnfrozen(acts: seq<Action>, i: nat) {
    forall k :: 0 <= k < |acts| ==> !Unfreezes(acts[k], i)
  }

  lemma {:induction false} FlagStays(states: seq<State>, acts: seq<Action>, i: nat, k: nat)
    requires Run(states, acts) && Frozen(states[0], i) && NotUnfrozen(acts, i) && k < |states|
    ensures Frozen(states[k], i)
  {
    if k > 0 {
      FlagStays(states, acts, i, k - 1);
      FlagOnlyBySyscall(states[k - 1], acts[k - 1], states[k], i);
    }
  }

  /** From a freeze until an unfreeze of that slot the scheduler never picks it. */
  lemma FrozenNotScheduled(states: seq<State>, acts: seq<Action>, i: nat, k: nat)
    requires Run(states, acts) && Frozen(states[0], i) && NotUnfrozen(acts, i) && k < |acts|
    ensures !(acts[k].Dispatch? && acts[k].p == i)
  {
    FlagStays(states, acts, i, k);
    NeverDispatched(states[k], acts[k], states[k + 1], i);
  }

  /** Nor does it get a CPU in any other way, once it has left its own. */
  lemma {:induction false} FrozenStaysOff(states: seq<State>, acts: seq<Action>, i: nat, k: nat, m: nat)
    requires Run(states, acts) && Inv(states[0]) && Frozen(states[0], i) && NotUnfrozen(acts, i)
    requires k <= m < |states| && OffCpu(states[k], i)
    ensures OffCpu(states[m], i)
    decreases m
  {
    if k < m {
      FrozenStaysOff(states, acts, i, k, m - 1);
      RunInv(states, acts, m - 1);
      FlagStays(states, acts, i, m - 1);
      FrozenMove(states[m - 1], acts[m - 1], states[m], i);
    }
  }

  /** A process that is off the CPU and neither dead nor half built: what freeze finds. */
  predicate Parked(s: State, i: nat) {
    OffCpu(s, i) && FreeSlot(s, i) && (s.procs[i].state == Used || s.procs[i].state == Sleeping || s.procs[i].state == Runnable)
  }

  /** Woken, completed, killed or reparented at most; everything else as it was. */
  predicate Still(o: Proc, x: Proc) {
    && x == o.(state := x.state, killed := x.killed, parent := x.parent, maker := x.maker)
    && (x.state == o.state || (x.state == Runnable && (o.state == Sleeping || o.state == Used)))
    && (o.killed ==> x.killed)
  }

  /** fork no longer fails once it has dropped the child's lock. */
  lemma ParkedMove(s: State, a: Action, t: State, i: nat)
    requires Inv(s) && Step(s, a, t) && Parked(s, i) && Frozen(s, i) && !Unfreezes(a, i)
    ensures Parked(t, i) && Frozen(t, i) && Still(s.procs[i], t.procs[i])
  {
    if Acts(s, a, i) { ActsOnCpu(s, a, i); }
    else if Target(s, a) == Some(i) { TargetIs(s, a, t, i); }
    else { StepFrame(s, a, t, i); }
  }

  /** A frozen process that is off the CPU executes nothing: its place in the kernel,
      channel, pid, status and locks stay as they were and it neither exits nor is reaped,
      until it is unfrozen. */
  lemma {:induction false} FrozenStandsStill(states: seq<State>, acts: seq<Action>, i: nat, k: nat)
    requires Run(states, acts) && Inv(states[0]) && Frozen(states[0], i) && NotUnfrozen(acts, i)
    requires k < |states| && Parked(states[0], i)
    ensures Parked(states[k], i) && Frozen(states[k], i) && Still(states[0].procs[i], states[k].procs[i])
    decreases k
  {
    if k > 0 {
      FrozenStandsStill(states, acts, i, k - 1);
      RunInv(states, acts, k - 1);
      ParkedMove(states[k - 1], acts[k - 1], states[k], i);
    }
  }

  /** unfreeze clears the flag and leaves a process that is off the CPU runnable, so that
      any idle CPU may pick it up again. */
  lemma Thawed(s: State, c: nat, i: nat, t: State, d: nat)
    requires Inv(s) && Step(s, Unfreeze(c, i), t) && Parked(s, i) && s.procs[i].state != Used
    requires d < |t.cpus| && t.cpus[d].proc.None?
    ensures !Frozen(t, i) && t.procs[i].state == Runnable
    ensures Step(t, Dispatch(d, i), NextDispatch(t, d, i))
  {
  }

  // ---------------------------------------------------------------- the flag outlives the process

  predicate TouchesFlag(a: Action, i: nat) { (a.Freeze? || a.Unfreeze?) && a.i == i }

  lemma {:induction false} FlagKept(states: seq<State>, acts: seq<Action>, i: nat, k: nat, m: nat)
    requires Run(states, acts) && k <= m < |states| && i < |states[k].procs|
    requires forall j :: k <= j < m ==> !TouchesFlag(acts[j], i)
    ensures i < |states[m].procs| && states[m].procs[i].frozen == states[k].procs[i].frozen
    decreases m
  {
    if k < m {
      FlagKept(states, acts, i, k, m - 1);
      FlagOnlyBySyscall(states[m - 1], acts[m - 1], states[m], i);
    }
  }

  /** A process starts frozen exactly when the slot's last occupant was reaped frozen, unless
      an unfreeze has reached the empty slot in between. */
  lemma FrozenAtBirth(states: seq<State>, acts: seq<Action>, i: nat, k: nat, m: nat)
    requires Run(states, acts) && Inv(states[0]) && k < m < |acts|
    requires Reaps(states[k], acts[k], i) && acts[m].ForkAlloc? && acts[m].np == i
    requires forall j :: k < j < m ==> !TouchesFlag(acts[j], i)
    ensures i < |states[k].procs| && i < |states[m + 1].procs| && states[m + 1].procs[i].state == Used
    ensures states[m + 1].procs[i].frozen <==> states[k].procs[i].frozen
  {
    RunInv(states, acts, k);
    ReapKeepsFlag(states[k], acts[k], states[k + 1], i);
    FlagKept(states, acts, i, k + 1, m);
    RunInv(states, acts, m);
    NewUsed(states[m], acts[m].c, i, states[m + 1]);
    FlagOnlyBySyscall(states[m], acts[m], states[m + 1], i);
  }

  lemma ReapKeepsFlag(s: State, a: Action, t: State, i: nat)
    requires Inv(s) && Step(s, a, t) && Reaps(s, a, i)
    ensures i < |s.procs| == |t.procs| && t.procs[i].frozen == s.procs[i].frozen
  {
    ReapIsClean(s, a.c, t);
    FlagOnlyBySyscall(s, a, t, i);
  }

  lemma NewUsed(s: State, c: nat, np: nat, t: State)
    requires Inv(s) && Step(s, ForkAlloc(c, np), t)
    ensures np < |t.procs| && t.procs[np].state == Used && t.procs[np].pid == s.nextpid
  {
    ThreadIs(s, c);
  }

  // Runs from boot with two slots and two CPUs, init (pid 1) in slot 0.

  function Two(init: Pc, child: Proc, cpu1: Cpu, w: Option<nat>, next: nat): State {
    State([Proc(Running, NoChan, false, 0, 1, false, None, None, init, Some(0), None, {}), child],
          [Cpu(Some(0), false), cpu1], w, [], next, 0)
  }

  const FREE := Proc(Unused, NoChan, false, 0, 0, false, None, None, NoThread, None, None, {})

  const IDLE := Cpu(None, false)

  // ---------------------------------------------------------------- so does a kill of an empty slot

  predicate Kills(a: Action, i: nat) { a.Kill? && a.i == i }

  predicate Claimed(a: Action, i: nat) { a.ForkAlloc? && a.np == i }

  predicate Empty(s: State, i: nat) { i < |s.procs| && s.procs[i].state == Unused }

  /** An empty slot stays empty until it is claimed, and only kill marks it killed. */
  lemma EmptyMove(s: State, a: Action, t: State, i: nat)
    requires Inv(s) && Step(s, a, t) && Empty(s, i) && !Claimed(a, i)
    ensures Empty(t, i) && (t.procs[i].killed <==> s.procs[i].killed || Kills(a, i))
  {
    SlotIs(s, i);
    if Acts(s, a, i) { ActsOnCpu(s, a, i); }
    else if Target(s, a) == Some(i) { TargetIs(s, a, t, i); }
    else { StepFrame(s, a, t, i); }
  }

  ghost predicate KilledBetween(acts: seq<Action>, i: nat, k: nat, m: nat) {
    exists j :: k <= j < m && j < |acts| && Kills(acts[j], i)
  }

  lemma KilledNext(acts: seq<Action>, i: nat, k: nat, m: nat)
    requires k <= m < |acts|
    ensures KilledBetween(acts, i, k, m + 1) <==> KilledBetween(acts, i, k, m) || Kills(acts[m], i)
  {
    if j :| k <= j < m + 1 && j < |acts| && Kills(acts[j], i) { assert j < m || Kills(acts[m], i); }
  }

  lemma {:induction false} EmptyStays(states: seq<State>, acts: seq<Action>, i: nat, k: nat, m: nat)
    requires Run(states, acts) && Inv(states[0]) && k <= m < |states| && Empty(states[k], i) && !states[k].procs[i].killed
    requires forall j :: k <= j < m ==> !Claimed(acts[j], i)
    ensures Empty(states[m], i) && (states[m].procs[i].killed <==> KilledBetween(acts, i, k, m))
    decreases m
  {
    if k < m {
      EmptyStays(states, acts, i, k, m - 1);
      RunInv(states, acts, m - 1);
      EmptyMove(states[m - 1], acts[m - 1], states[m], i);
      if Kills(acts[m - 1], i) { assert KilledBetween(acts, i, k, m); }
    }
  }

  /** freeproc of slot i, from wait or from a failing fork. */
  predicate Frees(s: State, a: Action, i: nat) { Reaps(s, a, i) || (a.ForkFail? && Target(s, a) == Some(i)) }

  lemma FreedEmpty(s: State, a: Action, t: State, i: nat)
    requires Inv(s) && Step(s, a, t) && Frees(s, a, i)
    ensures Empty(t, i) && !t.procs[i].killed
  {
    ThreadIs(s, a.c);
    assert i < |s.procs|;
    SlotIs(s, i);
    TargetIs(s, a, t, i);
  }

  lemma ClaimedKilled(s: State, c: nat, i: nat, t: State)
    requires Inv(s) && Step(s, ForkAlloc(c, i), t)
    ensures i < |s.procs| == |t.procs| && t.procs[i].state == Used && t.procs[i].killed == s.procs[i].killed
  {
    ThreadIs(s, c);
  }

  /** A process starts killed exactly when a kill has reached the slot since it was empty and not
      killed, as it is at boot and after freeproc: allocproc does not clear the flag. */
  lemma KilledAtBirth(states: seq<State>, acts: seq<Action>, i: nat, k: nat, m: nat)
    requires Run(states, acts) && Inv(states[0]) && k <= m < |acts|
    requires Empty(states[k], i) && !states[k].procs[i].killed && Claimed(acts[m], i) && forall j :: k <= j < m ==> !Claimed(acts[j], i)
    ensures i < |states[m + 1].procs| && states[m + 1].procs[i].state == Used
    ensures states[m + 1].procs[i].killed <==> KilledBetween(acts, i, k, m)
  {
    EmptyStays(states, acts, i, k, m);
    RunInv(states, acts, m);
    ClaimedKilled(states[m], acts[m].c, i, states[m + 1]);
  }

  const BOOTED := State([FREE.(state := Runnable, pid := 1, pc := ForkRet), FREE], [IDLE, IDLE], None, [], 2, 0)

  function Marked(killed: bool): State { Two(User, FREE.(killed := killed), IDLE, None, 2) }

  lemma InitRuns()
    ensures Step(BOOTED, Dispatch(0, 0), NextDispatch(BOOTED, 0, 0)) && Boot(BOOTED)
    ensures Step(NextDispatch(BOOTED, 0, 0), Continue(0), Marked(false))
  {
  }

  lemma InitKills()
    ensures Step(Marked(false), Kill(0, 1), Marked(true))
  {
  }

  lemma InitForks()
    ensures OnThread(Marked(true), 0) && Step(Marked(true), ForkAlloc(0, 1), NextForkAlloc(Marked(true), 0, 1))
  {
  }

  /** From boot, a process can be born killed: init kills an empty slot, which is what kill(0)
      finds, and then forks into it. */
  lemma BornKilled() returns (ss: seq<State>, acts: seq<Action>)
    ensures Run(ss, acts) && Boot(ss[0]) && acts == [Dispatch(0, 0), Continue(0), Kill(0, 1), ForkAlloc(0, 1)]
    ensures Empty(ss[2], 1) && ss[2].procs[1].pid == 0
    ensures |ss[4].procs| == 2 && ss[4].procs[1].pid == 2 && ss[4].procs[1].killed
  {
    InitRuns();
    InitKills();
    InitForks();
    ss := [BOOTED, NextDispatch(BOOTED, 0, 0), Marked(false), Marked(true), NextForkAlloc(Marked(true), 0, 1)];
    acts := [Dispatch(0, 0), Continue(0), Kill(0, 1), ForkAlloc(0, 1)];
  }

  // A run from boot in which a process is born frozen.

  /** pid 2 before it first runs. */
  function Embryo(st: RunState, parent: Option<nat>, lock: Option<nat>, maker: Option<nat>): Proc {
    Proc(st, NoChan, false, 0, 2, false, parent, lock, ForkRet, None, maker, {})
  }

  /** pid 2 running on CPU 1. */
  function Child(frozen: bool, pc: Pc): Proc {
    Proc(Running, NoChan, false, 0, 2, frozen, Some(0), None, pc, Some(1), None, {})
  }

  function Dying(pc: Pc): State { Two(User, Child(true, pc), Cpu(Some(1), false), Some(1), 3) }

  /** pid 2 dead, still frozen. */
  function Corpse(lock: Option<nat>, pc: Pc, cpu: Option<nat>): Proc {
    Proc(Zombie, NoChan, false, 0, 2, true, Some(0), lock, pc, cpu, None, {})
  }

  /** A run in which the only process ever frozen is pid 2, in slot 1. */
  ghost predicate OnlyPid2(ss: seq<State>, acts: seq<Action>) {
    Run(ss, acts) && forall k :: 0 <= k < |acts| ==> acts[k].Freeze? ==> FreezesPid2(ss[k], acts[k])
  }

  predicate FreezesPid2(s: State, a: Action) { a.Freeze? && a.i == 1 && |s.procs| == 2 && s.procs[1].pid == 2 }

  lemma Then(ss: seq<State>, acts: seq<Action>, a: Action, t: State) returns (tt: seq<State>, more: seq<Action>)
    requires OnlyPid2(ss, acts) && Step(ss[|acts|], a, t) && (a.Freeze? ==> FreezesPid2(ss[|acts|], a))
    ensures OnlyPid2(tt, more) && tt[0] == ss[0] && tt[|more|] == t
  {
    tt, more := ss + [t], acts + [a];
    forall k | 0 <= k < |more| ensures Step(tt[k], more[k], tt[k + 1]) && (more[k].Freeze? ==> FreezesPid2(tt[k], more[k])) {
      if k < |acts| { assert more[k] == acts[k] && tt[k] == ss[k] && tt[k + 1] == ss[k + 1]; }
    }
  }

  lemma BootToUser() returns (ss: seq<State>, acts: seq<Action>)
    ensures OnlyPid2(ss, acts) && Boot(ss[0]) && ss[|acts|] == Two(User, FREE, IDLE, None, 2)
  {
    var boot := State([FREE.(state := Runnable, pid := 1, pc := ForkRet), FREE], [IDLE, IDLE], None, [], 2, 0);
    ss, acts := Then([boot], [], Dispatch(0, 0), NextDispatch(boot, 0, 0));
    ss, acts := Then(ss, acts, Continue(0), Two(User, FREE, IDLE, None, 2));
  }

  lemma AllocPid2(ss: seq<State>, acts: seq<Action>) returns (tt: seq<State>, more: seq<Action>)
    requires OnlyPid2(ss, acts) && ss[|acts|] == Two(User, FREE, IDLE, None, 2)
    ensures OnlyPid2(tt, more) && tt[0] == ss[0] && tt[|more|] == Two(ForkSetup(1), Embryo(Used, None, Some(0), Some(0)), IDLE, None, 3)
  {
    tt, more := Then(ss, acts, ForkAlloc(0, 1), Two(ForkSetup(1), Embryo(Used, None, Some(0), Some(0)), IDLE, None, 3));
  }

  lemma CopyPid2(ss: seq<State>, acts: seq<Action>) returns (tt: seq<State>, more: seq<Action>)
    requires OnlyPid2(ss, acts) && ss[|acts|] == Two(ForkSetup(1), Embryo(Used, None, Some(0), Some(0)), IDLE, None, 3)
    ensures OnlyPid2(tt, more) && tt[0] == ss[0] && tt[|more|] == Two(ForkParent(1), Embryo(Used, None, None, Some(0)), IDLE, None, 3)
  {
    tt, more := Then(ss, acts, ForkCopied(0), Two(ForkParent(1), Embryo(Used, None, None, Some(0)), IDLE, None, 3));
  }

  lemma ParentPid2(ss: seq<State>, acts: seq<Action>) returns (tt: seq<State>, more: seq<Action>)
    requires OnlyPid2(ss, acts) && ss[|acts|] == Two(ForkParent(1), Embryo(Used, None, None, Some(0)), IDLE, None, 3)
    ensures OnlyPid2(tt, more) && tt[0] == ss[0] && tt[|more|] == Two(ForkReady(1), Embryo(Used, Some(0), None, Some(0)), IDLE, None, 3)
  {
    tt, more := Then(ss, acts, SetParent(0), Two(ForkReady(1), Embryo(Used, Some(0), None, Some(0)), IDLE, None, 3));
  }

  lemma ReadyPid2(ss: seq<State>, acts: seq<Action>) returns (tt: seq<State>, more: seq<Action>)
    requires OnlyPid2(ss, acts) && ss[|acts|] == Two(ForkReady(1), Embryo(Used, Some(0), None, Some(0)), IDLE, None, 3)
    ensures OnlyPid2(tt, more) && tt[0] == ss[0] && tt[|more|] == Two(User, Embryo(Runnable, Some(0), None, None), IDLE, None, 3)
  {
    tt, more := Then(ss, acts, SetReady(0), Two(User, Embryo(Runnable, Some(0), None, None), IDLE, None, 3));
  }

  lemma RunPid2(ss: seq<State>, acts: seq<Action>) returns (tt: seq<State>, more: seq<Action>)
    requires OnlyPid2(ss, acts) && ss[|acts|] == Two(User, Embryo(Runnable, Some(0), None, None), IDLE, None, 3)
    ensures OnlyPid2(tt, more) && tt[0] == ss[0] && tt[|more|] == Two(User, Child(false, User), Cpu(Some(1), false), None, 3)
  {
    tt, more := Then(ss, acts, Dispatch(1, 1), Two(User, Child(false, ForkRet).(lock := Some(1)), Cpu(Some(1), false), None, 3));
    tt, more := Then(tt, more, Continue(1), Two(User, Child(false, User), Cpu(Some(1), false), None, 3));
  }

  /** init on its way through wait() while pid 2 runs. */
  function InitWaits(pc: Pc, killed: bool): State {
    var s := Two(pc, Child(false, User), Cpu(Some(1), false), Some(0), 3);
    s.(procs := s.procs[0 := s.procs[0].(killed := killed)])
  }

  function InitAsleep(): State {
    var s := Two(AtSched(FromSleep(ProcChan(0), WaitLk)), Child(false, User), Cpu(Some(1), false), None, 3);
    s.(procs := s.procs[0 := s.procs[0].(killed := true, state := Sleeping, chan := ProcChan(0), lock := Some(0))])
  }

  lemma InitScans(ss: seq<State>, acts: seq<Action>) returns (tt: seq<State>, more: seq<Action>)
    requires OnlyPid2(ss, acts) && ss[|acts|] == Two(User, Child(false, User), Cpu(Some(1), false), None, 3)
    ensures OnlyPid2(tt, more) && tt[0] == ss[0] && tt[|more|] == InitWaits(WaitScan(2, true), false)
  {
    tt, more := Then(ss, acts, Wait(0), InitWaits(WaitScan(0, false), false));
    tt, more := ScanTurn(tt, more, 0, 1, false);
    tt, more := ScanTurn(tt, more, 1, 2, true);
  }

  lemma ScanTurn(ss: seq<State>, acts: seq<Action>, i: nat, k: nat, kids: bool) returns (tt: seq<State>, more: seq<Action>)
    requires OnlyPid2(ss, acts) && i < 2 && k == i + 1 && (kids <==> i == 1) && ss[|acts|] == InitWaits(WaitScan(i, false), false)
    ensures OnlyPid2(tt, more) && tt[0] == ss[0] && tt[|more|] == InitWaits(WaitScan(k, kids), false)
  {
    tt, more := Then(ss, acts, ScanStep(0), InitWaits(WaitScan(k, kids), false));
  }

  lemma InitDecides(ss: seq<State>, acts: seq<Action>) returns (tt: seq<State>, more: seq<Action>)
    requires OnlyPid2(ss, acts) && ss[|acts|] == InitWaits(WaitScan(2, true), false)
    ensures OnlyPid2(tt, more) && tt[0] == ss[0] && tt[|more|] == InitWaits(SleepEntry(ProcChan(0), WaitLk), false)
  {
    tt, more := Then(ss, acts, ScanDone(0), InitWaits(SleepEntry(ProcChan(0), WaitLk), false));
  }

  lemma InitKilled(ss: seq<State>, acts: seq<Action>) returns (tt: seq<State>, more: seq<Action>)
    requires OnlyPid2(ss, acts) && ss[|acts|] == InitWaits(SleepEntry(ProcChan(0), WaitLk), false)
    ensures OnlyPid2(tt, more) && tt[0] == ss[0] && tt[|more|] == InitWaits(SleepEntry(ProcChan(0), WaitLk), true)
  {
    tt, more := Then(ss, acts, Kill(1, 0), InitWaits(SleepEntry(ProcChan(0), WaitLk), true));
  }

  lemma InitSleeps(ss: seq<State>, acts: seq<Action>) returns (tt: seq<State>, more: seq<Action>)
    requires OnlyPid2(ss, acts) && ss[|acts|] == InitWaits(SleepEntry(ProcChan(0), WaitLk), true)
    ensures OnlyPid2(tt, more) && tt[0] == ss[0] && tt[|more|] == InitAsleep()
  {
    tt, more := Then(ss, acts, EnterSleep(0), InitAsleep());
  }

  /** From boot, kill can miss a process in wait(): pid 2 kills init after init has looked at its flag
      and before init sleeps, and init sleeps on. */
  lemma SleepsThroughKill() returns (ss: seq<State>, acts: seq<Action>)
    ensures Run(ss, acts) && Boot(ss[0]) && |ss[|acts|].procs| == 2 && InWait(ss[|acts|], 0) && ss[|acts|].procs[0].killed
  {
    ss, acts := BootToUser();
    ss, acts := AllocPid2(ss, acts);
    ss, acts := CopyPid2(ss, acts);
    ss, acts := ParentPid2(ss, acts);
    ss, acts := ReadyPid2(ss, acts);
    ss, acts := RunPid2(ss, acts);
    ss, acts := InitScans(ss, acts);
    ss, acts := InitDecides(ss, acts);
    ss, acts := InitKilled(ss, acts);
    ss, acts := InitSleeps(ss, acts);
  }

  lemma FreezePid2(ss: seq<State>, acts: seq<Action>) returns (tt: seq<State>, more: seq<Action>)
    requires OnlyPid2(ss, acts) && ss[|acts|] == Two(User, Child(false, User), Cpu(Some(1), false), None, 3)
    ensures OnlyPid2(tt, more) && tt[0] == ss[0] && tt[|more|] == Two(User, Child(true, User), Cpu(Some(1), false), None, 3)
  {
    tt, more := Then(ss, acts, Freeze(0, 1), Two(User, Child(true, User), Cpu(Some(1), false), None, 3));
  }

  lemma ExitPid2(ss: seq<State>, acts: seq<Action>) returns (tt: seq<State>, more: seq<Action>)
    requires OnlyPid2(ss, acts) && ss[|acts|] == Two(User, Child(true, User), Cpu(Some(1), false), None, 3)
    ensures OnlyPid2(tt, more) && tt[0] == ss[0] && tt[|more|] == Dying(Reparent(0))
  {
    tt, more := Then(ss, acts, Exit(1), Dying(Reparent(0)));
  }

  lemma HandTurn(ss: seq<State>, acts: seq<Action>, i: nat, k: nat) returns (tt: seq<State>, more: seq<Action>)
    requires OnlyPid2(ss, acts) && i < 2 && k == i + 1 && ss[|acts|] == Dying(Reparent(i))
    ensures OnlyPid2(tt, more) && tt[0] == ss[0] && tt[|more|] == Dying(Reparent(k))
  {
    tt, more := Then(ss, acts, ReparentStep(1), Dying(Reparent(k)));
  }

  lemma HandOver(ss: seq<State>, acts: seq<Action>) returns (tt: seq<State>, more: seq<Action>)
    requires OnlyPid2(ss, acts) && ss[|acts|] == Dying(Reparent(2))
    ensures OnlyPid2(tt, more) && tt[0] == ss[0] && tt[|more|] == Dying(ExitWake(0))
  {
    tt, more := Then(ss, acts, ReparentStep(1), Dying(ExitWake(0)));
  }

  lemma WakeTurn(ss: seq<State>, acts: seq<Action>, j: nat, k: nat) returns (tt: seq<State>, more: seq<Action>)
    requires OnlyPid2(ss, acts) && j < 2 && k == j + 1 && ss[|acts|] == Dying(ExitWake(j))
    ensures OnlyPid2(tt, more) && tt[0] == ss[0] && tt[|more|] == Dying(ExitWake(k))
  {
    tt, more := Then(ss, acts, WakeSlot(1), Dying(ExitWake(k)));
  }

  lemma InitWoken(ss: seq<State>, acts: seq<Action>) returns (tt: seq<State>, more: seq<Action>)
    requires OnlyPid2(ss, acts) && ss[|acts|] == Dying(ExitWake(2))
    ensures OnlyPid2(tt, more) && tt[0] == ss[0] && tt[|more|] == Dying(ExitLock)
  {
    tt, more := Then(ss, acts, WakeDone(1), Dying(ExitLock));
  }

  lemma DiePid2(ss: seq<State>, acts: seq<Action>) returns (tt: seq<State>, more: seq<Action>)
    requires OnlyPid2(ss, acts) && ss[|acts|] == Dying(ExitLock)
    ensures OnlyPid2(tt, more) && tt[0] == ss[0] && tt[|more|] == Two(User, Corpse(None, Saved(Dead), None), IDLE, None, 3)
  {
    tt, more := Then(ss, acts, ExitFinish(1, 0), Two(User, Corpse(Some(1), AtSched(Dead), Some(1)), Cpu(Some(1), false), None, 3));
    tt, more := Then(tt, more, Sched(1), Two(User, Corpse(Some(1), Saved(Dead), Some(1)), Cpu(Some(1), true), None, 3));
    tt, more := Then(tt, more, Undispatch(1), Two(User, Corpse(None, Saved(Dead), None), IDLE, None, 3));
  }

  lemma WaitPid2(ss: seq<State>, acts: seq<Action>) returns (tt: seq<State>, more: seq<Action>)
    requires OnlyPid2(ss, acts) && ss[|acts|] == Two(User, Corpse(None, Saved(Dead), None), IDLE, None, 3)
    ensures OnlyPid2(tt, more) && tt[0] == ss[0] && tt[|more|] == Two(WaitScan(0, false), Corpse(None, Saved(Dead), None), IDLE, Some(0), 3)
  {
    tt, more := Then(ss, acts, Wait(0), Two(WaitScan(0, false), Corpse(None, Saved(Dead), None), IDLE, Some(0), 3));
  }

  lemma FindPid2(ss: seq<State>, acts: seq<Action>) returns (tt: seq<State>, more: seq<Action>)
    requires OnlyPid2(ss, acts) && ss[|acts|] == Two(WaitScan(0, false), Corpse(None, Saved(Dead), None), IDLE, Some(0), 3)
    ensures OnlyPid2(tt, more) && tt[0] == ss[0] && tt[|more|] == Two(WaitScan(1, false), Corpse(None, Saved(Dead), None), IDLE, Some(0), 3)
  {
    tt, more := Then(ss, acts, ScanStep(0), Two(WaitScan(1, false), Corpse(None, Saved(Dead), None), IDLE, Some(0), 3));
  }

  lemma ReapPid2(ss: seq<State>, acts: seq<Action>) returns (tt: seq<State>, more: seq<Action>)
    requires OnlyPid2(ss, acts) && ss[|acts|] == Two(WaitScan(1, false), Corpse(None, Saved(Dead), None), IDLE, Some(0), 3)
    ensures OnlyPid2(tt, more) && tt[0] == ss[0] && tt[|more|] == Two(User, FREE.(frozen := true), IDLE, None, 3)
  {
    tt, more := Then(ss, acts, Reap(0, true), Two(User, FREE.(frozen := true), IDLE, None, 3));
  }

  lemma AllocPid3(ss: seq<State>, acts: seq<Action>) returns (tt: seq<State>, more: seq<Action>)
    requires OnlyPid2(ss, acts) && ss[|acts|] == Two(User, FREE.(frozen := true), IDLE, None, 3)
    ensures OnlyPid2(tt, more) && tt[0] == ss[0]
    ensures tt[|more|] == Two(ForkSetup(1), Embryo(Used, None, Some(0), Some(0)).(pid := 3, frozen := true), IDLE, None, 4)
  {
    tt, more := Then(ss, acts, ForkAlloc(0, 1), Two(ForkSetup(1), Embryo(Used, None, Some(0), Some(0)).(pid := 3, frozen := true), IDLE, None, 4));
  }

  /** From boot, a process can be born frozen although nobody ever froze it: pid 2 is frozen
      while running, exits and is reaped, and pid 3 takes over its slot. */
  lemma BornFrozen() returns (ss: seq<State>, acts: seq<Action>)
    ensures OnlyPid2(ss, acts) && Boot(ss[0])
    ensures |ss[|acts|].procs| == 2 && ss[|acts|].procs[1].pid == 3 && ss[|acts|].procs[1].frozen
  {
    ss, acts := BootToUser();
    ss, acts := AllocPid2(ss, acts);
    ss, acts := CopyPid2(ss, acts);
    ss, acts := ParentPid2(ss, acts);
    ss, acts := ReadyPid2(ss, acts);
    ss, acts := RunPid2(ss, acts);
    ss, acts := FreezePid2(ss, acts);
    ss, acts := ExitPid2(ss, acts);
    ss, acts := HandTurn(ss, acts, 0, 1);
    ss, acts := HandTurn(ss, acts, 1, 2);
    ss, acts := HandOver(ss, acts);
    ss, acts := WakeTurn(ss, acts, 0, 1);
    ss, acts := WakeTurn(ss, acts, 1, 2);
    ss, acts := InitWoken(ss, acts);
    ss, acts := DiePid2(ss, acts);
    ss, acts := WaitPid2(ss, acts);
    ss, acts := FindPid2(ss, acts);
    ss, acts := ReapPid2(ss, acts);
    ss, acts := AllocPid3(ss, acts);
  }
}
