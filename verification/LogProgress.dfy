/** The log never gets stuck: whatever state processes, committer, crashes and recoveries have left
    the machine of Journal in, there are steps after which the log is open and everything that
    was logged is durable. */
module LogProgress {
  import opened Journal
  import Sets

  // ---------------------------------------------------------------- runs

  lemma OneStep(s: State, a: Action)
    requires Inv(s) && Enabled(s, a)
    ensures Runs(s, [a], Next(s, a)) && Inv(Next(s, a))
  {
    assert Runs(Next(s, a), [a][1..], Next(s, a));
    StepRefines(s, a);
  }

  lemma {:induction false} Joined(s: State, acts: seq<Action>, t: State, more: seq<Action>, u: State)
    requires Runs(s, acts, t) && Runs(t, more, u)
    ensures Runs(s, acts + more, u)
    decreases |acts|
  {
    if acts == [] {
      assert acts + more == more;
    } else {
      Joined(Next(s, acts[0]), acts[1..], t, more, u);
      assert (acts + more)[1..] == acts[1..] + more;
    }
  }

  /** The steps of operations that end, of the committer and of recovery. */
  predicate Ending(a: Action) { !a.BeginOp? && !a.Modify? && !a.LogWrite? && !a.Crash? }

  ghost predicate Reaches(s: State, t: State) {
    Inv(t) && exists acts :: Runs(s, acts, t) && forall k :: 0 <= k < |acts| ==> Ending(acts[k])
  }

  lemma ReachesSelf(s: State)
    requires Inv(s)
    ensures Reaches(s, s)
  {
    assert Runs(s, [], s);
  }

  lemma ReachesNext(s: State, t: State, a: Action)
    requires Reaches(s, t) && Enabled(t, a) && Ending(a)
    ensures Reaches(s, Next(t, a))
  {
    var acts :| Runs(s, acts, t) && forall k :: 0 <= k < |acts| ==> Ending(acts[k]);
    OneStep(t, a);
    Joined(s, acts, t, [a], Next(t, a));
  }

  /** No operation begins, writes or is lost on the way, so readers see the same. */
  lemma {:induction false} EndingRun(a: Abs, acts: seq<Action>)
    requires forall k :: 0 <= k < |acts| ==> Ending(acts[k])
    ensures SpecRun(a, acts).current == a.current
    decreases |acts|
  {
    if acts != [] { EndingRun(Spec(a, EventOf(acts[0])), acts[1..]); }
  }

  lemma ReachesView(s: State, t: State)
    requires Inv(s) && Reaches(s, t)
    ensures View(t).current == View(s).current
  {
    var acts :| Runs(s, acts, t) && forall k :: 0 <= k < |acts| ==> Ending(acts[k]);
    RunRefines(s, acts, t);
    EndingRun(View(s), acts);
  }

  // ---------------------------------------------------------------- bread and brelse

  /** Handle h holds no reference. */
  ghost predicate Stranger(s: State, h: Handle) { forall b :: b in s.cache ==> h !in s.cache[b].users }

  lemma NewHandle(s: State) returns (h: Handle)
    ensures Stranger(s, h)
  {
    var used := set b, g | b in s.cache && g in s.cache[b].users :: g;
    h := Sets.Outside(used);
    forall b | b in s.cache ensures h !in s.cache[b].users {
      assert forall g :: g in s.cache[b].users ==> g in used;
    }
  }

  /** The same but for what is cached. */
  predicate SameLog(s: State, t: State) { t.disk == s.disk && t.lh == s.lh && t.ops == s.ops && t.phase == s.phase }

  /** Handle h holds exactly the locked blocks of `held`. */
  ghost predicate HoldsOnly(s: State, h: Handle, held: set<nat>) {
    (forall b :: b in held ==> Holds(s, h, b)) && forall b :: b in s.cache && b !in held ==> h !in s.cache[b].users
  }

  /** u differs from t in the buffer of b only. */
  ghost predicate OnlyBuf(t: State, u: State, b: nat) {
    SameLog(t, u) && forall c :: c != b ==> (c in u.cache <==> c in t.cache) && (c in u.cache ==> u.cache[c] == t.cache[c])
  }

  /** Whoever has the buffer locked is done with it. */
  lemma AwaitLock(s: State, t: State, b: nat) returns (u: State)
    requires Reaches(s, t) && b in t.cache && t.cache[b].writer.None?
    ensures Reaches(s, u) && OnlyBuf(t, u, b) && b in u.cache && u.cache[b].holder.None? && u.cache[b].writer.None? && u.cache[b].users == t.cache[b].users
  {
    u := t;
    assert BufInv(t, b);
    if t.cache[b].holder.Some? {
      var a := Unlock(t.cache[b].holder.value, b);
      ReachesNext(s, t, a);
      u := Next(t, a);
    }
  }

  lemma Reference(s: State, t: State, h: Handle, b: nat) returns (u: State)
    requires Reaches(s, t) && b in t.disk && (b in t.cache ==> h !in t.cache[b].users && t.cache[b].writer.None?)
    ensures Reaches(s, u) && OnlyBuf(t, u, b) && b in u.cache && u.cache[b].holder.None? && u.cache[b].writer.None? && h in u.cache[b].users
  {
    u := t;
    if b in t.cache { u := AwaitLock(s, t, b); }
    ReachesNext(s, u, Bget(h, b));
    u := Next(u, Bget(h, b));
  }

  /** bread: wait for the lock, take a reference, lock, fill. */
  lemma Bread(s: State, t: State, h: Handle, held: set<nat>, b: nat) returns (u: State)
    requires Reaches(s, t) && !t.phase.Open? && HoldsOnly(t, h, held) && b in t.disk && b !in held
    ensures Reaches(s, u) && SameLog(t, u) && HoldsOnly(u, h, held + {b})
  {
    CommitAlone(t, b);
    u := Reference(s, t, h, b);
    u := LockFill(s, u, h, b);
  }

  lemma LockFill(s: State, t: State, h: Handle, b: nat) returns (u: State)
    requires Reaches(s, t) && b in t.cache && h in t.cache[b].users && t.cache[b].holder.None?
    ensures Reaches(s, u) && OnlyBuf(t, u, b) && Holds(u, h, b) && u.cache[b].writer == t.cache[b].writer
  {
    assert BufInv(t, b);
    ReachesNext(s, t, Lock(h, b));
    u := Next(t, Lock(h, b));
    if !u.cache[b].valid {
      ReachesNext(s, u, Fill(h, b));
      u := Next(u, Fill(h, b));
    }
  }

  lemma Brelse(s: State, t: State, h: Handle, held: set<nat>, b: nat) returns (u: State)
    requires Reaches(s, t) && !t.phase.Open? && HoldsOnly(t, h, held) && b in held
    ensures Reaches(s, u) && SameLog(t, u) && HoldsOnly(u, h, held - {b})
  {
    assert BufInv(t, b) && h in t.cache[b].users;
    ReachesNext(s, t, Unlock(h, b));
    u := Next(t, Unlock(h, b));
    assert BufInv(u, b);
    ReachesNext(s, u, Unref(h, b));
    u := Next(u, Unref(h, b));
  }

  // ---------------------------------------------------------------- the committer and recovery

  /** The turn of write_log or install_trans on entry i. */
  function Turn(s: State, h: Handle): Action {
    match s.phase
    case Copying(_) => CopyBlock(h, h)
    case Installing(_) => Install(h, h)
    case _ => Replay(h, h)
  }

  predicate Looping(p: Phase) { p.Copying? || p.Installing? || p.Replaying? }

  function NextEntry(p: Phase): Phase
    requires Looping(p)
  {
    match p
    case Copying(i) => Copying(i + 1)
    case Installing(i) => Installing(i + 1)
    case Replaying(i) => Replaying(i + 1)
  }

  lemma OneTurn(s: State, t: State, h: Handle) returns (u: State)
    requires Reaches(s, t) && Stranger(t, h) && Looping(t.phase) && t.phase.i < |t.lh|
    ensures Reaches(s, u) && Stranger(u, h) && u.phase == NextEntry(t.phase) && u.lh == t.lh
  {
    var a, b := t.lh[t.phase.i], LOGSTART + 1 + t.phase.i;
    u := Bread(s, t, h, {}, a);
    u := Bread(s, u, h, {a}, b);
    u := DoTurn(s, u, h, {a, b});
    u := Brelse(s, u, h, {a, b}, a);
    u := Brelse(s, u, h, {a, b} - {a}, b);
  }

  lemma DoTurn(s: State, t: State, h: Handle, held: set<nat>) returns (u: State)
    requires Reaches(s, t) && Looping(t.phase) && t.phase.i < |t.lh| && HoldsOnly(t, h, held)
    requires t.lh[t.phase.i] in held && LOGSTART + 1 + t.phase.i in held
    ensures Reaches(s, u) && HoldsOnly(u, h, held) && u.phase == NextEntry(t.phase) && u.lh == t.lh
  {
    TurnEnabled(t, h);
    ReachesNext(s, t, Turn(t, h));
    u := Next(t, Turn(t, h));
  }

  lemma TurnEnabled(t: State, h: Handle)
    requires Inv(t) && Looping(t.phase) && t.phase.i < |t.lh| && Holds(t, h, t.lh[t.phase.i]) && Holds(t, h, LOGSTART + 1 + t.phase.i)
    ensures Enabled(t, Turn(t, h))
  {
    assert BufInv(t, t.lh[t.phase.i]) && h in t.cache[t.lh[t.phase.i]].users;
  }

  lemma {:induction false} AllTurns(s: State, t: State, h: Handle) returns (u: State)
    requires Reaches(s, t) && Stranger(t, h) && Looping(t.phase)
    ensures Reaches(s, u) && Stranger(u, h) && Looping(u.phase) && u.phase.i == |u.lh| && u.lh == t.lh
    ensures u.phase.Copying? == t.phase.Copying? && u.phase.Installing? == t.phase.Installing?
    decreases |t.lh| - (if Looping(t.phase) then t.phase.i else 0)
  {
    assert t.phase.i <= |t.lh|;
    if t.phase.i == |t.lh| {
      u := t;
    } else {
      u := OneTurn(s, t, h);
      u := AllTurns(s, u, h);
    }
  }

  /** The stage that ends with an access to the header block, and the one that follows. */
  predicate AtHead(s: State, a: Action) {
    || (a.WriteHead? && s.phase == Copying(|s.lh|)) || (a.Erase? && s.phase == Installing(|s.lh|))
    || (a.ReadHead? && s.phase.Boot?) || (a.FinishRecovery? && s.phase == Replaying(|s.lh|))
  }

  function AfterHead(a: Action): Phase {
    if a.WriteHead? then Installing(0) else if a.Erase? then Closing else if a.ReadHead? then Replaying(0) else Open
  }

  lemma DoHead(s: State, t: State, h: Handle, a: Action) returns (u: State)
    requires Reaches(s, t) && HoldsOnly(t, h, {LOGSTART}) && AtHead(t, a) && a.h == h
    ensures Reaches(s, u) && HoldsOnly(u, h, {LOGSTART}) && u.phase == AfterHead(a) && u.ops == {}
  {
    assert BufInv(t, LOGSTART) && Holds(t, h, LOGSTART);
    ReachesNext(s, t, a);
    u := Next(t, a);
  }

  lemma HeadTurn(s: State, t: State, h: Handle, a: Action) returns (u: State)
    requires Reaches(s, t) && Stranger(t, h) && AtHead(t, a) && a.h == h
    ensures Reaches(s, u) && Stranger(u, h) && u.phase == AfterHead(a) && u.ops == {}
  {
    u := Bread(s, t, h, {}, LOGSTART);
    u := DoHead(s, u, h, a);
    u := Release(s, u, h);
  }

  lemma Release(s: State, t: State, h: Handle) returns (u: State)
    requires Reaches(s, t) && t.ops == {} && HoldsOnly(t, h, {LOGSTART})
    ensures Reaches(s, u) && SameLog(t, u) && Stranger(u, h)
  {
    assert BufInv(t, LOGSTART);
    ReachesNext(s, t, Unlock(h, LOGSTART));
    u := Next(t, Unlock(h, LOGSTART));
    assert BufInv(u, LOGSTART);
    ReachesNext(s, u, Unref(h, LOGSTART));
    u := Next(u, Unref(h, LOGSTART));
  }

  lemma Recovers(s: State, t: State, h: Handle) returns (u: State)
    requires Reaches(s, t) && Stranger(t, h) && Recovering(t)
    ensures Reaches(s, u) && u.phase.Open? && u.ops == {}
  {
    u := t;
    if u.phase.Boot? { u := HeadTurn(s, u, h, ReadHead(h)); }
    u := AllTurns(s, u, h);
    u := HeadTurn(s, u, h, FinishRecovery(h));
  }

  lemma Commits(s: State, t: State, h: Handle) returns (u: State)
    requires Reaches(s, t) && Stranger(t, h) && !Recovering(t) && !t.phase.Open?
    ensures Reaches(s, u) && u.phase.Open? && u.ops == {}
  {
    u := t;
    if u.phase.Copying? {
      u := AllTurns(s, u, h);
      u := HeadTurn(s, u, h, WriteHead(h));
    }
    if u.phase.Installing? {
      u := AllTurns(s, u, h);
      u := HeadTurn(s, u, h, Erase(h));
    }
    ReachesNext(s, u, Close);
    u := Next(u, Close);
  }

  // ---------------------------------------------------------------- open operations

  ghost predicate NoWriters(s: State) { forall b :: b in s.cache ==> s.cache[b].writer.None? }

  /** The open operations end, the last one starts a commit. */
  lemma {:induction false} AllEnd(s: State, t: State) returns (u: State)
    requires Reaches(s, t) && t.phase.Open? && NoWriters(t)
    ensures Reaches(s, u) && u.ops == {}
    decreases |t.ops|
  {
    u := t;
    if t.ops != {} {
      var op :| op in t.ops;
      ReachesNext(s, t, EndOp(op));
      u := Next(t, EndOp(op));
      if u.phase.Open? { u := AllEnd(s, u); }
    }
  }

  /** From every reachable state in which what operations changed has been logged, steps that begin
      and write nothing lead to an open log with everything durable that was current. */
  lemma CanCommit(s: State) returns (t: State)
    requires Inv(s) && NoWriters(s)
    ensures Reaches(s, t) && t.phase.Open? && t.ops == {}
    ensures View(t).durable == View(t).current == View(s).current
  {
    ReachesSelf(s);
    t := s;
    if t.phase.Open? { t := AllEnd(s, t); }
    if !t.phase.Open? {
      var h := NewHandle(t);
      if Recovering(t) { t := Recovers(s, t, h); } else { t := Commits(s, t, h); }
    }
    EndedIsDurable(t);
    ReachesView(s, t);
  }

  // ---------------------------------------------------------------- a whole operation

  ghost predicate Leads(s: State, t: State) { Inv(t) && exists acts :: Runs(s, acts, t) }

  lemma LeadsOn(s: State, t: State, u: State)
    requires Leads(s, t) && Reaches(t, u)
    ensures Leads(s, u)
  {
    var acts, more :| Runs(s, acts, t) && Runs(t, more, u);
    Joined(s, acts, t, more, u);
  }

  lemma LeadsNext(s: State, t: State, a: Action)
    requires Leads(s, t) && Enabled(t, a)
    ensures Leads(s, Next(t, a)) && View(Next(t, a)) == Spec(View(t), EventOf(a))
  {
    var acts :| Runs(s, acts, t);
    OneStep(t, a);
    Joined(s, acts, t, [a], Next(t, a));
    StepRefines(t, a);
  }

  /** bread inside an operation. */
  lemma BreadInOp(s: State, t: State, h: Handle, b: nat) returns (u: State)
    requires Leads(s, t) && t.phase.Open? && NoWriters(t) && Stranger(t, h) && b in t.disk
    ensures Leads(s, u) && SameLog(t, u) && Holds(u, h, b) && NoWriters(u) && View(u).current == View(t).current
  {
    ReachesSelf(t);
    u := Reference(t, t, h, b);
    u := LockFill(t, u, h, b);
    LeadsOn(s, t, u);
    ReachesView(t, u);
  }

  /** begin_op and bread, then the change and log_write. */
  lemma WriteInOp(s: State, t: State, op: Op, h: Handle, b: nat, data: Block) returns (u: State)
    requires Leads(s, t) && t.phase.Open? && t.ops == {} && t.lh == [] && NoWriters(t) && Stranger(t, h) && b in t.disk && !InLog(b)
    ensures Leads(s, u) && NoWriters(u) && View(u).current == View(t).current[b := data]
  {
    LeadsNext(s, t, BeginOp(op));
    u := Next(t, BeginOp(op));
    u := BreadInOp(s, u, h, b);
    LeadsNext(s, u, Modify(op, h, b, data));
    u := Next(u, Modify(op, h, b, data));
    LeadsNext(s, u, LogWrite(op, h, b));
    u := Next(u, LogWrite(op, h, b));
  }

  /** From every such state an operation can change any home block to anything and have it durable. */
  lemma CanStore(s: State, b: nat, data: Block) returns (t: State)
    requires Inv(s) && NoWriters(s) && b in s.disk && !InLog(b)
    ensures Leads(s, t) && t.phase.Open? && View(t).durable == View(s).current[b := data]
  {
    t := CanCommit(s);
    assert Runs(s, [], s);
    LeadsOn(s, s, t);
    EndedIsDurable(t);
    WritersOpen(t);
    assert b in View(s).current && b in View(t).current;
    var h := NewHandle(t);
    var u := WriteInOp(s, t, 0, h, b, data);
    t := CanCommit(u);
    LeadsOn(s, u, t);
  }
}
