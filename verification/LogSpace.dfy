/** Space reservation in the log (begin_op, log_write, end_op).

    begin_op reserves MAXOPBLOCKS blocks against LOGSIZE, but log_write stops one block
    earlier, at log.size - 1, and mkfs makes the log LOGSIZE blocks long, header included.
    The reservation therefore protects operations that add at most MAXOPBLOCKS - 1 blocks,
    and no larger budget. */
module LogSpace {
  import opened Journal

  /** lh: the logged block numbers; added: blocks each open operation has added to it. */
  datatype Space = Space(lh: seq<nat>, added: map<Op, nat>)

  const EMPTY := Space([], map[])

  datatype Call = Begin(op: Op) | Write(op: Op, b: nat) | End(op: Op)

  datatype Outcome = Done(s: Space) | Sleeps | TooBig | OutsideTransaction

  /** One call under log.lock; the last End commits, which empties the log. */
  function Perform(s: Space, c: Call): (o: Outcome) {
    match c
    case Begin(op) =>
      if |s.lh| + (|s.added| + 1) * MAXOPBLOCKS > LOGSIZE then Sleeps
      else Done(s.(added := s.added[op := 0]))
    case Write(op, b) =>
      if |s.lh| >= LOGSIZE || |s.lh| >= NLOG - 1 then TooBig
      else if |s.added| < 1 then OutsideTransaction
      else if b in s.lh then Done(s)
      else Done(Space(s.lh + [b], s.added[op := (if op in s.added then s.added[op] else 0) + 1]))
    case End(op) =>
      var rest := s.added - {op};
      Done(if rest == map[] then EMPTY else s.(added := rest))
  }

  /** An operation begins once, writes only while open, adds at most `budget` blocks
      (rewriting a logged block is free), and ends once. */
  predicate Allowed(budget: nat, s: Space, c: Call) {
    match c
    case Begin(op) => op !in s.added
    case Write(op, b) => op in s.added && (b in s.lh || s.added[op] < budget)
    case End(op) => op in s.added
  }

  ghost predicate Runs(budget: nat, s: Space, calls: seq<Call>, t: Space)
    decreases |calls|
  {
    if calls == [] then s == t
    else
      && Allowed(budget, s, calls[0])
      && Perform(s, calls[0]).Done?
      && Runs(budget, Perform(s, calls[0]).s, calls[1..], t)
  }

  /** begin_op lets an operation in, whatever is in the log already, exactly when the log could still
      take a full share from it and from every open operation; it then changes nothing else. */
  lemma BeginExact(s: Space, op: Op)
    requires op !in s.added
    ensures Perform(s, Begin(op)).Done? <==> |s.lh| + MAXOPBLOCKS * |s.added[op := 0]| <= LOGSIZE
    ensures Perform(s, Begin(op)).Done? ==> Perform(s, Begin(op)).s.lh == s.lh && Perform(s, Begin(op)).s.added == s.added[op := 0]
    ensures !Perform(s, Begin(op)).Done? ==> Perform(s, Begin(op)).Sleeps?
  {
    assert |s.added[op := 0]| == |s.added| + 1 by {
      assert s.added[op := 0].Keys == s.added.Keys + {op};
      assert |s.added.Keys| == |s.added| && |s.added[op := 0].Keys| == |s.added[op := 0]|;
    }
  }

  /** So a caller that sleeps gets in at the latest when the others have ended, and up to three
      operations are open at once. */
  lemma BeginEnters(op: Op, a: Op, b: Op, lh: seq<nat>)
    requires op != a && op != b && a != b && |lh| <= MAXOPBLOCKS
    ensures Perform(EMPTY, Begin(op)).Done? && Perform(Space([], map[a := 0, b := 0]), Begin(op)).Done?
    ensures Perform(Space(lh, map[a := |lh|]), Begin(op)).Done?
    ensures lh != [] ==> Perform(Space(lh, map[a := |lh|, b := 0]), Begin(op)).Sleeps?
  {
    BeginExact(EMPTY, op);
    assert |map[a := 0, b := 0][op := 0]| == 3 && |map[a := |lh|, b := 0][op := 0]| == 3 && |map[a := |lh|][op := 0]| == 2;
    BeginExact(Space([], map[a := 0, b := 0]), op);
    BeginExact(Space(lh, map[a := |lh|]), op);
    BeginExact(Space(lh, map[a := |lh|, b := 0]), op);
  }

  /** No operation that stays in its budget ever panics, in any interleaving. */
  ghost predicate SafeBudget(budget: nat) {
    forall calls, t, c :: Runs(budget, EMPTY, calls, t) && Allowed(budget, t, c) ==>
      !Perform(t, c).TooBig? && !Perform(t, c).OutsideTransaction?
  }

  // ---------------------------------------------------------------- sums over open operations

  /** What the open operations may still add. */
  ghost function Unused(budget: nat, m: map<Op, nat>): (u: int)
    decreases |m|
  {
    if m == map[] then 0 else var k :| k in m; budget - m[k] + Unused(budget, m - {k})
  }

  lemma {:induction false} UnusedSplit(budget: nat, m: map<Op, nat>, k: Op)
    requires k in m
    ensures Unused(budget, m) == budget - m[k] + Unused(budget, m - {k})
    decreases |m|
  {
    var j :| j in m && Unused(budget, m) == budget - m[j] + Unused(budget, m - {j});
    if j != k {
      UnusedSplit(budget, m - {j}, k);
      UnusedSplit(budget, m - {k}, j);
      assert m - {j} - {k} == m - {k} - {j};
    }
  }

  lemma UnusedPut(budget: nat, m: map<Op, nat>, k: Op, v: nat)
    ensures Unused(budget, m[k := v]) == budget - v + Unused(budget, m - {k})
  {
    UnusedSplit(budget, m[k := v], k);
    assert m[k := v] - {k} == m - {k};
  }

  lemma {:induction false} UnusedBounds(budget: nat, m: map<Op, nat>)
    requires forall k :: k in m ==> m[k] <= budget
    ensures 0 <= Unused(budget, m)
    ensures budget <= MAXOPBLOCKS ==> Unused(budget, m) <= MAXOPBLOCKS * |m|
    ensures budget < MAXOPBLOCKS ==> Unused(budget, m) <= (MAXOPBLOCKS - 1) * |m|
    decreases |m|
  {
    if m != map[] {
      var k :| k in m && Unused(budget, m) == budget - m[k] + Unused(budget, m - {k});
      UnusedBounds(budget, m - {k});
    }
  }

  // ---------------------------------------------------------------- the reservation invariant

  /** Logged blocks plus what the open operations may still add stay within `limit`. */
  ghost predicate Reserved(budget: nat, limit: nat, s: Space) {
    && (forall k :: k in s.added ==> s.added[k] <= budget)
    && (s.added == map[] ==> s.lh == [])
    && |s.lh| + Unused(budget, s.added) <= limit
  }

  /** The budgets and limits that the reservation covers. */
  predicate Covered(budget: nat, limit: nat) {
    (budget <= MAXOPBLOCKS && limit == LOGSIZE) || (budget < MAXOPBLOCKS && limit == LOGSIZE - 2)
  }

  lemma BeginReserved(budget: nat, limit: nat, s: Space, op: Op)
    requires Reserved(budget, limit, s) && Allowed(budget, s, Begin(op)) && Perform(s, Begin(op)).Done? && Covered(budget, limit)
    ensures Reserved(budget, limit, Perform(s, Begin(op)).s)
  {
    UnusedBounds(budget, s.added);
    UnusedPut(budget, s.added, op, 0);
    assert s.added - {op} == s.added;
  }

  /** Every allowed call keeps the reservation, for budget b <= MAXOPBLOCKS: within
      LOGSIZE in general, and two blocks inside it when the budget is smaller. */
  lemma StepReserved(budget: nat, limit: nat, s: Space, c: Call)
    requires Reserved(budget, limit, s) && Allowed(budget, s, c) && Perform(s, c).Done? && Covered(budget, limit)
    ensures Reserved(budget, limit, Perform(s, c).s)
  {
    match c
    case Begin(op) => BeginReserved(budget, limit, s, op);
    case Write(op, b) =>
      if b !in s.lh {
        UnusedPut(budget, s.added, op, s.added[op] + 1);
        UnusedSplit(budget, s.added, op);
      }
    case End(op) =>
      UnusedBounds(budget, s.added);
      UnusedSplit(budget, s.added, op);
      if s.added - {op} == map[] { assert Unused(budget, map[]) == 0; }
  }

  lemma {:induction false} RunReserved(budget: nat, limit: nat, s: Space, calls: seq<Call>, t: Space)
    requires Reserved(budget, limit, s) && Runs(budget, s, calls, t)
    requires Covered(budget, limit)
    ensures Reserved(budget, limit, t)
    decreases |calls|
  {
    if calls != [] {
      StepReserved(budget, limit, s, calls[0]);
      RunReserved(budget, limit, Perform(s, calls[0]).s, calls[1..], t);
    }
  }

  lemma {:induction false} IdleRun(budget: nat, s: Space, calls: seq<Call>, t: Space)
    requires Runs(budget, s, calls, t) && (s.added == map[] ==> s.lh == [])
    ensures t.added == map[] ==> t.lh == []
    decreases |calls|
  {
    if calls != [] {
      var c := calls[0];
      if c.Begin? { assert c.op in Perform(s, c).s.added; }
      if c.Write? { assert c.op in Perform(s, c).s.added; }
      IdleRun(budget, Perform(s, c).s, calls[1..], t);
    }
  }

  /** Whenever no operation is open the log is empty: the last end_op has committed it. */
  lemma IdleIsEmpty(budget: nat, calls: seq<Call>, t: Space)
    requires Runs(budget, EMPTY, calls, t) && t.added == map[]
    ensures t == EMPTY
  {
    IdleRun(budget, EMPTY, calls, t);
  }

  /** In every reachable state the log plus the unused reservations fits in LOGSIZE. */
  lemma ReservationHolds(calls: seq<Call>, t: Space)
    requires Runs(MAXOPBLOCKS, EMPTY, calls, t)
    ensures |t.lh| + Unused(MAXOPBLOCKS, t.added) <= LOGSIZE
  {
    assert Unused(MAXOPBLOCKS, map[]) == 0;
    RunReserved(MAXOPBLOCKS, LOGSIZE, EMPTY, calls, t);
  }

  lemma SmallBudgetSafe(budget: nat)
    requires budget < MAXOPBLOCKS
    ensures SafeBudget(budget)
  {
    forall calls, t, c | Runs(budget, EMPTY, calls, t) && Allowed(budget, t, c)
      ensures !Perform(t, c).TooBig? && !Perform(t, c).OutsideTransaction?
    {
      assert Unused(budget, map[]) == 0;
      RunReserved(budget, LOGSIZE - 2, EMPTY, calls, t);
      UnusedBounds(budget, t.added);
    }
  }

  // ---------------------------------------------------------------- a run that panics

  lemma {:induction false} RunsAppend(budget: nat, s: Space, calls: seq<Call>, t: Space, c: Call)
    requires Runs(budget, s, calls, t) && Allowed(budget, t, c) && Perform(t, c).Done?
    ensures Runs(budget, s, calls + [c], Perform(t, c).s)
    decreases |calls|
  {
    if calls == [] {
      assert [c][1..] == [];
    } else {
      RunsAppend(budget, Perform(s, calls[0]).s, calls[1..], t, c);
      assert (calls + [c])[1..] == calls[1..] + [c];
    }
  }

  function Share(n: nat, i: nat): (k: nat) {
    if n <= i * MAXOPBLOCKS then 0
    else if n >= (i + 1) * MAXOPBLOCKS then MAXOPBLOCKS
    else n - i * MAXOPBLOCKS
  }

  /** Operations 0, 1 and 2 have begun and added n blocks, filling their reservations in turn. */
  function Filled(n: nat): (s: Space) {
    Space(seq(n, k requires 0 <= k => k), map[0 := Share(n, 0), 1 := Share(n, 1), 2 := Share(n, 2)])
  }

  lemma ShareStep(n: nat, k: nat)
    requires n < NLOG - 1 && k < 3
    ensures Share(n + 1, k) == Share(n, k) + if k == n / MAXOPBLOCKS then 1 else 0
  {
  }

  lemma FillStep(n: nat)
    requires n < NLOG - 1
    ensures Perform(Filled(n), Call.Write(n / MAXOPBLOCKS, n)) == Done(Filled(n + 1))
    ensures Allowed(MAXOPBLOCKS, Filled(n), Call.Write(n / MAXOPBLOCKS, n))
  {
    var op := n / MAXOPBLOCKS;
    var r := Perform(Filled(n), Call.Write(op, n)).s;
    assert op == 0 || op == 1 || op == 2;
    ShareStep(n, 0);
    ShareStep(n, 1);
    ShareStep(n, 2);
    assert r.lh == Filled(n + 1).lh;
    assert r.added == Filled(n + 1).added;
  }

  lemma BeginThree(budget: nat) returns (calls: seq<Call>)
    ensures Runs(budget, EMPTY, calls, Filled(0))
  {
    var s1 := Perform(EMPTY, Begin(0)).s;
    var s2 := Perform(s1, Begin(1)).s;
    assert Runs(budget, EMPTY, [], EMPTY);
    RunsAppend(budget, EMPTY, [], EMPTY, Begin(0));
    RunsAppend(budget, EMPTY, [] + [Begin(0)], s1, Begin(1));
    RunsAppend(budget, EMPTY, [] + [Begin(0)] + [Begin(1)], s2, Begin(2));
    assert Perform(s2, Begin(2)).s.added == Filled(0).added;
    assert Perform(s2, Begin(2)).s.lh == Filled(0).lh;
    calls := [] + [Begin(0)] + [Begin(1)] + [Begin(2)];
  }

  lemma {:induction false} FillRun(budget: nat, n: nat) returns (calls: seq<Call>)
    requires budget >= MAXOPBLOCKS && n <= NLOG - 1
    ensures Runs(budget, EMPTY, calls, Filled(n))
    decreases n
  {
    if n == 0 {
      calls := BeginThree(budget);
    } else {
      calls := FillRun(budget, n - 1);
      FillStep(n - 1);
      var c := Call.Write((n - 1) / MAXOPBLOCKS, n - 1);
      RunsAppend(budget, EMPTY, calls, Filled(n - 1), c);
      calls := calls + [c];
    }
  }

  /** Three operations that use the whole reservation between them reach the panic. */
  lemma FullBudgetPanics(budget: nat)
    requires budget >= MAXOPBLOCKS
    ensures !SafeBudget(budget)
  {
    var calls := FillRun(budget, NLOG - 1);
    var c := Call.Write(2, NLOG - 1);
    assert Allowed(budget, Filled(NLOG - 1), c);
    assert Perform(Filled(NLOG - 1), c).TooBig?;
  }

  /** "too big a transaction" is unreachable exactly when operations add fewer than
      MAXOPBLOCKS blocks, absorbed writes included. */
  lemma BudgetExact(budget: nat)
    ensures SafeBudget(budget) <==> budget <= MAXOPBLOCKS - 1
  {
    if budget < MAXOPBLOCKS { SmallBudgetSafe(budget); } else { FullBudgetPanics(budget); }
  }
}
