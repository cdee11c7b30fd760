/** The system calls that scan the process table: kill, freeze, unfreeze, wakeup and the
    recursive listing behind ptree (proc.c, sysproc.c). */
module ProcTable {
  import opened Process
  import opened ProcessSteps
  import opened ProcessTheorems

  /** The first slot with this pid, or |ps|. */
  function FirstPid(ps: seq<Proc>, pid: int): (i: nat)
    ensures i <= |ps| && (i < |ps| ==> ps[i].pid == pid)
    ensures forall k :: 0 <= k < i ==> ps[k].pid != pid
  {
    if ps == [] || ps[0].pid == pid then 0
    else
      var r := FirstPid(ps[1..], pid);
      assert forall k :: 0 <= k < r + 1 ==> ps[k] == if k == 0 then ps[0] else ps[1..][k - 1];
      r + 1
  }

  lemma FirstPidIs(ps: seq<Proc>, pid: int, i: nat)
    requires i <= |ps| && (i < |ps| ==> ps[i].pid == pid) && forall k :: 0 <= k < i ==> ps[k].pid != pid
    ensures FirstPid(ps, pid) == i
  {
  }

  /** In a good state a positive pid names one slot at most, so the scans find it. */
  lemma PidIsUnique(s: State, i: nat)
    requires Inv(s) && i < |s.procs| && s.procs[i].state != Unused
    ensures FirstPid(s.procs, s.procs[i].pid) == i
  {
    SlotIs(s, i);
    forall k | 0 <= k < |s.procs| && k != i ensures s.procs[k].pid != s.procs[i].pid {
      SlotIs(s, k);
      assert PairOk(s, k, i);
    }
  }

  method Kill(ps: array<Proc>, pid: int) returns (r: int)
    modifies ps
    ensures var was := old(ps[..]); var i := FirstPid(was, pid);
            if i < |was| then r == 0 && ps[..] == was[i := KilledProc(was[i])] else r == -1 && ps[..] == was
  {
    var i := 0;
    while i < ps.Length
      invariant 0 <= i <= ps.Length && ps[..] == old(ps[..])
      invariant forall k :: 0 <= k < i ==> ps[k].pid != pid
    {
      if ps[i].pid == pid {
        FirstPidIs(ps[..], pid, i);
        ps[i] := ps[i].(killed := true);
        if ps[i].state == Sleeping { ps[i] := ps[i].(state := Runnable); }
        return 0;
      }
      i := i + 1;
    }
    FirstPidIs(ps[..], pid, i);
    return -1;
  }

  /** Succeeds exactly when the first slot with the pid holds a live, unfrozen process. */
  method Freeze(ps: array<Proc>, pid: int) returns (r: int)
    modifies ps
    ensures var was := old(ps[..]); var i := FirstPid(was, pid);
            if i < |was| && CanFreeze(was[i]) then r == 0 && ps[..] == was[i := was[i].(frozen := true)]
            else r == -1 && ps[..] == was
  {
    var i := 0;
    while i < ps.Length
      invariant 0 <= i <= ps.Length && ps[..] == old(ps[..])
      invariant forall k :: 0 <= k < i ==> ps[k].pid != pid
    {
      if ps[i].pid == pid {
        FirstPidIs(ps[..], pid, i);
        if ps[i].state != Zombie && ps[i].state != Unused && !ps[i].frozen {
          ps[i] := ps[i].(frozen := true);
          return 0;
        }
        return -1;
      }
      i := i + 1;
    }
    FirstPidIs(ps[..], pid, i);
    return -1;
  }

  /** Succeeds exactly when the first slot with the pid is frozen, occupied or not. */
  method Unfreeze(ps: array<Proc>, pid: int) returns (r: int)
    modifies ps
    ensures var was := old(ps[..]); var i := FirstPid(was, pid);
            if i < |was| && was[i].frozen then r == 0 && ps[..] == was[i := ThawedProc(was[i])]
            else r == -1 && ps[..] == was
  {
    var i := 0;
    while i < ps.Length
      invariant 0 <= i <= ps.Length && ps[..] == old(ps[..])
      invariant forall k :: 0 <= k < i ==> ps[k].pid != pid
    {
      if ps[i].pid == pid {
        FirstPidIs(ps[..], pid, i);
        if ps[i].frozen {
          ps[i] := ps[i].(frozen := false);
          if ps[i].state == Sleeping { ps[i] := ps[i].(state := Runnable); }
          return 0;
        }
        return -1;
      }
      i := i + 1;
    }
    FirstPidIs(ps[..], pid, i);
    return -1;
  }

  lemma KillIsStep(s: State, c: nat, i: nat)
    requires OnThread(s, c) && PcOf(s, c).User? && FreeSlot(s, i)
    ensures Step(s, Action.Kill(c, i), s.(procs := s.procs[i := KilledProc(s.procs[i])]))
  {
  }

  lemma FreezeIsStep(s: State, c: nat, i: nat)
    requires OnThread(s, c) && PcOf(s, c).User? && FreeSlot(s, i)
    ensures CanFreeze(s.procs[i]) <==> Step(s, Action.Freeze(c, i), s.(procs := s.procs[i := s.procs[i].(frozen := true)]))
  {
  }

  lemma UnfreezeIsStep(s: State, c: nat, i: nat)
    requires OnThread(s, c) && PcOf(s, c).User? && FreeSlot(s, i)
    ensures s.procs[i].frozen <==> Step(s, Action.Unfreeze(c, i), s.(procs := s.procs[i := ThawedProc(s.procs[i])]))
  {
  }

  /** A call that finds a process is the machine's step on that process. */
  lemma ScansAreSteps(s: State, c: nat, i: nat)
    requires Inv(s) && OnThread(s, c) && PcOf(s, c).User? && FreeSlot(s, i) && s.procs[i].state != Unused
    ensures var pid := s.procs[i].pid; FirstPid(s.procs, pid) == i
    ensures Step(s, Action.Kill(c, i), s.(procs := s.procs[i := KilledProc(s.procs[i])]))
    ensures CanFreeze(s.procs[i]) <==> Step(s, Action.Freeze(c, i), s.(procs := s.procs[i := s.procs[i].(frozen := true)]))
    ensures s.procs[i].frozen <==> Step(s, Action.Unfreeze(c, i), s.(procs := s.procs[i := ThawedProc(s.procs[i])]))
  {
    PidIsUnique(s, i);
    KillIsStep(s, c, i);
    FreezeIsStep(s, c, i);
    UnfreezeIsStep(s, c, i);
  }

  /** freeze(0) always fails: only free slots carry pid 0. */
  lemma FreezeZeroFails(s: State)
    requires Inv(s)
    ensures var i := FirstPid(s.procs, 0); i == |s.procs| || !CanFreeze(s.procs[i])
  {
    if FirstPid(s.procs, 0) < |s.procs| { SlotIs(s, FirstPid(s.procs, 0)); }
  }

  method Wakeup(ps: array<Proc>, me: int, ch: Chan)
    modifies ps
    ensures forall k :: 0 <= k < ps.Length ==> ps[k] == if k == me then old(ps[k]) else Woken(old(ps[k]), ch)
  {
    var p := 0;
    while p < ps.Length
      invariant 0 <= p <= ps.Length
      invariant forall k :: 0 <= k < p ==> ps[k] == if k == me then old(ps[k]) else Woken(old(ps[k]), ch)
      invariant forall k :: p <= k < ps.Length ==> ps[k] == old(ps[k])
    {
      if p != me {
        if ps[p].state == Sleeping && ps[p].chan == ch { ps[p] := ps[p].(state := Runnable); }
      }
      p := p + 1;
    }
  }

  // ---------------------------------------------------------------- ptree

  predicate IsChild(ps: seq<Proc>, i: nat, p: nat) {
    i < |ps| && ps[i].state != Unused && ps[i].parent == Some(p)
  }

  /** Parent links lead to occupied slots with smaller pids, all pids being below top. */
  ghost predicate Ordered(ps: seq<Proc>, top: nat) {
    && (forall i :: 0 <= i < |ps| ==> ps[i].pid < top)
    && (forall i, p :: 0 <= i && 0 <= p && IsChild(ps, i, p) ==> p < |ps| && ps[p].pid < ps[i].pid)
  }

  lemma GoodIsOrdered(s: State)
    requires Inv(s)
    ensures Ordered(s.procs, s.nextpid + 1)
  {
    forall i | 0 <= i < |s.procs| ensures s.procs[i].pid < s.nextpid + 1 { SlotIs(s, i); }
    forall i, p | 0 <= i && 0 <= p && IsChild(s.procs, i, p) ensures p < |s.procs| && s.procs[p].pid < s.procs[i].pid {
      SlotIs(s, i);
    }
  }

  /** Slot p is the d-th ancestor of slot i. */
  predicate Ancestor(ps: seq<Proc>, i: nat, p: nat, d: nat)
    decreases d
  {
    i < |ps| && if d == 0 then i == p else ps[i].state != Unused && ps[i].parent.Some? && Ancestor(ps, ps[i].parent.value, p, d - 1)
  }

  datatype Line = Line(slot: nat, depth: nat)

  /** The lines printed for p and everything below it. */
  ghost function Listing(ps: seq<Proc>, p: nat, depth: nat, top: nat): seq<Line>
    requires Ordered(ps, top) && p < |ps|
    decreases top - ps[p].pid, |ps| + 1
  {
    [Line(p, depth)] + Below(ps, p, depth, 0, top)
  }

  /** The part of it that the loop from slot i on prints. */
  ghost function Below(ps: seq<Proc>, p: nat, depth: nat, i: nat, top: nat): seq<Line>
    requires Ordered(ps, top) && p < |ps| && i <= |ps|
    decreases top - ps[p].pid, |ps| - i
  {
    if i == |ps| then []
    else (if IsChild(ps, i, p) then Listing(ps, i, depth + 1, top) else []) + Below(ps, p, depth, i + 1, top)
  }

  method PrintTree(ps: array<Proc>, p: nat, depth: nat, ghost top: nat) returns (out: seq<Line>)
    requires Ordered(ps[..], top) && p < ps.Length
    ensures out == Listing(ps[..], p, depth, top)
    decreases top - ps[p].pid
  {
    out := [Line(p, depth)];
    var child := 0;
    while child < ps.Length
      invariant 0 <= child <= ps.Length
      invariant Listing(ps[..], p, depth, top) == out + Below(ps[..], p, depth, child, top)
    {
      if ps[child].state != Unused && ps[child].parent == Some(p) {
        assert IsChild(ps[..], child, p);
        var sub := PrintTree(ps, child, depth + 1, top);
        out := out + sub;
      }
      child := child + 1;
    }
  }

  lemma {:induction false} AncestorPid(ps: seq<Proc>, i: nat, p: nat, d: nat, top: nat)
    requires Ordered(ps, top) && Ancestor(ps, i, p, d)
    ensures p < |ps| && ps[p].pid + d <= ps[i].pid
    decreases d
  {
    if d > 0 {
      assert IsChild(ps, i, ps[i].parent.value);
      AncestorPid(ps, ps[i].parent.value, p, d - 1, top);
    }
  }

  /** From i upwards there is one way: the deeper of two ancestors descends from the other. */
  lemma {:induction false} AncestorsOnOneLine(ps: seq<Proc>, i: nat, p: nat, d: nat, q: nat, e: nat)
    requires Ancestor(ps, i, p, d) && Ancestor(ps, i, q, e) && d <= e
    ensures Ancestor(ps, p, q, e - d)
    decreases d
  {
    if d > 0 { AncestorsOnOneLine(ps, ps[i].parent.value, p, d - 1, q, e - 1); }
  }

  /** Siblings have no common descendant. */
  lemma SiblingsApart(ps: seq<Proc>, x: nat, p: nat, i: nat, d: nat, j: nat, e: nat, top: nat)
    requires Ordered(ps, top) && IsChild(ps, i, p) && IsChild(ps, j, p) && d <= e
    requires Ancestor(ps, x, i, d) && Ancestor(ps, x, j, e)
    ensures i == j && d == e
  {
    AncestorsOnOneLine(ps, x, i, d, j, e);
    if d < e {
      assert Ancestor(ps, p, j, e - d - 1);
      AncestorPid(ps, p, j, e - d - 1, top);
    }
  }

  /** The child of p through which i descends. */
  lemma {:induction false} FirstStep(ps: seq<Proc>, i: nat, p: nat, d: nat) returns (c: nat)
    requires Ancestor(ps, i, p, d) && d > 0
    ensures IsChild(ps, c, p) && Ancestor(ps, i, c, d - 1)
    decreases d
  {
    if d == 1 { c := i; } else { c := FirstStep(ps, ps[i].parent.value, p, d - 1); }
  }

  lemma {:induction false} StepUp(ps: seq<Proc>, i: nat, c: nat, p: nat, d: nat)
    requires Ancestor(ps, i, c, d) && IsChild(ps, c, p) && p < |ps|
    ensures Ancestor(ps, i, p, d + 1)
    decreases d
  {
    if d > 0 { StepUp(ps, ps[i].parent.value, c, p, d - 1); }
    else { assert Ancestor(ps, p, p, 0); }
  }

  /** Every line is a descendant, at its depth. */
  lemma {:induction false} ListedDescend(ps: seq<Proc>, p: nat, depth: nat, top: nat, x: Line)
    requires Ordered(ps, top) && p < |ps| && x in Listing(ps, p, depth, top)
    ensures x.depth >= depth && Ancestor(ps, x.slot, p, x.depth - depth)
    decreases top - ps[p].pid, |ps| + 1
  {
    if x != Line(p, depth) { var c := BelowDescend(ps, p, depth, 0, top, x); StepUp(ps, x.slot, c, p, x.depth - depth - 1); }
  }

  lemma {:induction false} BelowDescend(ps: seq<Proc>, p: nat, depth: nat, i: nat, top: nat, x: Line) returns (c: nat)
    requires Ordered(ps, top) && p < |ps| && i <= |ps| && x in Below(ps, p, depth, i, top)
    ensures i <= c && IsChild(ps, c, p) && x.depth > depth && Ancestor(ps, x.slot, c, x.depth - depth - 1)
    decreases top - ps[p].pid, |ps| - i
  {
    if IsChild(ps, i, p) && x in Listing(ps, i, depth + 1, top) {
      c := i;
      ListedDescend(ps, i, depth + 1, top, x);
    } else {
      c := BelowDescend(ps, p, depth, i + 1, top, x);
    }
  }

  /** Every descendant is listed. */
  lemma {:induction false} DescendantListed(ps: seq<Proc>, p: nat, depth: nat, top: nat, i: nat, d: nat)
    requires Ordered(ps, top) && p < |ps| && Ancestor(ps, i, p, d)
    ensures Line(i, depth + d) in Listing(ps, p, depth, top)
    decreases top - ps[p].pid, |ps| + 1
  {
    if d > 0 {
      var c := FirstStep(ps, i, p, d);
      DescendantBelow(ps, p, depth, 0, top, i, d, c);
    }
  }

  lemma {:induction false} DescendantBelow(ps: seq<Proc>, p: nat, depth: nat, k: nat, top: nat, i: nat, d: nat, c: nat)
    requires Ordered(ps, top) && p < |ps| && k <= c && d > 0 && IsChild(ps, c, p) && Ancestor(ps, i, c, d - 1)
    ensures Line(i, depth + d) in Below(ps, p, depth, k, top)
    decreases top - ps[p].pid, |ps| - k
  {
    if k == c { DescendantListed(ps, c, depth + 1, top, i, d - 1); }
    else { DescendantBelow(ps, p, depth, k + 1, top, i, d, c); }
  }

  ghost predicate Once(out: seq<Line>) {
    forall a, b :: 0 <= a < b < |out| ==> out[a].slot != out[b].slot
  }

  /** ptree lists exactly the descendants of p, each once and at its distance from p. */
  lemma ListsDescendantsOnce(ps: seq<Proc>, p: nat, depth: nat, top: nat)
    requires Ordered(ps, top) && p < |ps|
    ensures Once(Listing(ps, p, depth, top))
    ensures forall x: Line :: x in Listing(ps, p, depth, top) <==> x.depth >= depth && Ancestor(ps, x.slot, p, x.depth - depth)
  {
    ListedOnce(ps, p, depth, top);
    forall x: Line ensures x in Listing(ps, p, depth, top) <==> x.depth >= depth && Ancestor(ps, x.slot, p, x.depth - depth) {
      if x in Listing(ps, p, depth, top) { ListedDescend(ps, p, depth, top, x); }
      if x.depth >= depth && Ancestor(ps, x.slot, p, x.depth - depth) {
        DescendantListed(ps, p, depth, top, x.slot, x.depth - depth);
      }
    }
  }

  lemma {:induction false} ListedOnce(ps: seq<Proc>, p: nat, depth: nat, top: nat)
    requires Ordered(ps, top) && p < |ps|
    ensures Once(Listing(ps, p, depth, top))
    decreases top - ps[p].pid, |ps| + 1
  {
    var rest := Below(ps, p, depth, 0, top);
    BelowOnce(ps, p, depth, 0, top);
    forall b | 0 <= b < |rest| ensures rest[b].slot != p {
      var c := BelowDescend(ps, p, depth, 0, top, rest[b]);
      AncestorPid(ps, rest[b].slot, c, rest[b].depth - depth - 1, top);
    }
  }

  lemma {:induction false} BelowOnce(ps: seq<Proc>, p: nat, depth: nat, i: nat, top: nat)
    requires Ordered(ps, top) && p < |ps| && i <= |ps|
    ensures Once(Below(ps, p, depth, i, top))
    decreases top - ps[p].pid, |ps| - i
  {
    if i < |ps| {
      BelowOnce(ps, p, depth, i + 1, top);
      if IsChild(ps, i, p) {
        ListedOnce(ps, i, depth + 1, top);
        var first, rest := Listing(ps, i, depth + 1, top), Below(ps, p, depth, i + 1, top);
        forall a, b | 0 <= a < |first| && 0 <= b < |rest| ensures first[a].slot != rest[b].slot {
          if first[a].slot == rest[b].slot { SubtreesApart(ps, p, depth, i, top, first[a], rest[b]); }
        }
      }
    }
  }

  lemma SubtreesApart(ps: seq<Proc>, p: nat, depth: nat, i: nat, top: nat, x: Line, y: Line)
    requires Ordered(ps, top) && p < |ps| && IsChild(ps, i, p)
    requires x in Listing(ps, i, depth + 1, top) && y in Below(ps, p, depth, i + 1, top)
    ensures x.slot != y.slot
  {
    ListedDescend(ps, i, depth + 1, top, x);
    var c := BelowDescend(ps, p, depth, i + 1, top, y);
    var d, e := x.depth - depth - 1, y.depth - depth - 1;
    if x.slot == y.slot {
      if d <= e { SiblingsApart(ps, x.slot, p, i, d, c, e, top); } else { SiblingsApart(ps, x.slot, p, c, e, i, d, top); }
    }
  }

  /** Every process that has been started descends from init, so ptree shows it. */
  lemma {:induction false} AllDescendFromInit(s: State, i: nat) returns (d: nat)
    requires Inv(s) && i < |s.procs| && s.procs[i].state != Unused && s.procs[i].state != Used
    ensures Ancestor(s.procs, i, s.init, d)
    decreases s.procs[i].pid
  {
    SlotIs(s, i);
    if i == s.init { d := 0; }
    else {
      var e := AllDescendFromInit(s, s.procs[i].parent.value);
      d := e + 1;
    }
  }
}
