/** The redo log (log.c) and the buffer cache (bio.c) as one machine of atomic steps.

    Any number of processes hold references to cached blocks, open operations modify
    them under the buffer's sleep lock, one committer copies, commits, installs and
    erases the transaction one disk write at a time, and the machine may lose power
    between any two steps, recovery included.  The whole machine is shown to refine a
    disk with two contents: `durable`, what a reboot would recover, and `current`, what
    readers see. */
module Journal {

  const MAXOPBLOCKS := 10
  const LOGSIZE := MAXOPBLOCKS * 3
  const NLOG := LOGSIZE     // what mkfs puts in the super block
  const LOGSTART := 2
  const BWORDS := 256       // BSIZE / sizeof(int)

  type Block = w: seq<nat> | |w| == BWORDS witness seq(BWORDS, i => 0)
  type Disk = map<nat, Block>
  type Handle = nat
  type Op = nat

  datatype Option<T> = None | Some(value: T)

  // ---------------------------------------------------------------- on-disk log header

  predicate InLog(b: nat) { LOGSTART <= b < LOGSTART + NLOG }

  /** The block numbers a header block lists. */
  function GetHead(b: Block): (lh: seq<nat>) {
    if b[0] < BWORDS then b[1..1 + b[0]] else []
  }

  /** Overwrites the count and that many entries; the rest of the block stays as it was. */
  function PutHead(b: Block, lh: seq<nat>): (r: Block)
    requires |lh| < BWORDS
    ensures GetHead(r) == lh && r[0] == |lh| && r[1 + |lh|..] == b[1 + |lh|..] && forall i :: 0 <= i < |lh| ==> r[1 + i] == lh[i]
  {
    [|lh|] + lh + b[1 + |lh|..]
  }

  function Entry(lh: seq<nat>, i: nat): (b: nat)
    requires i < |lh|
  {
    lh[i]
  }

  ghost predicate Distinct(lh: seq<nat>) {
    forall i: nat, j: nat {:trigger Entry(lh, i), Entry(lh, j)} ::
      i < j < |lh| ==> Entry(lh, i) != Entry(lh, j)
  }

  /** A header recovery can replay: distinct home blocks that fit in the log. */
  ghost predicate GoodHead(disk: Disk, lh: seq<nat>) {
    && |lh| < NLOG
    && Distinct(lh)
    && forall b :: b in lh ==> b in disk && !InLog(b)
  }

  ghost predicate GoodDisk(disk: Disk) {
    && (forall b :: InLog(b) ==> b in disk)
    && disk[LOGSTART][0] < NLOG
    && GoodHead(disk, GetHead(disk[LOGSTART]))
  }

  ghost function SlotOf(lh: seq<nat>, b: nat): (k: nat)
    requires b in lh
    ensures k < |lh| && lh[k] == b
  {
    var k: nat :| k < |lh| && lh[k] == b; k
  }

  /** The log block that holds the copy of home block b. */
  ghost function LogBlock(lh: seq<nat>, b: nat): (r: nat)
    requires b in lh && |lh| < NLOG
    ensures InLog(r) && r != LOGSTART
  {
    LOGSTART + 1 + SlotOf(lh, b)
  }

  lemma SlotOfEntry(lh: seq<nat>, i: nat)
    requires Distinct(lh) && i < |lh|
    ensures SlotOf(lh, lh[i]) == i
  {
    var k := SlotOf(lh, lh[i]);
    assert Entry(lh, k) == Entry(lh, i);
  }

  lemma AppendDistinct(lh: seq<nat>, b: nat)
    requires Distinct(lh) && b !in lh
    ensures Distinct(lh + [b])
  {
    forall i: nat, j: nat | i < j < |lh| + 1 ensures Entry(lh + [b], i) != Entry(lh + [b], j) {
      assert Entry(lh, i) in lh;
      if j < |lh| { assert Entry(lh, j) in lh; }
    }
  }

  /** What a reboot from this disk recovers for home block b. */
  ghost function DurableAt(disk: Disk, b: nat): Block
    requires GoodDisk(disk) && b in disk
  {
    var lh := GetHead(disk[LOGSTART]);
    if b in lh then disk[LogBlock(lh, b)] else disk[b]
  }

  // ---------------------------------------------------------------- the machine

  /** One buffer: `users` are the references handed out by bget and not yet dropped,
      `writer` the operation that has changed the data and not yet called log_write. */
  datatype Buf = Buf(valid: bool, data: Block, refcnt: nat, holder: Option<Handle>,
                     users: set<Handle>, writer: Option<Op>)

  /** Where the committer or the recovery code is. */
  datatype Phase =
    | Open                  // log.committing == 0
    | Copying(i: nat)       // write_log, log.lh.n > 0
    | Installing(i: nat)    // header written, install_trans(0)
    | Closing               // header erased, log.committing still 1
    | Boot                  // memory lost, header not yet read
    | Replaying(i: nat)     // install_trans(1)

  datatype State = State(disk: Disk, cache: map<nat, Buf>, lh: seq<nat>, ops: set<Op>, phase: Phase)

  predicate Recovering(s: State) { s.phase.Boot? || s.phase.Replaying? }

  /** Blocks that carry log_write's extra reference. */
  ghost predicate Pinned(s: State, b: nat) {
    match s.phase
    case Open => b in s.lh
    case Copying(_) => b in s.lh
    case Installing(i) => b in s.lh && i <= SlotOf(s.lh, b)
    case _ => false
  }

  predicate Holds(s: State, h: Handle, b: nat) {
    b in s.cache && s.cache[b].valid && s.cache[b].holder == Some(h)
  }

  datatype Action =
    | BeginOp(op: Op)
    | EndOp(op: Op)
    | Bget(h: Handle, b: nat)
    | Evict(b: nat)
    | Lock(h: Handle, b: nat)
    | Fill(h: Handle, b: nat)
    | Modify(op: Op, h: Handle, b: nat, data: Block)
    | LogWrite(op: Op, h: Handle, b: nat)
    | Unlock(h: Handle, b: nat)
    | Unref(h: Handle, b: nat)
    | CopyBlock(from: Handle, to: Handle)
    | WriteHead(h: Handle)
    | Install(from: Handle, to: Handle)
    | Erase(h: Handle)
    | Close
    | Crash
    | ReadHead(h: Handle)
    | Replay(from: Handle, to: Handle)
    | FinishRecovery(h: Handle)

  /** When a step can happen.  The conditions are the code's own tests, the locks it
      holds, and the calling convention of log_write: data is changed inside an
      operation, under the buffer's lock, and logged before the buffer is released. */
  ghost predicate Enabled(s: State, a: Action) {
    match a
    case BeginOp(op) => s.phase.Open? && op !in s.ops
      && |s.lh| + (|s.ops| + 1) * MAXOPBLOCKS <= LOGSIZE
    case EndOp(op) => op in s.ops && forall b :: b in s.cache ==> s.cache[b].writer != Some(op)
    case Bget(h, b) => b in s.disk && (b in s.cache ==> h !in s.cache[b].users)
    case Evict(b) => b in s.cache && s.cache[b].refcnt == 0
    case Lock(h, b) => b in s.cache && h in s.cache[b].users && s.cache[b].holder.None?
    case Fill(h, b) => b in s.disk && b in s.cache && s.cache[b].holder == Some(h) && !s.cache[b].valid
    case Modify(op, h, b, _) => Holds(s, h, b) && op in s.ops && !InLog(b)
      && (s.cache[b].writer.None? || s.cache[b].writer == Some(op))
    case LogWrite(op, h, b) => Holds(s, h, b) && op in s.ops && !InLog(b)
      && (s.cache[b].writer.None? || s.cache[b].writer == Some(op))
      && |s.lh| < NLOG - 1   // otherwise log_write panics
    case Unlock(h, b) => b in s.cache && s.cache[b].holder == Some(h) && s.cache[b].writer.None?
    case Unref(h, b) => b in s.cache && h in s.cache[b].users && s.cache[b].holder != Some(h)
      && s.cache[b].refcnt > 0
    case CopyBlock(from, to) => s.phase.Copying? && s.phase.i < |s.lh|
      && Holds(s, from, s.lh[s.phase.i]) && Holds(s, to, LOGSTART + 1 + s.phase.i)
    case WriteHead(h) => s.phase.Copying? && s.phase.i == |s.lh| && Holds(s, h, LOGSTART)
    case Install(from, to) => s.phase.Installing? && s.phase.i < |s.lh|
      && Holds(s, from, LOGSTART + 1 + s.phase.i) && Holds(s, to, s.lh[s.phase.i])
      && s.cache[s.lh[s.phase.i]].refcnt > 0
    case Erase(h) => s.phase.Installing? && s.phase.i == |s.lh| && Holds(s, h, LOGSTART)
    case Close => s.phase.Closing?
    case Crash => true
    case ReadHead(h) => s.phase.Boot? && Holds(s, h, LOGSTART)
    case Replay(from, to) => s.phase.Replaying? && s.phase.i < |s.lh|
      && Holds(s, from, LOGSTART + 1 + s.phase.i) && Holds(s, to, s.lh[s.phase.i])
    case FinishRecovery(h) => s.phase.Replaying? && s.phase.i == |s.lh| && Holds(s, h, LOGSTART)
  }

  /** memmove into the held buffer followed by bwrite. */
  function WriteThrough(s: State, b: nat, data: Block): (r: State)
    requires b in s.cache
  {
    s.(disk := s.disk[b := data], cache := s.cache[b := s.cache[b].(data := data)])
  }

  function WithBuf(s: State, b: nat, buf: Buf): (r: State) { s.(cache := s.cache[b := buf]) }

  function NextEndOp(s: State, op: Op): (r: State) {
    if s.ops - {op} != {} then s.(ops := s.ops - {op})
    else s.(ops := {}, phase := if |s.lh| > 0 then Copying(0) else Closing)
  }

  function NextBget(s: State, h: Handle, b: nat): (r: State)
    requires b in s.disk
  {
    if b in s.cache then
      WithBuf(s, b, s.cache[b].(refcnt := s.cache[b].refcnt + 1, users := s.cache[b].users + {h}))
    else
      WithBuf(s, b, Buf(false, s.disk[b], 1, None, {h}, None))   // data is whatever the buffer held
  }

  function NextLogWrite(s: State, b: nat): (r: State)
    requires b in s.cache
  {
    var buf := s.cache[b].(writer := None);
    if b in s.lh then WithBuf(s, b, buf)     // absorption
    else WithBuf(s, b, buf.(refcnt := buf.refcnt + 1)).(lh := s.lh + [b])
  }

  function NextCopyBlock(s: State): (r: State)
    requires s.phase.Copying? && s.phase.i < |s.lh|
    requires s.lh[s.phase.i] in s.cache && LOGSTART + 1 + s.phase.i in s.cache
  {
    var i := s.phase.i;
    WriteThrough(s, LOGSTART + 1 + i, s.cache[s.lh[i]].data).(phase := Copying(i + 1))
  }

  function NextWriteHead(s: State, lh: seq<nat>, phase: Phase): (r: State)
    requires LOGSTART in s.cache && |lh| < BWORDS
  {
    WriteThrough(s, LOGSTART, PutHead(s.cache[LOGSTART].data, lh)).(lh := lh, phase := phase)
  }

  function NextInstall(s: State): (r: State)
    requires s.phase.Installing? && s.phase.i < |s.lh|
    requires s.lh[s.phase.i] in s.cache && LOGSTART + 1 + s.phase.i in s.cache
    requires s.cache[s.lh[s.phase.i]].refcnt > 0
  {
    var i := s.phase.i;
    var b := s.lh[i];
    var data := s.cache[LOGSTART + 1 + i].data;
    State(s.disk[b := data], s.cache[b := s.cache[b].(data := data, refcnt := s.cache[b].refcnt - 1)],
          s.lh, s.ops, Installing(i + 1))
  }

  function NextReplay(s: State): (r: State)
    requires s.phase.Replaying? && s.phase.i < |s.lh|
    requires s.lh[s.phase.i] in s.cache && LOGSTART + 1 + s.phase.i in s.cache
  {
    var i := s.phase.i;
    WriteThrough(s, s.lh[i], s.cache[LOGSTART + 1 + i].data).(phase := Replaying(i + 1))
  }

  ghost function Next(s: State, a: Action): (r: State)
    requires Enabled(s, a) && |s.lh| < NLOG
  {
    match a
    case BeginOp(op) => s.(ops := s.ops + {op})
    case EndOp(op) => NextEndOp(s, op)
    case Bget(h, b) => NextBget(s, h, b)
    case Evict(b) => s.(cache := s.cache - {b})
    case Lock(h, b) => WithBuf(s, b, s.cache[b].(holder := Some(h)))
    case Fill(h, b) => WithBuf(s, b, s.cache[b].(valid := true, data := s.disk[b]))
    case Modify(op, h, b, data) => WithBuf(s, b, s.cache[b].(data := data, writer := Some(op)))
    case LogWrite(op, h, b) => NextLogWrite(s, b)
    case Unlock(h, b) => WithBuf(s, b, s.cache[b].(holder := None))
    case Unref(h, b) =>
      WithBuf(s, b, s.cache[b].(refcnt := s.cache[b].refcnt - 1, users := s.cache[b].users - {h}))
    case CopyBlock(from, to) => NextCopyBlock(s)
    case WriteHead(h) => NextWriteHead(s, s.lh, Installing(0))
    case Install(from, to) => NextInstall(s)
    case Erase(h) => NextWriteHead(s, [], Closing)
    case Close => s.(phase := Open)
    case Crash => State(s.disk, map[], [], {}, Boot)
    case ReadHead(h) => s.(lh := GetHead(s.cache[LOGSTART].data), phase := Replaying(0))
    case Replay(from, to) => NextReplay(s)
    case FinishRecovery(h) => NextWriteHead(s, [], Open)
  }

  // ---------------------------------------------------------------- invariant

  ghost predicate BufInv(s: State, b: nat)
    requires b in s.cache
  {
    var buf := s.cache[b];
    && b in s.disk
    && buf.refcnt == |buf.users| + (if Pinned(s, b) then 1 else 0)
    && (buf.holder.Some? ==> buf.holder.value in buf.users)
    && (buf.writer.Some? ==> buf.writer.value in s.ops && buf.holder.Some? && buf.valid && !InLog(b))
    // a valid buffer that is neither logged nor being changed is a copy of the disk
    && (buf.valid && buf.writer.None? && !Pinned(s, b) ==> buf.data == s.disk[b])
    // a logged block stays cached and valid
    && (Pinned(s, b) ==> buf.valid)
  }

  /** The log holds the cached contents of b. */
  ghost predicate Staged(s: State, b: nat)
    requires GoodDisk(s.disk) && GoodHead(s.disk, s.lh) && b in s.lh
  {
    b in s.cache && s.disk[LogBlock(s.lh, b)] == s.cache[b].data
  }

  /** The logged contents of b are in place. */
  ghost predicate Landed(s: State, b: nat)
    requires GoodDisk(s.disk) && GoodHead(s.disk, s.lh) && b in s.lh
  {
    s.disk[b] == s.disk[LogBlock(s.lh, b)]
  }

  ghost predicate PhaseInv(s: State)
    requires GoodDisk(s.disk) && GoodHead(s.disk, s.lh)
  {
    var head := GetHead(s.disk[LOGSTART]);
    match s.phase
    case Open => head == [] && (s.ops == {} ==> s.lh == [])
    case Copying(i) =>
      && head == [] && s.ops == {} && i <= |s.lh|
      && (forall b :: b in s.lh && SlotOf(s.lh, b) < i ==> Staged(s, b))
    case Installing(i) =>
      && head == s.lh && s.ops == {} && i <= |s.lh|
      && (forall b :: b in s.lh && SlotOf(s.lh, b) < i ==> Landed(s, b))
      && (forall b :: b in s.lh && i <= SlotOf(s.lh, b) ==> Staged(s, b))
    case Closing => head == [] && s.ops == {} && s.lh == []
    case Boot => s.ops == {} && s.lh == []
    case Replaying(i) =>
      && head == s.lh && s.ops == {} && i <= |s.lh|
      && (forall b :: b in s.lh && SlotOf(s.lh, b) < i ==> Landed(s, b))
  }

  ghost predicate Inv(s: State) {
    && GoodDisk(s.disk)
    && GoodHead(s.disk, s.lh)
    && (forall b {:trigger BufInv(s, b)} :: b in s.cache ==> BufInv(s, b))
    && (forall b :: Pinned(s, b) ==> b in s.cache)
    && PhaseInv(s)
  }

  // ---------------------------------------------------------------- the disk it implements

  /** A crash-safe disk: writes change `current`, a commit makes them durable all at once,
      a crash falls back to `durable`. */
  datatype Abs = Abs(durable: Disk, current: Disk)

  datatype Event = Quiet | Write(b: nat, data: Block) | Commit | Reboot

  function Spec(a: Abs, e: Event): (r: Abs) {
    match e
    case Quiet => a
    case Write(b, data) => a.(current := a.current[b := data])
    case Commit => Abs(a.current, a.current)
    case Reboot => Abs(a.durable, a.durable)
  }

  function EventOf(a: Action): (e: Event) {
    match a
    case Modify(_, _, b, data) => Write(b, data)
    case WriteHead(_) => Commit
    case Crash => Reboot
    case _ => Quiet
  }

  /** What a reader of home block b is to see. */
  ghost function CurrentAt(s: State, b: nat): Block
    requires GoodDisk(s.disk) && b in s.disk
  {
    if Recovering(s) then DurableAt(s.disk, b)
    else if b in s.cache && s.cache[b].valid then s.cache[b].data
    else s.disk[b]
  }

  ghost function View(s: State): (a: Abs)
    requires GoodDisk(s.disk)
  {
    Abs(map b | b in s.disk && !InLog(b) :: DurableAt(s.disk, b),
        map b | b in s.disk && !InLog(b) :: CurrentAt(s, b))
  }

  // ---------------------------------------------------------------- every step refines it

  ghost predicate Refines(s: State, t: State, e: Event) {
    GoodDisk(s.disk) && Inv(t) && View(t) == Spec(View(s), e)
  }

  lemma SameView(s: State, t: State)
    requires GoodDisk(s.disk) && s.disk == t.disk
    requires forall b :: b in s.disk && !InLog(b) ==> CurrentAt(t, b) == CurrentAt(s, b)
    ensures View(t) == View(s)
  {
  }

  /** Steps that change one buffer and nothing else. */
  lemma BufStep(s: State, b: nat, buf: Buf)
    requires Inv(s) && b in s.disk && BufInv(WithBuf(s, b, buf), b)
    requires Pinned(s, b) && !s.phase.Open? ==> buf.data == s.cache[b].data
    ensures Inv(WithBuf(s, b, buf))
  {
    var t := WithBuf(s, b, buf);
    forall c | c in t.cache ensures BufInv(t, c) {
      if c != b { assert BufInv(s, c); }
    }
  }

  /** ... and that leave what readers see alone. */
  lemma QuietBufView(s: State, b: nat, buf: Buf)
    requires GoodDisk(s.disk) && b in s.disk
    requires if b in s.cache && s.cache[b].valid then buf.valid && buf.data == s.cache[b].data
             else buf.valid ==> buf.data == s.disk[b]
    ensures View(WithBuf(s, b, buf)) == View(s)
  {
    SameView(s, WithBuf(s, b, buf));
  }

  lemma QuietBufStep(s: State, b: nat, buf: Buf)
    requires Inv(s) && b in s.disk && BufInv(WithBuf(s, b, buf), b)
    requires if b in s.cache && s.cache[b].valid then buf.valid && buf.data == s.cache[b].data
             else buf.valid ==> buf.data == s.disk[b]
    ensures Refines(s, WithBuf(s, b, buf), Quiet)
  {
    if Pinned(s, b) { assert BufInv(s, b); }
    BufStep(s, b, buf);
    QuietBufView(s, b, buf);
  }

  lemma WritersOpen(s: State)
    requires Inv(s)
    ensures forall b :: b in s.cache && s.cache[b].writer.Some? ==> s.cache[b].writer.value in s.ops
  {
    forall b | b in s.cache && s.cache[b].writer.Some? ensures s.cache[b].writer.value in s.ops {
      assert BufInv(s, b);
    }
  }

  /** Steps that open or close operations, or move the log between open and closed. */
  lemma OpsStep(s: State, ops: set<Op>, phase: Phase)
    requires Inv(s) && !Recovering(s) && (s.phase.Open? || s.phase.Closing?)
    requires forall b :: b in s.cache && s.cache[b].writer.Some? ==> s.cache[b].writer.value in ops
    requires if ops == {} && s.lh != [] then phase == Copying(0) else phase == Open || (ops == {} && phase == Closing)
    ensures Refines(s, s.(ops := ops, phase := phase), Quiet)
  {
    var t := s.(ops := ops, phase := phase);
    forall b | b in t.cache ensures BufInv(t, b) { assert BufInv(s, b); }
    SameView(s, t);
  }

  lemma EvictInv(s: State, b: nat)
    requires Inv(s) && b in s.cache && s.cache[b].refcnt == 0
    ensures Inv(s.(cache := s.cache - {b}))
    ensures s.cache[b].valid ==> b in s.disk && s.cache[b].data == s.disk[b]
  {
    var t := s.(cache := s.cache - {b});
    assert BufInv(s, b);
    assert s.cache[b].users == {};
    forall c | c in t.cache ensures BufInv(t, c) { assert BufInv(s, c); }
  }

  lemma EvictStep(s: State, b: nat)
    requires Inv(s) && b in s.cache && s.cache[b].refcnt == 0
    ensures Refines(s, s.(cache := s.cache - {b}), Quiet)
  {
    EvictInv(s, b);
    SameView(s, s.(cache := s.cache - {b}));
  }

  lemma BufferSteps(s: State, a: Action)
    requires Inv(s) && Enabled(s, a)
    requires a.Bget? || a.Lock? || a.Fill? || a.Unlock? || a.Unref?
    ensures Refines(s, Next(s, a), Quiet)
  {
    var b := a.b;
    var t := Next(s, a);
    if b in s.cache { assert BufInv(s, b); }
    QuietBufStep(s, b, t.cache[b]);
  }

  lemma ModifyStep(s: State, a: Action)
    requires Inv(s) && Enabled(s, a) && a.Modify?
    ensures Refines(s, Next(s, a), Write(a.b, a.data))
  {
    var b, t := a.b, Next(s, a);
    assert BufInv(s, b);
    BufStep(s, b, t.cache[b]);
  }

  lemma LogAppendInv(s: State, b: nat)
    requires Inv(s) && s.phase.Open? && s.ops != {} && b in s.cache && b !in s.lh && !InLog(b) && |s.lh| < NLOG - 1
    requires s.cache[b].valid && s.cache[b].holder.Some?
    ensures Inv(NextLogWrite(s, b))
  {
    var t := NextLogWrite(s, b);
    assert BufInv(s, b);
    AppendDistinct(s.lh, b);
    forall c | c in t.cache ensures BufInv(t, c) { assert BufInv(s, c); }
  }

  lemma LogWriteStep(s: State, b: nat)
    requires Inv(s) && s.phase.Open? && s.ops != {} && b in s.cache && !InLog(b) && |s.lh| < NLOG - 1
    requires s.cache[b].valid && s.cache[b].holder.Some?
    ensures Refines(s, NextLogWrite(s, b), Quiet)
  {
    var t := NextLogWrite(s, b);
    assert BufInv(s, b);
    if b in s.lh {
      QuietBufStep(s, b, t.cache[b]);
    } else {
      LogAppendInv(s, b);
      SameView(s, t);
    }
  }

  // Steps that write the disk: the invariant first, then the two contents.

  lemma SameViews(s: State, t: State)
    requires GoodDisk(s.disk) && GoodDisk(t.disk) && s.disk.Keys == t.disk.Keys
    requires forall b :: b in s.disk && !InLog(b) ==>
               DurableAt(t.disk, b) == DurableAt(s.disk, b) && CurrentAt(t, b) == CurrentAt(s, b)
    ensures View(t) == View(s)
  {
  }

  lemma CommitView(s: State, t: State)
    requires GoodDisk(s.disk) && GoodDisk(t.disk) && s.disk.Keys == t.disk.Keys
    requires forall b :: b in s.disk && !InLog(b) ==>
               DurableAt(t.disk, b) == CurrentAt(s, b) && CurrentAt(t, b) == CurrentAt(s, b)
    ensures View(t) == Spec(View(s), Commit)
  {
  }

  ghost predicate Copied(s: State, b: nat) { b in s.cache && s.cache[b].valid && s.cache[b].holder.Some? }

  lemma CopyBlockInv(s: State)
    requires Inv(s) && s.phase.Copying? && s.phase.i < |s.lh|
    requires Copied(s, s.lh[s.phase.i]) && Copied(s, LOGSTART + 1 + s.phase.i)
    ensures Inv(NextCopyBlock(s))
  {
    var i, t := s.phase.i, NextCopyBlock(s);
    SlotOfEntry(s.lh, i);
    assert BufInv(s, LOGSTART + 1 + i);
    assert GetHead(t.disk[LOGSTART]) == [];
    forall c | c in t.cache ensures BufInv(t, c) { assert BufInv(s, c); }
    assert PhaseInv(t);
  }

  lemma CopyBlockStep(s: State)
    requires Inv(s) && s.phase.Copying? && s.phase.i < |s.lh|
    requires Copied(s, s.lh[s.phase.i]) && Copied(s, LOGSTART + 1 + s.phase.i)
    ensures Refines(s, NextCopyBlock(s), Quiet)
  {
    CopyBlockInv(s);
    SameViews(s, NextCopyBlock(s));
  }

  lemma WriteHeadInv(s: State)
    requires Inv(s) && s.phase == Copying(|s.lh|) && Copied(s, LOGSTART)
    ensures Inv(NextWriteHead(s, s.lh, Installing(0)))
  {
    var t := NextWriteHead(s, s.lh, Installing(0));
    assert BufInv(s, LOGSTART);
    forall c | c in t.cache ensures BufInv(t, c) { assert BufInv(s, c); }
    assert PhaseInv(t);
  }

  lemma CommitAt(s: State, b: nat)
    requires Inv(s) && s.phase == Copying(|s.lh|) && Copied(s, LOGSTART) && b in s.disk && !InLog(b)
    ensures var t := NextWriteHead(s, s.lh, Installing(0));
            GoodDisk(t.disk) && DurableAt(t.disk, b) == CurrentAt(s, b) && CurrentAt(t, b) == CurrentAt(s, b)
  {
    if b in s.cache { assert BufInv(s, b); }
    if b in s.lh { assert Staged(s, b); }
  }

  /** The commit point: every logged block switches to its cached contents in one write. */
  lemma WriteHeadStep(s: State)
    requires Inv(s) && s.phase == Copying(|s.lh|) && Copied(s, LOGSTART)
    ensures Refines(s, NextWriteHead(s, s.lh, Installing(0)), Commit)
  {
    var t := NextWriteHead(s, s.lh, Installing(0));
    WriteHeadInv(s);
    forall b | b in s.disk && !InLog(b)
      ensures DurableAt(t.disk, b) == CurrentAt(s, b) && CurrentAt(t, b) == CurrentAt(s, b)
    {
      CommitAt(s, b);
    }
    CommitView(s, t);
  }

  /** Installing logged block i changes nothing a reboot would recover. */
  lemma InstallKeepsDurable(disk: Disk, i: nat, b: nat)
    requires GoodDisk(disk) && i < |GetHead(disk[LOGSTART])| && b in disk
    ensures var t := disk[GetHead(disk[LOGSTART])[i] := disk[LOGSTART + 1 + i]];
            GoodDisk(t) && DurableAt(t, b) == DurableAt(disk, b)
  {
    var t := disk[GetHead(disk[LOGSTART])[i] := disk[LOGSTART + 1 + i]];
    assert GetHead(disk[LOGSTART])[i] in GetHead(disk[LOGSTART]);
    assert t[LOGSTART] == disk[LOGSTART];
  }

  lemma InstallData(s: State)
    requires Inv(s) && s.phase.Installing? && s.phase.i < |s.lh|
    requires Copied(s, s.lh[s.phase.i]) && Copied(s, LOGSTART + 1 + s.phase.i)
    requires s.cache[s.lh[s.phase.i]].refcnt > 0
    ensures SlotOf(s.lh, s.lh[s.phase.i]) == s.phase.i
    ensures s.cache[LOGSTART + 1 + s.phase.i].data == s.disk[LOGSTART + 1 + s.phase.i]
    ensures s.cache[LOGSTART + 1 + s.phase.i].data == s.cache[s.lh[s.phase.i]].data
  {
    SlotOfEntry(s.lh, s.phase.i);
    assert Staged(s, s.lh[s.phase.i]);
    assert BufInv(s, LOGSTART + 1 + s.phase.i);
  }

  lemma InstallBuf(s: State, c: nat)
    requires Inv(s) && s.phase.Installing? && s.phase.i < |s.lh|
    requires Copied(s, s.lh[s.phase.i]) && Copied(s, LOGSTART + 1 + s.phase.i)
    requires s.cache[s.lh[s.phase.i]].refcnt > 0
    requires c in s.cache
    ensures BufInv(NextInstall(s), c)
  {
    InstallData(s);
    assert BufInv(s, c);
  }

  lemma InstallAt(s: State, t: State, x: nat, b: nat)
    requires GoodDisk(s.disk) && GoodDisk(t.disk) && GoodHead(s.disk, s.lh) && GoodHead(t.disk, t.lh)
    requires t.lh == s.lh && x in s.lh && x in s.cache && b in s.lh
    requires t.disk == s.disk[x := s.disk[LogBlock(s.lh, x)]]
    requires forall c :: c in s.cache ==> c in t.cache && (c != x ==> t.cache[c] == s.cache[c])
    ensures b == x || Landed(s, b) ==> Landed(t, b)
    ensures b != x && Staged(s, b) ==> Staged(t, b)
  {
  }

  lemma InstallPhase(s: State)
    requires Inv(s) && s.phase.Installing? && s.phase.i < |s.lh|
    requires Copied(s, s.lh[s.phase.i]) && Copied(s, LOGSTART + 1 + s.phase.i)
    requires s.cache[s.lh[s.phase.i]].refcnt > 0
    ensures GoodDisk(NextInstall(s).disk) && PhaseInv(NextInstall(s))
  {
    var t := NextInstall(s);
    InstallData(s);
    InstallKeepsDurable(s.disk, s.phase.i, LOGSTART);
    forall b | b in s.lh ensures if SlotOf(s.lh, b) <= s.phase.i then Landed(t, b) else Staged(t, b) {
      InstallAt(s, t, s.lh[s.phase.i], b);
    }
  }

  lemma InstallInv(s: State)
    requires Inv(s) && s.phase.Installing? && s.phase.i < |s.lh|
    requires Copied(s, s.lh[s.phase.i]) && Copied(s, LOGSTART + 1 + s.phase.i)
    requires s.cache[s.lh[s.phase.i]].refcnt > 0
    ensures Inv(NextInstall(s))
  {
    var t := NextInstall(s);
    InstallPhase(s);
    forall c | c in t.cache ensures BufInv(t, c) { InstallBuf(s, c); }
  }

  lemma InstallStep(s: State)
    requires Inv(s) && s.phase.Installing? && s.phase.i < |s.lh|
    requires Copied(s, s.lh[s.phase.i]) && Copied(s, LOGSTART + 1 + s.phase.i)
    requires s.cache[s.lh[s.phase.i]].refcnt > 0
    ensures Refines(s, NextInstall(s), Quiet)
  {
    var t := NextInstall(s);
    InstallInv(s);
    InstallData(s);
    forall b | b in s.disk && !InLog(b)
      ensures DurableAt(t.disk, b) == DurableAt(s.disk, b) && CurrentAt(t, b) == CurrentAt(s, b)
    {
      InstallKeepsDurable(s.disk, s.phase.i, b);
    }
    SameViews(s, t);
  }

  lemma EraseInv(s: State, phase: Phase)
    requires Inv(s) && Copied(s, LOGSTART)
    requires (s.phase == Installing(|s.lh|) && phase == Closing) || (s.phase == Replaying(|s.lh|) && phase == Open)
    ensures Inv(NextWriteHead(s, [], phase))
  {
    var t := NextWriteHead(s, [], phase);
    assert BufInv(s, LOGSTART);
    forall c | c in t.cache ensures BufInv(t, c) { assert BufInv(s, c); }
    assert PhaseInv(t);
  }

  lemma EraseStep(s: State, phase: Phase)
    requires Inv(s) && Copied(s, LOGSTART)
    requires (s.phase == Installing(|s.lh|) && phase == Closing) || (s.phase == Replaying(|s.lh|) && phase == Open)
    ensures Refines(s, NextWriteHead(s, [], phase), Quiet)
  {
    var t := NextWriteHead(s, [], phase);
    EraseInv(s, phase);
    forall b | b in s.disk && !InLog(b)
      ensures DurableAt(t.disk, b) == DurableAt(s.disk, b) && CurrentAt(t, b) == CurrentAt(s, b)
    {
      if b in s.cache { assert BufInv(s, b); }
      if b in s.lh { assert SlotOf(s.lh, b) < |s.lh|; }
    }
    SameViews(s, t);
  }

  lemma ReplayInv(s: State)
    requires Inv(s) && s.phase.Replaying? && s.phase.i < |s.lh|
    requires Copied(s, s.lh[s.phase.i]) && Copied(s, LOGSTART + 1 + s.phase.i)
    ensures Inv(NextReplay(s))
    ensures s.cache[LOGSTART + 1 + s.phase.i].data == s.disk[LOGSTART + 1 + s.phase.i]
  {
    var i, t := s.phase.i, NextReplay(s);
    SlotOfEntry(s.lh, i);
    assert BufInv(s, s.lh[i]) && BufInv(s, LOGSTART + 1 + i);
    forall c | c in t.cache ensures BufInv(t, c) { assert BufInv(s, c); }
    assert PhaseInv(t);
  }

  lemma ReplayStep(s: State)
    requires Inv(s) && s.phase.Replaying? && s.phase.i < |s.lh|
    requires Copied(s, s.lh[s.phase.i]) && Copied(s, LOGSTART + 1 + s.phase.i)
    ensures Refines(s, NextReplay(s), Quiet)
  {
    var t := NextReplay(s);
    ReplayInv(s);
    forall b | b in s.disk && !InLog(b)
      ensures DurableAt(t.disk, b) == DurableAt(s.disk, b)
    {
      InstallKeepsDurable(s.disk, s.phase.i, b);
    }
    SameViews(s, t);
  }

  lemma CrashStep(s: State)
    requires Inv(s)
    ensures Refines(s, State(s.disk, map[], [], {}, Boot), Reboot)
  {
  }

  lemma ReadHeadStep(s: State)
    requires Inv(s) && s.phase.Boot? && Copied(s, LOGSTART)
    ensures Refines(s, s.(lh := GetHead(s.cache[LOGSTART].data), phase := Replaying(0)), Quiet)
  {
    var t := s.(lh := GetHead(s.cache[LOGSTART].data), phase := Replaying(0));
    assert BufInv(s, LOGSTART);
    forall c | c in t.cache ensures BufInv(t, c) { assert BufInv(s, c); }
    SameViews(s, t);
  }

  /** Every step keeps the invariant and does to the two contents exactly what its event
      says: only Modify changes what readers see, only the header write changes what a
      reboot recovers, and copying, installing, erasing, replaying, evicting and refilling
      change neither. */
  lemma StepRefines(s: State, a: Action)
    requires Inv(s) && Enabled(s, a)
    ensures Inv(Next(s, a))
    ensures View(Next(s, a)) == Spec(View(s), EventOf(a))
  {
    match a
    case BeginOp(op) => WritersOpen(s); OpsStep(s, s.ops + {op}, Open);
    case EndOp(op) => WritersOpen(s); OpsStep(s, Next(s, a).ops, Next(s, a).phase);
    case Close => WritersOpen(s); OpsStep(s, s.ops, Open);
    case Bget(_, _) => BufferSteps(s, a);
    case Lock(_, _) => BufferSteps(s, a);
    case Fill(_, _) => BufferSteps(s, a);
    case Unlock(_, _) => BufferSteps(s, a);
    case Unref(_, _) => BufferSteps(s, a);
    case Evict(b) => EvictStep(s, b);
    case Modify(_, _, _, _) => ModifyStep(s, a);
    case LogWrite(_, _, b) => LogWriteStep(s, b);
    case CopyBlock(_, _) => CopyBlockStep(s);
    case WriteHead(_) => WriteHeadStep(s);
    case Install(_, _) => InstallStep(s);
    case Erase(_) => EraseStep(s, Closing);
    case Crash => CrashStep(s);
    case ReadHead(_) => ReadHeadStep(s);
    case Replay(_, _) => ReplayStep(s);
    case FinishRecovery(_) => EraseStep(s, Open);
  }

  // ---------------------------------------------------------------- whole runs

  /** The state after a run, defined when every action is enabled in its turn. */
  ghost predicate Runs(s: State, acts: seq<Action>, t: State)
    decreases |acts|
  {
    if acts == [] then s == t
    else |s.lh| < NLOG && Enabled(s, acts[0]) && Runs(Next(s, acts[0]), acts[1..], t)
  }

  function SpecRun(a: Abs, acts: seq<Action>): (r: Abs)
    decreases |acts|
  {
    if acts == [] then a else SpecRun(Spec(a, EventOf(acts[0])), acts[1..])
  }

  /** Any interleaving of any length, with any number of crashes, commits and recoveries,
      shows readers and reboots exactly what the crash-safe disk shows. */
  lemma {:induction false} RunRefines(s: State, acts: seq<Action>, t: State)
    requires Inv(s) && Runs(s, acts, t)
    ensures Inv(t) && View(t) == SpecRun(View(s), acts)
    decreases |acts|
  {
    if acts != [] {
      StepRefines(s, acts[0]);
      RunRefines(Next(s, acts[0]), acts[1..], t);
    }
  }

  /** bread: the holder of a valid buffer holds the current contents of the block. */
  lemma ReadsCurrent(s: State, h: Handle, b: nat)
    requires Inv(s) && !Recovering(s) && Holds(s, h, b) && !InLog(b)
    ensures b in s.disk && s.cache[b].data == View(s).current[b]
  {
    assert BufInv(s, b);
  }

  /** A home block with no pending change is current on disk, cached or not. */
  lemma UnloggedOnDisk(s: State, b: nat)
    requires Inv(s) && !Recovering(s) && b in s.disk && !InLog(b) && !Pinned(s, b)
    requires b in s.cache ==> s.cache[b].writer.None?
    ensures s.disk[b] == View(s).current[b]
  {
    if b in s.cache { assert BufInv(s, b); }
  }

  /** Once the last operation has ended and the log is open again, everything written is durable:
      the last end_op commits. */
  lemma EndedIsDurable(s: State)
    requires Inv(s) && s.phase.Open? && s.ops == {}
    ensures s.lh == [] && View(s).durable == View(s).current
  {
    forall b | b in s.disk && !InLog(b) ensures DurableAt(s.disk, b) == CurrentAt(s, b) {
      if b in s.cache { assert BufInv(s, b); }
    }
  }

  /** begin_op enters, beside whatever operations are open and blocks are logged, exactly when the log is
      open and could still take a full share from each of them. */
  lemma BeginEnabled(s: State, op: Op)
    requires op !in s.ops
    ensures Enabled(s, BeginOp(op)) <==> s.phase.Open? && |s.lh| + MAXOPBLOCKS * |s.ops + {op}| <= LOGSIZE
  {
  }

  /** While a commit or a recovery is under way no operation is open and no buffer is
      waiting to be logged. */
  lemma CommitAlone(s: State, b: nat)
    requires Inv(s) && !s.phase.Open?
    ensures s.ops == {} && (b in s.cache ==> s.cache[b].writer.None?)
  {
    if b in s.cache { assert BufInv(s, b); }
  }

  /** A logged block is cached, valid and carries exactly one reference beyond its users
      until it is installed, so it cannot be recycled before that. */
  lemma LoggedStaysCached(s: State, b: nat)
    requires Inv(s) && Pinned(s, b)
    ensures b in s.cache && s.cache[b].valid && s.cache[b].refcnt == |s.cache[b].users| + 1
    ensures !Enabled(s, Evict(b))
  {
    assert BufInv(s, b);
  }

  /** When recovery is over, every home block on disk holds its recovered contents. */
  lemma RecoveredDisk(s: State, h: Handle, b: nat)
    requires Inv(s) && Enabled(s, FinishRecovery(h)) && b in s.disk && !InLog(b)
    ensures Next(s, FinishRecovery(h)).disk[b] == View(s).durable[b]
    ensures s.disk[b] == View(s).durable[b]
  {
    if b in s.lh { assert SlotOf(s.lh, b) < |s.lh|; assert Landed(s, b); }
  }

  /** However often recovery is cut short, what a reboot recovers stays the same. */
  lemma RetryKeeps(t: State, retry: seq<Action>, u: State)
    requires Inv(t) && retry != [] && retry[0].Crash? && Runs(t, retry, u)
    requires forall k :: 0 <= k < |retry| ==> EventOf(retry[k]).Quiet? || EventOf(retry[k]).Reboot?
    ensures Inv(u) && View(u).durable == View(t).durable == View(u).current
  {
    StepRefines(t, Crash);
    RunRefines(Next(t, Crash), retry[1..], u);
    QuietRun(View(Next(t, Crash)), retry[1..]);
  }

  lemma SettledDisk(u: State)
    requires Inv(u) && u.phase.Open?
    ensures forall b :: b in u.disk && !InLog(b) ==> b in View(u).durable && u.disk[b] == View(u).durable[b]
  {
  }

  /** Crash atomicity.  Cut any run after any step, reboot, let recovery be cut and
      restarted any number of times: once a recovery completes, the home blocks are
      those of the last commit before the crash, all of them or none. */
  lemma CrashAtomic(s: State, acts: seq<Action>, t: State, retry: seq<Action>, u: State)
    requires Inv(s) && Runs(s, acts, t)
    requires retry != [] && retry[0].Crash? && Runs(t, retry, u)
    requires forall k :: 0 <= k < |retry| ==> EventOf(retry[k]).Quiet? || EventOf(retry[k]).Reboot?
    requires u.phase.Open?
    ensures Inv(u) && View(u).durable == SpecRun(View(s), acts).durable == View(u).current
    ensures forall b :: b in u.disk && !InLog(b) ==>
              b in SpecRun(View(s), acts).durable && u.disk[b] == SpecRun(View(s), acts).durable[b]
  {
    RunRefines(s, acts, t);
    RetryKeeps(t, retry, u);
    SettledDisk(u);
  }

  /** What the operations that have ended wrote survives: once the log is open again, a crash at
      any later moment before the next commit recovers exactly what was current. */
  lemma EndedSurvives(s: State, acts: seq<Action>, t: State, retry: seq<Action>, u: State)
    requires Inv(s) && Runs(s, acts, t) && t.phase.Open? && t.ops == {}
    requires retry != [] && retry[0].Crash? && Runs(t, retry, u) && u.phase.Open?
    requires forall k :: 0 <= k < |retry| ==> EventOf(retry[k]).Quiet? || EventOf(retry[k]).Reboot?
    ensures Inv(u) && View(u).current == SpecRun(View(s), acts).current
    ensures forall b :: b in u.disk && !InLog(b) ==>
              b in SpecRun(View(s), acts).current && u.disk[b] == SpecRun(View(s), acts).current[b]
  {
    RunRefines(s, acts, t);
    EndedIsDurable(t);
    CrashAtomic(s, acts, t, retry, u);
  }

  lemma {:induction false} QuietRun(a: Abs, acts: seq<Action>)
    requires a.durable == a.current
    requires forall k :: 0 <= k < |acts| ==> EventOf(acts[k]).Quiet? || EventOf(acts[k]).Reboot?
    ensures SpecRun(a, acts) == a
    decreases |acts|
  {
    if acts != [] { QuietRun(Spec(a, EventOf(acts[0])), acts[1..]); }
  }

  /** The image mkfs writes (every header word zero) satisfies the invariant. */
  lemma FreshImage(disk: Disk)
    requires forall b :: InLog(b) ==> b in disk
    requires LOGSTART in disk && disk[LOGSTART][0] == 0
    ensures Inv(State(disk, map[], [], {}, Boot))
  {
  }
}
