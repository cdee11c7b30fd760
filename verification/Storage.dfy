/** The buffers of bio.c under the log of log.c.

    Journal describes the cache as a map from block numbers to buffers from which unused
    entries may disappear.  Here the same processes, committer and recovery code work on the
    fixed buffers and the ring of BufferCache, with bget choosing which one to recycle.  Every
    step is shown to be one step of Journal, or a recycling followed by one, so that what holds
    of Journal holds of the buffers, and what BufferCache needs from its callers is derived. */
module Storage {
  import J = Journal
  import B = BufferCache

  const ROOTDEV := 1

  /** `users` are the references that bget has handed out for each buffer, `writer` the operation
      that has changed it and not yet called log_write. */
  datatype Machine = Machine(c: B.Bcache, users: seq<set<J.Handle>>, writer: seq<J.Option<J.Op>>,
                             disk: J.Disk, lh: seq<nat>, ops: set<J.Op>, phase: J.Phase)

  // ---------------------------------------------------------------- the map it stands for

  predicate Sized(m: Machine) { |m.users| == |m.writer| == |m.c.buf| }

  ghost function Index(c: B.Bcache, n: nat): (i: nat)
    requires B.Cached(c, ROOTDEV, n)
    ensures B.Holds(c, i, ROOTDEV, n)
  {
    var i: nat :| B.Holds(c, i, ROOTDEV, n); i
  }

  /** What an invalid buffer holds does not matter. */
  ghost function BufAt(m: Machine, i: nat): (r: J.Buf)
    requires Sized(m) && i < |m.c.buf|
  {
    var b := m.c.buf[i];
    var data := if !b.valid && b.blockno in m.disk then m.disk[b.blockno] else b.data;
    J.Buf(b.valid, data, b.refcnt, b.lock, m.users[i], m.writer[i])
  }

  ghost function Abs(m: Machine): (s: J.State)
    requires Sized(m)
  {
    J.State(m.disk, map n | n in m.disk && B.Cached(m.c, ROOTDEV, n) :: BufAt(m, Index(m.c, n)), m.lh, m.ops, m.phase)
  }

  /** A buffer is unassigned and idle, or belongs to the one disk there is. */
  ghost predicate SlotOk(m: Machine, i: nat)
    requires Sized(m) && i < |m.c.buf|
  {
    var b := m.c.buf[i];
    if b.dev == ROOTDEV then b.blockno in m.disk
    else b.dev == 0 && !b.valid && b.refcnt == 0 && b.lock.None? && m.users[i] == {} && m.writer[i].None?
  }

  ghost predicate Shape(m: Machine) {
    Sized(m) && B.Good(m.c) && |m.lh| < J.NLOG && forall i: nat :: i < |m.c.buf| ==> SlotOk(m, i)
  }

  ghost predicate Inv(m: Machine) { Shape(m) && J.Inv(Abs(m)) }

  // ---------------------------------------------------------------- steps

  /** The steps of Journal except for recycling, which is bget's own choice.  bget panics when
      the block is not cached and every buffer is in use. */
  ghost predicate Enabled(m: Machine, a: J.Action)
    requires Sized(m)
  {
    && !a.Evict? && J.Enabled(Abs(m), a)
    && (a.Bget? && !B.Cached(m.c, ROOTDEV, a.b) ==> B.Victim(m.c) < |m.c.buf|)
  }

  ghost function At(m: Machine, n: nat): (i: nat)
    requires Sized(m) && n in Abs(m).cache
    ensures B.Holds(m.c, i, ROOTDEV, n) && Abs(m).cache[n] == BufAt(m, i)
  {
    Index(m.c, n)
  }

  ghost function Data(m: Machine, n: nat): J.Block
    requires Sized(m) && n in Abs(m).cache
  {
    m.c.buf[At(m, n)].data
  }

  ghost function Got(m: Machine, h: J.Handle, n: nat): Machine
    requires Sized(m) && n in m.disk && (B.Cached(m.c, ROOTDEV, n) || B.Victim(m.c) < |m.c.buf|)
  {
    if B.Cached(m.c, ROOTDEV, n) then
      var i := At(m, n);
      m.(c := B.Referenced(m.c, i), users := m.users[i := m.users[i] + {h}])
    else
      var i := B.Victim(m.c);
      m.(c := B.Recycled(m.c, i, ROOTDEV, n), users := m.users[i := {h}])
  }

  ghost function Logged(m: Machine, n: nat): Machine
    requires Sized(m) && n in Abs(m).cache
  {
    var i := At(m, n);
    var t := m.(writer := m.writer[i := J.None]);
    if n in m.lh then t else t.(c := B.Referenced(m.c, i), lh := m.lh + [n])
  }

  ghost function Unreferenced(m: Machine, h: J.Handle, n: nat): Machine
    requires Sized(m) && B.Covers(m.c) && n in Abs(m).cache && Abs(m).cache[n].refcnt > 0
  {
    var i := At(m, n);
    m.(c := B.Released(m.c, i), users := m.users[i := m.users[i] - {h}])
  }

  /** memmove into the held buffer, then bwrite. */
  ghost function Through(m: Machine, n: nat, data: J.Block): Machine
    requires Sized(m) && n in Abs(m).cache
  {
    m.(c := B.Stored(m.c, At(m, n), data), disk := m.disk[n := data])
  }

  ghost function Installed(m: Machine): Machine
    requires Sized(m) && m.phase.Installing? && m.phase.i < |m.lh| && B.Covers(m.c)
    requires m.lh[m.phase.i] in Abs(m).cache && J.LOGSTART + 1 + m.phase.i in Abs(m).cache
    requires Abs(m).cache[m.lh[m.phase.i]].refcnt > 0
  {
    var n := m.lh[m.phase.i];
    var t := Through(m, n, Data(m, J.LOGSTART + 1 + m.phase.i));
    t.(c := B.Unpinned(t.c, At(m, n)), phase := J.Installing(m.phase.i + 1))
  }

  ghost function Booted(m: Machine): Machine {
    var n := |m.c.buf|;
    Machine(B.Fresh(n), seq(n, i => {}), seq(n, i => J.None), m.disk, [], {}, J.Boot)
  }

  predicate OnBuffer(a: J.Action) {
    a.Bget? || a.Lock? || a.Fill? || a.Modify? || a.LogWrite? || a.Unlock? || a.Unref?
  }

  ghost function BufferNext(m: Machine, a: J.Action): Machine
    requires Sized(m) && B.Covers(m.c) && Enabled(m, a) && OnBuffer(a)
  {
    if a.Bget? then Got(m, a.h, a.b)
    else
      var i := At(m, a.b);
      match a
      case Lock(h, _) => m.(c := B.Locked(m.c, i, h))
      case Fill(_, n) => m.(c := B.Stored(m.c, i, m.disk[n]))
      case Modify(op, _, _, data) => m.(c := B.Stored(m.c, i, data), writer := m.writer[i := J.Some(op)])
      case LogWrite(_, _, n) => Logged(m, n)
      case Unlock(_, _) => m.(c := B.Unlocked(m.c, i))
      case Unref(h, n) => Unreferenced(m, h, n)
  }

  predicate OnDisk(a: J.Action) {
    a.CopyBlock? || a.WriteHead? || a.Install? || a.Erase? || a.Replay? || a.FinishRecovery?
  }

  ghost function DiskNext(m: Machine, a: J.Action): Machine
    requires Sized(m) && B.Covers(m.c) && Enabled(m, a) && OnDisk(a) && |m.lh| < J.NLOG
  {
    match a
    case CopyBlock(_, _) =>
      Through(m, J.LOGSTART + 1 + m.phase.i, Data(m, m.lh[m.phase.i])).(phase := J.Copying(m.phase.i + 1))
    case WriteHead(_) => Through(m, J.LOGSTART, J.PutHead(Data(m, J.LOGSTART), m.lh)).(phase := J.Installing(0))
    case Install(_, _) => Installed(m)
    case Erase(_) => Through(m, J.LOGSTART, J.PutHead(Data(m, J.LOGSTART), [])).(lh := [], phase := J.Closing)
    case Replay(_, _) =>
      Through(m, m.lh[m.phase.i], Data(m, J.LOGSTART + 1 + m.phase.i)).(phase := J.Replaying(m.phase.i + 1))
    case FinishRecovery(_) => Through(m, J.LOGSTART, J.PutHead(Data(m, J.LOGSTART), [])).(lh := [], phase := J.Open)
  }

  ghost function Next(m: Machine, a: J.Action): Machine
    requires Sized(m) && B.Covers(m.c) && Enabled(m, a) && |m.lh| < J.NLOG
  {
    if OnBuffer(a) then BufferNext(m, a)
    else if OnDisk(a) then DiskNext(m, a)
    else
      match a
      case BeginOp(op) => m.(ops := m.ops + {op})
      case EndOp(op) => m.(ops := J.NextEndOp(Abs(m), op).ops, phase := J.NextEndOp(Abs(m), op).phase)
      case Close => m.(phase := J.Open)
      case Crash => Booted(m)
      case ReadHead(_) => m.(lh := J.GetHead(Data(m, J.LOGSTART)), phase := J.Replaying(0))
  }

  // ---------------------------------------------------------------- one buffer at a time

  /** t differs from m in buffer i, its notes and its block on disk only. */
  ghost predicate Touches(m: Machine, t: Machine, i: nat) {
    && Sized(m) && Sized(t) && |t.c.buf| == |m.c.buf| && i < |m.c.buf|
    && t.c.buf[i].dev == m.c.buf[i].dev && t.c.buf[i].blockno == m.c.buf[i].blockno
    && (forall k: nat :: k < |m.c.buf| && k != i ==> t.c.buf[k] == m.c.buf[k] && t.users[k] == m.users[k] && t.writer[k] == m.writer[k])
    && t.disk.Keys == m.disk.Keys && (forall n: nat :: n in m.disk && n != m.c.buf[i].blockno ==> t.disk[n] == m.disk[n])
  }

  lemma IndexIs(c: B.Bcache, i: nat, n: nat)
    requires B.Keys(c) && B.Holds(c, i, ROOTDEV, n)
    ensures B.Cached(c, ROOTDEV, n) && Index(c, n) == i
  {
  }

  /** Entry x of the map that t stands for: the new buffer for n, the old one otherwise. */
  ghost predicate EntryIs(s: J.State, was: map<nat, J.Buf>, n: nat, b: J.Buf, x: nat) {
    && (x in s.cache <==> x in was || x == n)
    && (x in s.cache ==> s.cache[x] == if x == n then b else was[x])
  }

  lemma EntriesAre(s: J.State, was: map<nat, J.Buf>, n: nat, b: J.Buf)
    requires forall x: nat :: EntryIs(s, was, n, b, x)
    ensures s.cache == was[n := b]
  {
    assert EntryIs(s, was, n, b, n);
    forall x | x in s.cache ensures x in was[n := b] && s.cache[x] == was[n := b][x] { assert EntryIs(s, was, n, b, x); }
    forall x | x in was ensures x in s.cache { assert EntryIs(s, was, n, b, x); }
  }

  lemma TouchedAt(m: Machine, t: Machine, n: nat, x: nat)
    requires Sized(m) && B.Keys(m.c) && n in Abs(m).cache && Touches(m, t, At(m, n))
    ensures EntryIs(Abs(t), Abs(m).cache, n, BufAt(t, At(m, n)), x)
  {
    assert forall k: nat, y: nat, d: nat :: B.Holds(t.c, k, d, y) <==> B.Holds(m.c, k, d, y);
    if B.Cached(m.c, ROOTDEV, x) {
      var k := Index(m.c, x);
      IndexIs(m.c, k, x);
      IndexIs(t.c, k, x);
    }
  }

  lemma TouchedSlots(m: Machine, t: Machine, i: nat)
    requires Shape(m) && Touches(m, t, i) && m.c.buf[i].dev == ROOTDEV
    ensures forall k: nat :: k < |t.c.buf| ==> SlotOk(t, k)
  {
    forall k: nat | k < |t.c.buf| ensures SlotOk(t, k) { assert SlotOk(m, k); }
  }

  /** Changing one buffer of the cache changes one entry of the map. */
  lemma TouchedAbs(m: Machine, t: Machine, n: nat)
    requires Shape(m) && n in Abs(m).cache && Touches(m, t, At(m, n)) && B.Good(t.c) && |t.lh| < J.NLOG
    ensures Shape(t) && Abs(t) == J.State(t.disk, Abs(m).cache[n := BufAt(t, At(m, n))], t.lh, t.ops, t.phase)
  {
    TouchedSlots(m, t, At(m, n));
    forall x: nat ensures EntryIs(Abs(t), Abs(m).cache, n, BufAt(t, At(m, n)), x) { TouchedAt(m, t, n, x); }
    EntriesAre(Abs(t), Abs(m).cache, n, BufAt(t, At(m, n)));
  }

  lemma KeptGood(c: B.Bcache, i: nat, x: B.Buf)
    requires B.Good(c) && i < |c.buf| && x.dev == c.buf[i].dev && x.blockno == c.buf[i].blockno
    requires x.refcnt == 0 ==> c.buf[i].refcnt == 0
    ensures B.Good(B.With(c, i, x))
  {
    assert B.Holds(c, i, x.dev, x.blockno);
    B.WithGood(c, i, x);
  }

  ghost function Changed(m: Machine, i: nat, x: B.Buf, users: set<J.Handle>, writer: J.Option<J.Op>): Machine
    requires Sized(m) && i < |m.c.buf|
  {
    m.(c := B.With(m.c, i, x), users := m.users[i := users], writer := m.writer[i := writer])
  }

  lemma ChangedAbs(m: Machine, n: nat, x: B.Buf, users: set<J.Handle>, writer: J.Option<J.Op>)
    requires Shape(m) && n in Abs(m).cache && x.dev == ROOTDEV && x.blockno == n
    requires x.refcnt == 0 ==> m.c.buf[At(m, n)].refcnt == 0
    ensures var t := Changed(m, At(m, n), x, users, writer);
            Shape(t) && Abs(t) == J.WithBuf(Abs(m), n, BufAt(t, At(m, n)))
  {
    KeptGood(m.c, At(m, n), x);
    TouchedAbs(m, Changed(m, At(m, n), x, users, writer), n);
  }

  lemma LogAbs(m: Machine, lh: seq<nat>, ops: set<J.Op>, phase: J.Phase)
    requires Shape(m) && |lh| < J.NLOG
    ensures Shape(m.(lh := lh, ops := ops, phase := phase))
    ensures Abs(m.(lh := lh, ops := ops, phase := phase)) == J.State(m.disk, Abs(m).cache, lh, ops, phase)
  {
    var t := m.(lh := lh, ops := ops, phase := phase);
    forall k: nat | k < |t.c.buf| ensures SlotOk(t, k) { assert SlotOk(m, k); }
    forall k: nat | k < |t.c.buf| ensures BufAt(t, k) == BufAt(m, k) {}
  }

  // ---------------------------------------------------------------- every step is a step of Journal

  lemma LockStep(m: Machine, a: J.Action)
    requires Shape(m) && Enabled(m, a) && (a.Lock? || a.Unlock? || a.Fill? || a.Modify?)
    ensures Shape(BufferNext(m, a)) && Abs(BufferNext(m, a)) == J.Next(Abs(m), a)
  {
    var t, i := BufferNext(m, a), At(m, a.b);
    ChangedAbs(m, a.b, t.c.buf[i], t.users[i], t.writer[i]);
    assert t == Changed(m, i, t.c.buf[i], t.users[i], t.writer[i]);
  }

  lemma UnrefTouches(m: Machine, h: J.Handle, n: nat)
    requires Sized(m) && B.Covers(m.c) && n in Abs(m).cache && Abs(m).cache[n].refcnt > 0
    ensures var t, b := Unreferenced(m, h, n), Abs(m).cache[n];
            Touches(m, t, At(m, n)) && BufAt(t, At(m, n)) == b.(refcnt := b.refcnt - 1, users := b.users - {h})
  {
  }

  lemma UnrefAbs(m: Machine, h: J.Handle, n: nat)
    requires Shape(m) && n in Abs(m).cache && Abs(m).cache[n].refcnt > 0
    ensures var t, b := Unreferenced(m, h, n), Abs(m).cache[n];
            Shape(t) && Abs(t) == J.WithBuf(Abs(m), n, b.(refcnt := b.refcnt - 1, users := b.users - {h}))
  {
    UnrefTouches(m, h, n);
    B.ReleasedGood(m.c, At(m, n));
    TouchedAbs(m, Unreferenced(m, h, n), n);
  }

  lemma AbsorbedAbs(m: Machine, n: nat)
    requires Shape(m) && n in Abs(m).cache && n in m.lh
    ensures Shape(Logged(m, n)) && Abs(Logged(m, n)) == J.NextLogWrite(Abs(m), n)
  {
    var t, i := Logged(m, n), At(m, n);
    ChangedAbs(m, n, m.c.buf[i], m.users[i], J.None);
    assert t == Changed(m, i, m.c.buf[i], m.users[i], J.None);
  }

  lemma AppendedAbs(m: Machine, n: nat)
    requires Shape(m) && n in Abs(m).cache && n !in m.lh && |m.lh| < J.NLOG - 1
    ensures Shape(Logged(m, n)) && Abs(Logged(m, n)) == J.NextLogWrite(Abs(m), n)
  {
    var t, i := Logged(m, n), At(m, n);
    var u := Changed(m, i, t.c.buf[i], m.users[i], J.None);
    ChangedAbs(m, n, t.c.buf[i], m.users[i], J.None);
    LogAbs(u, t.lh, u.ops, u.phase);
    assert t == u.(lh := t.lh);
  }

  lemma AgainAbs(m: Machine, h: J.Handle, n: nat)
    requires Shape(m) && n in m.disk && B.Cached(m.c, ROOTDEV, n)
    ensures Shape(Got(m, h, n)) && Abs(Got(m, h, n)) == J.NextBget(Abs(m), h, n)
  {
    var t, i := Got(m, h, n), At(m, n);
    ChangedAbs(m, n, t.c.buf[i], t.users[i], m.writer[i]);
    assert t == Changed(m, i, t.c.buf[i], t.users[i], m.writer[i]);
  }

  ghost predicate Idle(m: Machine, i: nat)
    requires Sized(m) && i < |m.c.buf|
  {
    m.users[i] == {} && m.c.buf[i].lock.None? && m.writer[i].None?
  }

  /** The recycled buffer was idle, so all that is lost is a clean entry of the map. */
  lemma RecycledIdle(m: Machine, i: nat)
    requires Inv(m) && i < |m.c.buf| && B.Unused(m.c, i)
    ensures Idle(m, i)
    ensures m.c.buf[i].dev == ROOTDEV ==> m.c.buf[i].blockno in Abs(m).cache && Abs(m).cache[m.c.buf[i].blockno] == BufAt(m, i)
    ensures m.c.buf[i].valid ==> m.c.buf[i].blockno in m.disk && m.c.buf[i].data == m.disk[m.c.buf[i].blockno]
  {
    assert SlotOk(m, i);
    if m.c.buf[i].dev == ROOTDEV {
      var o := m.c.buf[i].blockno;
      IndexIs(m.c, i, o);
      assert J.BufInv(Abs(m), o);
    }
  }

  /** What Journal does when bget recycles buffer i: it drops i's block, if it has one. */
  ghost function Evicted(m: Machine, i: nat): J.State
    requires Sized(m) && i < |m.c.buf|
  {
    if m.c.buf[i].dev == ROOTDEV then Abs(m).(cache := Abs(m).cache - {m.c.buf[i].blockno}) else Abs(m)
  }

  ghost function NewBuf(m: Machine, h: J.Handle, n: nat): J.Buf
    requires n in m.disk
  {
    J.Buf(false, m.disk[n], 1, J.None, {h}, J.None)
  }

  lemma RecycledAt(m: Machine, h: J.Handle, n: nat, x: nat)
    requires Sized(m) && B.Keys(m.c) && n in m.disk && !B.Cached(m.c, ROOTDEV, n) && B.Victim(m.c) < |m.c.buf|
    requires B.Keys(Got(m, h, n).c) && Idle(m, B.Victim(m.c))
    ensures EntryIs(Abs(Got(m, h, n)), Evicted(m, B.Victim(m.c)).cache, n, NewBuf(m, h, n), x)
  {
    var i, t := B.Victim(m.c), Got(m, h, n);
    IndexIs(t.c, i, n);
    assert B.Holds(m.c, i, m.c.buf[i].dev, m.c.buf[i].blockno);
    if x != n && B.Cached(t.c, ROOTDEV, x) {
      var k := Index(t.c, x);
      assert k != i && B.Holds(m.c, k, ROOTDEV, x);
      IndexIs(m.c, k, x);
    }
    if B.Cached(m.c, ROOTDEV, x) && Index(m.c, x) != i {
      assert B.Holds(t.c, Index(m.c, x), ROOTDEV, x);
    }
  }

  lemma RecycledShape(m: Machine, h: J.Handle, n: nat)
    requires Shape(m) && n in m.disk && !B.Cached(m.c, ROOTDEV, n) && B.Victim(m.c) < |m.c.buf|
    ensures B.Unused(m.c, B.Victim(m.c)) && Shape(Got(m, h, n))
  {
    B.VictimIsOldest(m.c);
    var i, t := B.Victim(m.c), Got(m, h, n);
    B.WithGood(m.c, i, t.c.buf[i]);
    forall k: nat | k < |t.c.buf| ensures SlotOk(t, k) { assert SlotOk(m, k); }
  }

  lemma RecycledAbs(m: Machine, h: J.Handle, n: nat)
    requires Shape(m) && n in m.disk && !B.Cached(m.c, ROOTDEV, n) && B.Victim(m.c) < |m.c.buf|
    requires B.Keys(Got(m, h, n).c) && Idle(m, B.Victim(m.c))
    ensures Abs(Got(m, h, n)) == J.NextBget(Evicted(m, B.Victim(m.c)), h, n)
  {
    var t, e := Abs(Got(m, h, n)), Evicted(m, B.Victim(m.c));
    forall x: nat ensures EntryIs(t, e.cache, n, NewBuf(m, h, n), x) { RecycledAt(m, h, n, x); }
    EntriesAre(t, e.cache, n, NewBuf(m, h, n));
  }

  lemma ThroughAbs(m: Machine, n: nat, data: J.Block, lh: seq<nat>, phase: J.Phase)
    requires Shape(m) && n in Abs(m).cache && Abs(m).cache[n].valid && |lh| < J.NLOG
    ensures Shape(Through(m, n, data).(lh := lh, phase := phase))
    ensures Abs(Through(m, n, data).(lh := lh, phase := phase)) == J.WriteThrough(Abs(m), n, data).(lh := lh, phase := phase)
  {
    var t, i := Through(m, n, data).(lh := lh, phase := phase), At(m, n);
    KeptGood(m.c, i, t.c.buf[i]);
    TouchedAbs(m, t, n);
  }

  lemma CopyStep(m: Machine, a: J.Action)
    requires Shape(m) && Enabled(m, a) && a.CopyBlock?
    ensures Shape(DiskNext(m, a)) && Abs(DiskNext(m, a)) == J.Next(Abs(m), a)
  {
    var i := m.phase.i;
    ThroughAbs(m, J.LOGSTART + 1 + i, Data(m, m.lh[i]), m.lh, J.Copying(i + 1));
  }

  lemma ReplayStep(m: Machine, a: J.Action)
    requires Shape(m) && Enabled(m, a) && a.Replay?
    ensures Shape(DiskNext(m, a)) && Abs(DiskNext(m, a)) == J.Next(Abs(m), a)
  {
    var i := m.phase.i;
    ThroughAbs(m, m.lh[i], Data(m, J.LOGSTART + 1 + i), m.lh, J.Replaying(i + 1));
  }

  lemma HeadStep(m: Machine, a: J.Action)
    requires Shape(m) && Enabled(m, a) && (a.WriteHead? || a.Erase? || a.FinishRecovery?)
    ensures Shape(DiskNext(m, a)) && Abs(DiskNext(m, a)) == J.Next(Abs(m), a)
  {
    var lh := if a.WriteHead? then m.lh else [];
    var phase := if a.WriteHead? then J.Installing(0) else if a.Erase? then J.Closing else J.Open;
    ThroughAbs(m, J.LOGSTART, J.PutHead(Data(m, J.LOGSTART), lh), lh, phase);
  }

  /** What bunpin needs of its only caller: install_trans holds a reference of its own beside the
      pin, so the count does not fall to zero there. */
  lemma UnpinKeepsReference(m: Machine, to: J.Handle)
    requires Inv(m) && m.phase.Installing? && m.phase.i < |m.lh| && J.Holds(Abs(m), to, m.lh[m.phase.i])
    ensures m.c.buf[At(m, m.lh[m.phase.i])].refcnt > 1
  {
    var s, n := Abs(m), m.lh[m.phase.i];
    J.SlotOfEntry(s.lh, s.phase.i);
    assert J.BufInv(s, n) && J.Pinned(s, n) && to in s.cache[n].users;
  }

  /** Between two states of Installing the home block's buffer alone changes. */
  ghost predicate Installs(m: Machine, n: nat) {
    && Sized(m) && m.phase.Installing? && m.phase.i < |m.lh| && n == m.lh[m.phase.i]
    && n in Abs(m).cache && J.LOGSTART + 1 + m.phase.i in Abs(m).cache
    && Abs(m).cache[n].valid && Abs(m).cache[J.LOGSTART + 1 + m.phase.i].valid && m.c.buf[At(m, n)].refcnt > 1
  }

  lemma StoredUnpinned(c: B.Bcache, i: nat, data: J.Block)
    requires i < |c.buf| == |c.fell| && c.buf[i].refcnt > 1
    ensures B.Unpinned(B.Stored(c, i, data), i) == B.With(c, i, c.buf[i].(valid := true, data := data, refcnt := c.buf[i].refcnt - 1))
  {
    var r, w := B.Unpinned(B.Stored(c, i, data), i), B.With(c, i, c.buf[i].(valid := true, data := data, refcnt := c.buf[i].refcnt - 1));
    assert r.buf == w.buf;
  }

  lemma InstallTouches(m: Machine, n: nat, t: Machine, i: nat)
    requires Installs(m, n) && B.Covers(m.c) && t == Installed(m) && i == At(m, n)
    ensures Touches(m, t, i) && t.c == B.With(m.c, i, t.c.buf[i]) && t.c.buf[i].refcnt > 0 && t.lh == m.lh
    ensures BufAt(t, i) == J.NextInstall(Abs(m)).cache[n] && t.disk == J.NextInstall(Abs(m)).disk
    ensures t.ops == m.ops && t.phase == J.Installing(m.phase.i + 1)
  {
    StoredUnpinned(m.c, i, Data(m, J.LOGSTART + 1 + m.phase.i));
  }

  lemma KeptAbs(m: Machine, t: Machine, n: nat, i: nat)
    requires Shape(m) && n in Abs(m).cache && i == At(m, n) && Touches(m, t, i)
    requires t.c == B.With(m.c, i, t.c.buf[i]) && t.c.buf[i].refcnt > 0 && t.lh == m.lh
    ensures Shape(t) && Abs(t) == J.State(t.disk, Abs(m).cache[n := BufAt(t, i)], t.lh, t.ops, t.phase)
  {
    KeptGood(m.c, i, t.c.buf[i]);
    TouchedAbs(m, t, n);
  }

  lemma InstalledAbs(m: Machine, n: nat)
    requires Shape(m) && Installs(m, n)
    ensures Shape(Installed(m)) && Abs(Installed(m)) == J.NextInstall(Abs(m))
  {
    InstallTouches(m, n, Installed(m), At(m, n));
    KeptAbs(m, Installed(m), n, At(m, n));
  }

  lemma BootStep(m: Machine)
    requires Shape(m)
    ensures Shape(Booted(m)) && Abs(Booted(m)) == J.State(m.disk, map[], [], {}, J.Boot)
  {
    B.FreshGood(|m.c.buf|);
  }

  /** The steps that touch no buffer. */
  lemma LogStep(m: Machine, a: J.Action)
    requires Inv(m) && Enabled(m, a) && !OnBuffer(a) && !OnDisk(a)
    ensures Shape(Next(m, a)) && Abs(Next(m, a)) == J.Next(Abs(m), a)
  {
    if a.Crash? {
      BootStep(m);
    } else {
      if a.ReadHead? { assert J.BufInv(Abs(m), J.LOGSTART); }
      var t := Next(m, a);
      LogAbs(m, t.lh, t.ops, t.phase);
    }
  }

  ghost predicate Refines(m: Machine, t: Machine, e: J.Event) {
    Inv(m) && Inv(t) && J.View(Abs(t)) == J.Spec(J.View(Abs(m)), e)
  }

  lemma RecycleRefines(m: Machine, a: J.Action)
    requires Inv(m) && Enabled(m, a) && a.Bget? && !B.Cached(m.c, ROOTDEV, a.b)
    ensures Refines(m, Got(m, a.h, a.b), J.Quiet)
  {
    var i := B.Victim(m.c);
    RecycledShape(m, a.h, a.b);
    RecycledIdle(m, i);
    RecycledAbs(m, a.h, a.b);
    if m.c.buf[i].dev == ROOTDEV { J.StepRefines(Abs(m), J.Evict(m.c.buf[i].blockno)); }
    J.StepRefines(Evicted(m, i), a);
  }

  lemma BufferStep(m: Machine, a: J.Action)
    requires Shape(m) && Enabled(m, a) && OnBuffer(a) && (a.Bget? ==> B.Cached(m.c, ROOTDEV, a.b))
    ensures Shape(BufferNext(m, a)) && Abs(BufferNext(m, a)) == J.Next(Abs(m), a)
  {
    match a
    case Bget(h, n) => AgainAbs(m, h, n);
    case LogWrite(_, _, n) => if n in m.lh { AbsorbedAbs(m, n); } else { AppendedAbs(m, n); }
    case Unref(h, n) => UnrefAbs(m, h, n);
    case _ => LockStep(m, a);
  }

  lemma DiskStep(m: Machine, a: J.Action)
    requires Inv(m) && Enabled(m, a) && OnDisk(a)
    ensures Shape(DiskNext(m, a)) && Abs(DiskNext(m, a)) == J.Next(Abs(m), a)
  {
    if a.Install? {
      UnpinKeepsReference(m, a.to);
      InstalledAbs(m, m.lh[m.phase.i]);
    } else if a.CopyBlock? {
      CopyStep(m, a);
    } else if a.Replay? {
      ReplayStep(m, a);
    } else {
      HeadStep(m, a);
    }
  }

  /** Every step of every process, of the committer and of recovery, with the buffers recycled
      in least recently used order, keeps the ring ordered, the keys unique and the counts right,
      and changes the logical disk exactly as its event says. */
  lemma StepRefines(m: Machine, a: J.Action)
    requires Inv(m) && Enabled(m, a)
    ensures Inv(Next(m, a))
    ensures J.View(Abs(Next(m, a))) == J.Spec(J.View(Abs(m)), J.EventOf(a))
  {
    if a.Bget? && !B.Cached(m.c, ROOTDEV, a.b) {
      RecycleRefines(m, a);
    } else {
      J.StepRefines(Abs(m), a);
      if OnBuffer(a) { BufferStep(m, a); }
      else if OnDisk(a) { DiskStep(m, a); }
      else { LogStep(m, a); }
    }
  }

  // ---------------------------------------------------------------- whole runs

  /** binit's buffers over a disk, the log not yet read. */
  ghost function Start(n: nat, disk: J.Disk): Machine {
    Machine(B.Fresh(n), seq(n, i => {}), seq(n, i => J.None), disk, [], {}, J.Boot)
  }

  lemma StartInv(n: nat, disk: J.Disk)
    requires forall b :: J.InLog(b) ==> b in disk
    requires J.LOGSTART in disk && disk[J.LOGSTART][0] == 0
    ensures Inv(Start(n, disk))
  {
    var m := Start(n, disk);
    B.FreshGood(n);
    assert m == Booted(m) && Shape(m);
    BootStep(m);
    J.FreshImage(disk);
  }

  ghost predicate Runs(m: Machine, acts: seq<J.Action>, t: Machine)
    decreases |acts|
  {
    if acts == [] then m == t
    else Sized(m) && B.Covers(m.c) && |m.lh| < J.NLOG && Enabled(m, acts[0]) && Runs(Next(m, acts[0]), acts[1..], t)
  }

  lemma {:induction false} RunRefines(m: Machine, acts: seq<J.Action>, t: Machine)
    requires Inv(m) && Runs(m, acts, t)
    ensures Inv(t) && J.View(Abs(t)) == J.SpecRun(J.View(Abs(m)), acts)
    decreases |acts|
  {
    if acts != [] {
      StepRefines(m, acts[0]);
      RunRefines(Next(m, acts[0]), acts[1..], t);
    }
  }

  lemma Settled(m: Machine)
    requires Inv(m) && m.phase.Open?
    ensures forall b :: b in m.disk && !J.InLog(b) ==> b in J.View(Abs(m)).durable && m.disk[b] == J.View(Abs(m)).durable[b]
  {
  }

  /** However often recovery is cut short, what a reboot recovers stays the same. */
  lemma {:induction false} RetryKeeps(t: Machine, retry: seq<J.Action>, u: Machine)
    requires Inv(t) && retry != [] && retry[0].Crash? && Runs(t, retry, u)
    requires forall k :: 0 <= k < |retry| ==> J.EventOf(retry[k]).Quiet? || J.EventOf(retry[k]).Reboot?
    ensures Inv(u) && J.View(Abs(u)).durable == J.View(Abs(t)).durable
  {
    StepRefines(t, J.Crash);
    RunRefines(Next(t, J.Crash), retry[1..], u);
    J.QuietRun(J.View(Abs(Next(t, J.Crash))), retry[1..]);
  }

  /** Crash atomicity down to the buffers: cut a run anywhere, let recovery be cut any number of
      times; when one completes, every home block on disk holds what the last commit gave it. */
  lemma CrashAtomic(m: Machine, acts: seq<J.Action>, t: Machine, retry: seq<J.Action>, u: Machine)
    requires Inv(m) && Runs(m, acts, t)
    requires retry != [] && retry[0].Crash? && Runs(t, retry, u)
    requires forall k :: 0 <= k < |retry| ==> J.EventOf(retry[k]).Quiet? || J.EventOf(retry[k]).Reboot?
    requires u.phase.Open?
    ensures Inv(u)
    ensures forall b :: b in u.disk && !J.InLog(b) ==>
              b in J.SpecRun(J.View(Abs(m)), acts).durable && u.disk[b] == J.SpecRun(J.View(Abs(m)), acts).durable[b]
  {
    RunRefines(m, acts, t);
    RetryKeeps(t, retry, u);
    Settled(u);
  }

  /** In every run from binit: whenever the log is open and no operation is, all that readers see is
      on disk and is what a reboot recovers.  What ended operations wrote is never lost. */
  lemma EndedOnDisk(n: nat, disk: J.Disk, acts: seq<J.Action>, t: Machine)
    requires forall b :: J.InLog(b) ==> b in disk
    requires J.LOGSTART in disk && disk[J.LOGSTART][0] == 0
    requires Runs(Start(n, disk), acts, t) && t.phase.Open? && t.ops == {}
    ensures Inv(t) && t.lh == [] && J.View(Abs(t)).durable == J.View(Abs(t)).current
    ensures forall b :: b in t.disk && !J.InLog(b) ==> t.disk[b] == J.View(Abs(t)).current[b]
    ensures J.View(Abs(t)).current == J.SpecRun(J.View(Abs(Start(n, disk))), acts).current
  {
    StartInv(n, disk);
    RunRefines(Start(n, disk), acts, t);
    J.EndedIsDurable(Abs(t));
    Settled(t);
  }

  // ---------------------------------------------------------------- what callers can rely on

  /** log_write's extra reference on the block of buffer i. */
  ghost predicate Pinned(m: Machine, i: nat)
    requires Sized(m) && i < |m.c.buf|
  {
    m.c.buf[i].dev == ROOTDEV && J.Pinned(Abs(m), m.c.buf[i].blockno)
  }

  lemma CountsAt(m: Machine, i: nat)
    requires Inv(m) && i < |m.c.buf|
    ensures m.c.buf[i].refcnt == |m.users[i]| + if Pinned(m, i) then 1 else 0
    ensures m.c.buf[i].lock.Some? ==> m.c.buf[i].lock.value in m.users[i]
  {
    assert SlotOk(m, i);
    if m.c.buf[i].dev == ROOTDEV {
      IndexIs(m.c, i, m.c.buf[i].blockno);
      assert J.BufInv(Abs(m), m.c.buf[i].blockno);
    }
  }

  /** In every state of every run from binit, whatever processes, commits, crashes and recoveries
      do: the ring is in least recently used order, no block has two buffers, and a buffer's count
      is the number of references handed out for it plus one if it is logged and not installed. */
  lemma CacheInOrder(n: nat, disk: J.Disk, acts: seq<J.Action>, t: Machine)
    requires forall b :: J.InLog(b) ==> b in disk
    requires J.LOGSTART in disk && disk[J.LOGSTART][0] == 0
    requires Runs(Start(n, disk), acts, t)
    ensures Inv(t) && B.Good(t.c)
    ensures forall i: nat :: i < |t.c.buf| ==> t.c.buf[i].refcnt == |t.users[i]| + if Pinned(t, i) then 1 else 0
  {
    StartInv(n, disk);
    RunRefines(Start(n, disk), acts, t);
    forall i: nat | i < |t.c.buf| ensures t.c.buf[i].refcnt == |t.users[i]| + if Pinned(t, i) then 1 else 0 {
      CountsAt(t, i);
    }
  }

  /** What bread finds, in the cache or on disk, is the logical contents of a home block. */
  lemma ReadsLogical(m: Machine, n: nat, data: J.Block)
    requires Inv(m) && !J.Recovering(Abs(m)) && n in m.disk && !J.InLog(n)
    ensures B.Shows(m.c, m.disk, ROOTDEV, n, data) <==> data == J.View(Abs(m)).current[n]
  {
    if exists i: nat :: B.Holds(m.c, i, ROOTDEV, n) && m.c.buf[i].valid {
      var i: nat :| B.Holds(m.c, i, ROOTDEV, n) && m.c.buf[i].valid;
      IndexIs(m.c, i, n);
    }
  }

  predicate SameKey(x: B.Buf, y: B.Buf) { x.dev == y.dev && x.blockno == y.blockno }

  lemma BufferKeepsKey(m: Machine, a: J.Action, i: nat)
    requires Shape(m) && Enabled(m, a) && OnBuffer(a) && i < |m.c.buf| && m.c.buf[i].refcnt > 0
    ensures i < |BufferNext(m, a).c.buf| && SameKey(BufferNext(m, a).c.buf[i], m.c.buf[i])
  {
    B.VictimIsOldest(m.c);
  }

  lemma DiskKeepsKey(m: Machine, a: J.Action, i: nat)
    requires Shape(m) && Enabled(m, a) && OnDisk(a) && i < |m.c.buf|
    ensures i < |DiskNext(m, a).c.buf| && SameKey(DiskNext(m, a).c.buf[i], m.c.buf[i])
  {
  }

  /** A step other than a crash leaves the key of a buffer in use alone. */
  lemma InUseKeepsKey(m: Machine, a: J.Action, i: nat)
    requires Inv(m) && Enabled(m, a) && !a.Crash? && i < |m.c.buf| && m.c.buf[i].refcnt > 0
    ensures i < |Next(m, a).c.buf| && SameKey(Next(m, a).c.buf[i], m.c.buf[i])
  {
    if OnBuffer(a) { BufferKeepsKey(m, a, i); }
    else if OnDisk(a) { DiskKeepsKey(m, a, i); }
  }

  lemma HolderStays(m: Machine, a: J.Action, h: J.Handle, i: nat)
    requires Inv(m) && Enabled(m, a) && !a.Crash? && i < |m.c.buf| && h in m.users[i]
    requires a != J.Unref(h, m.c.buf[i].blockno)
    ensures i < |Next(m, a).users| && h in Next(m, a).users[i]
  {
    CountsAt(m, i);
    B.VictimIsOldest(m.c);
  }

  /** From bget until its own brelse a process's buffer stays its block's buffer, in every run
      without a crash. */
  lemma {:induction false} HeldKeepsBlock(m: Machine, acts: seq<J.Action>, t: Machine, h: J.Handle, i: nat, n: nat)
    requires Inv(m) && Runs(m, acts, t) && B.Holds(m.c, i, ROOTDEV, n) && h in m.users[i]
    requires forall k :: 0 <= k < |acts| ==> !acts[k].Crash? && acts[k] != J.Unref(h, n)
    ensures Inv(t) && B.Holds(t.c, i, ROOTDEV, n) && h in t.users[i]
    decreases |acts|
  {
    if acts != [] {
      CountsAt(m, i);
      StepRefines(m, acts[0]);
      InUseKeepsKey(m, acts[0], i);
      HolderStays(m, acts[0], h, i);
      HeldKeepsBlock(Next(m, acts[0]), acts[1..], t, h, i, n);
    }
  }

  /** A logged block is in a valid buffer that bget does not choose, so its contents are not lost
      before they are installed. */
  lemma LoggedNotRecycled(m: Machine, n: nat)
    requires Inv(m) && J.Pinned(Abs(m), n)
    ensures n in Abs(m).cache && m.c.buf[At(m, n)].valid && B.Victim(m.c) != At(m, n)
  {
    assert J.BufInv(Abs(m), n);
    B.VictimIsOldest(m.c);
  }
}
