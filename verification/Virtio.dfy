/** The virtio block driver's descriptor bookkeeping and its two rings (virtio_disk.c).

    Each transition below is one uninterrupted section under vdisk_lock, or one action of
    the device; every order of them is a run. */
module Virtio {
  import Sets

  datatype Option<T> = None | Some(value: T)

  const NUM := 8
  const IDX := 0x1_0000   // avail->idx, used->idx and used_idx are 16 bits wide

  /** What a descriptor's address points at. */
  datatype Addr = Null | Op(i: nat) | Data(b: nat) | Status(i: nat)

  datatype Desc = Desc(addr: Addr, len: nat, chained: bool, write: bool, next: nat)

  /** struct virtio_blk_req: read or write, and the 512-byte sector. */
  datatype Cmd = Cmd(write: bool, sector: nat)

  /** Two sectors to a block, in 32-bit arithmetic. */
  function Sector(blockno: nat): nat { blockno * 2 % 0x1_0000_0000 }

  const ZERO := Desc(Null, 0, false, false, 0)

  datatype Phase = Queued | Taken | Used | Done

  /** A request: the rest of its chain, its buffer, and how far it has got. */
  datatype Req = Req(i1: nat, i2: nat, b: nat, blockno: nat, write: bool, phase: Phase)

  /** struct disk, the rings and the device's own position; then, for the proof, the
      requests by head descriptor, the owner of each descriptor, and the ring contents. */
  datatype Vq = Vq(free: seq<bool>, desc: seq<Desc>, info: seq<Option<nat>>, status: seq<int>, ops: seq<Cmd>,
                   ring: seq<nat>, availIdx: nat, seen: nat, uring: seq<nat>, usedIdx: nat, devIdx: nat, busy: set<nat>,
                   reqs: map<nat, Req>, own: map<nat, nat>, avail: seq<nat>, used: seq<nat>)

  predicate Shape(v: Vq) {
    && |v.free| == |v.desc| == |v.info| == |v.status| == |v.ops| == |v.ring| == |v.uring| == NUM
    && v.availIdx < IDX && v.seen < IDX && v.usedIdx < IDX && v.devIdx < IDX
  }

  /** A descriptor is free, and then blank, or part of exactly one request. */
  predicate DescOk(v: Vq, d: nat) {
    d < NUM && Shape(v)
    && (v.free[d] <==> d !in v.own) && (v.free[d] ==> v.desc[d] == ZERO)
    && (d in v.own ==> v.own[d] in v.reqs && d in {v.own[d], v.reqs[v.own[d]].i1, v.reqs[v.own[d]].i2})
  }

  predicate Owns(v: Vq, h: nat, d: nat) { d < NUM && d in v.own && v.own[d] == h }

  /** The three descriptors that virtio_disk_rw formats for a request. */
  predicate Formatted(v: Vq, h: nat, r: Req) {
    && Shape(v) && h < NUM && r.i1 < NUM && r.i2 < NUM
    && v.ops[h] == Cmd(r.write, Sector(r.blockno))
    && v.desc[h] == Desc(Op(h), 16, true, false, r.i1)
    && v.desc[r.i1] == Desc(Data(r.b), 1024, true, !r.write, r.i2)
    && v.desc[r.i2] == Desc(Status(h), 1, false, true, 0)
  }

  /** A request in flight owns three descriptors, formatted, and its buffer is recorded. */
  predicate ReqOk(v: Vq, h: nat) {
    h in v.reqs &&
    var r := v.reqs[h];
    && Owns(v, h, h) && Owns(v, h, r.i1) && Owns(v, h, r.i2) && h != r.i1 && h != r.i2 && r.i1 != r.i2
    && Formatted(v, h, r) && v.info[h] == Some(r.b)
    && (r.b in v.busy <==> r.phase != Done)
    && (r.phase == Used || r.phase == Done ==> v.status[h] == 0)
  }

  /** Requests are for different buffers. */
  predicate Buffers(v: Vq, h: nat, k: nat) {
    h in v.reqs && k in v.reqs ==> h == k || v.reqs[h].b != v.reqs[k].b
  }

  function Plus(idx: nat, k: nat): nat { (idx + k) % IDX }

  function Inc(idx: nat): nat { (idx + 1) % IDX }

  function Slot(idx: nat, k: nat): nat { Plus(idx, k) % NUM }

  predicate At(ring: seq<nat>, from: nat, q: seq<nat>, k: nat) {
    |ring| == NUM && k < |q| && ring[Slot(from, k)] == q[k]
  }

  /** The ring from position `from` on holds q. */
  ghost predicate Ring(ring: seq<nat>, from: nat, q: seq<nat>) {
    |ring| == NUM && forall k: nat {:trigger At(ring, from, q, k)} :: k < |q| ==> At(ring, from, q, k)
  }

  /** q lists the requests in this phase, each once. */
  ghost predicate Lists(reqs: map<nat, Req>, q: seq<nat>, ph: Phase) {
    && (forall h :: h in q <==> h in reqs && reqs[h].phase == ph)
    && (forall j, k :: 0 <= j < k < |q| ==> q[j] != q[k])
  }

  /** Every descriptor, every request and every pair of requests is in order. */
  ghost predicate Parts(v: Vq) {
    && (forall d :: d in v.own ==> d < NUM)
    && (forall d {:trigger DescOk(v, d)} :: 0 <= d < NUM ==> DescOk(v, d))
    && (forall h {:trigger ReqOk(v, h)} :: h in v.reqs ==> ReqOk(v, h))
    && (forall h, k {:trigger Buffers(v, h, k)} :: Buffers(v, h, k))
  }

  ghost predicate Good(v: Vq) {
    && Shape(v) && Parts(v)
    && Ring(v.ring, v.seen, v.avail) && Lists(v.reqs, v.avail, Queued) && v.availIdx == Plus(v.seen, |v.avail|)
    && Ring(v.uring, v.usedIdx, v.used) && Lists(v.reqs, v.used, Used) && v.devIdx == Plus(v.usedIdx, |v.used|)
  }

  lemma ReqIs(v: Vq, h: nat)
    requires Good(v) && h in v.reqs
    ensures ReqOk(v, h)
  {
  }

  // ---------------------------------------------------------------- ring arithmetic

  /** Distinct numbers below n are at most n. */
  lemma {:induction false} Pigeonhole(q: seq<nat>, n: nat)
    requires (forall k :: 0 <= k < |q| ==> q[k] < n) && (forall j, k :: 0 <= j < k < |q| ==> q[j] != q[k])
    ensures |q| <= n
  {
    if q != [] {
      assert q[0] < n;
      if exists k :: 0 <= k < |q| && q[k] == n - 1 {
        var k :| 0 <= k < |q| && q[k] == n - 1;
        var p := q[..k] + q[k + 1..];
        assert forall j :: 0 <= j < |p| ==> p[j] == q[if j < k then j else j + 1];
        forall j | 0 <= j < |p| ensures p[j] < n - 1 { assert p[j] != q[k]; }
        Pigeonhole(p, n - 1);
      } else {
        Pigeonhole(q, n - 1);
      }
    }
  }

  /** Because NUM divides the index range, wrap-around does not disturb the slots: up to NUM
      consecutive positions are different slots, and stepping is the same before and after. */
  lemma Slots(idx: nat, j: nat, k: nat)
    requires idx < IDX && j < k < NUM
    ensures Slot(idx, j) != Slot(idx, k)
  {
  }

  lemma Modulo(a: int, q: int)
    ensures (a + q * IDX) % IDX == a % IDX
  {
    var d := (a + q * IDX) / IDX - a / IDX - q;
    assert a % IDX - (a + q * IDX) % IDX == d * IDX;
  }

  lemma PlusNext(idx: nat, k: nat)
    ensures Plus(Inc(idx), k) == Plus(idx, k + 1) == Inc(Plus(idx, k))
  {
    Modulo(Inc(idx) + k, (idx + 1) / IDX);
    Modulo(Plus(idx, k) + 1, (idx + k) / IDX);
  }

  lemma SlotNext(idx: nat, k: nat)
    ensures Slot(Inc(idx), k) == Slot(idx, k + 1)
  {
    PlusNext(idx, k);
  }

  lemma RingFirst(ring: seq<nat>, from: nat, q: seq<nat>)
    requires Ring(ring, from, q) && from < IDX && q != []
    ensures ring[from % NUM] == q[0]
  {
    assert At(ring, from, q, 0);
  }

  lemma RingPop(ring: seq<nat>, from: nat, q: seq<nat>)
    requires Ring(ring, from, q) && q != []
    ensures Ring(ring, Inc(from), q[1..])
  {
    var next, rest := Inc(from), q[1..];
    forall k: nat | k < |rest| ensures At(ring, next, rest, k) {
      assert At(ring, from, q, k + 1);
      SlotNext(from, k);
    }
  }

  lemma RingPush(ring: seq<nat>, from: nat, q: seq<nat>, h: nat)
    requires Ring(ring, from, q) && from < IDX && |q| < NUM
    ensures Ring(ring[Slot(from, |q|) := h], from, q + [h])
  {
    var after, longer := ring[Slot(from, |q|) := h], q + [h];
    forall k: nat | k < |longer| ensures At(after, from, longer, k) {
      if k < |q| {
        assert At(ring, from, q, k);
        Slots(from, k, |q|);
      }
    }
  }

  lemma ListsPop(reqs: map<nat, Req>, q: seq<nat>, ph: Phase, other: Phase)
    requires Lists(reqs, q, ph) && q != [] && other != ph && q[0] in reqs
    ensures Lists(WithPhase(reqs, q[0], other), q[1..], ph)
  {
    forall h | h in q && h != q[0] ensures h in q[1..] { }
  }

  lemma ListsPush(reqs: map<nat, Req>, q: seq<nat>, ph: Phase, h: nat)
    requires Lists(reqs, q, ph) && h in reqs && reqs[h].phase != ph
    ensures Lists(WithPhase(reqs, h, ph), q + [h], ph)
  {
  }

  lemma ListsOther(reqs: map<nat, Req>, q: seq<nat>, ph: Phase, h: nat, other: Phase)
    requires Lists(reqs, q, ph) && h in reqs && reqs[h].phase != ph && other != ph
    ensures Lists(WithPhase(reqs, h, other), q, ph)
  {
  }

  /** A list of requests without h has room for h in a ring. */
  lemma RoomFor(v: Vq, q: seq<nat>, ph: Phase, h: nat)
    requires Good(v) && Lists(v.reqs, q, ph) && h < NUM && h !in q
    ensures |q| < NUM
  {
    forall k | 0 <= k < |q| ensures q[k] < NUM { assert q[k] in q; assert ReqOk(v, q[k]); }
    Pigeonhole(q + [h], NUM);
  }

  function WithPhase(reqs: map<nat, Req>, h: nat, ph: Phase): map<nat, Req>
    requires h in reqs
  {
    reqs[h := reqs[h].(phase := ph)]
  }

  // ---------------------------------------------------------------- virtio_disk_rw: submit

  /** Three distinct free descriptors are formatted and published for buffer b. */
  function Submitted(v: Vq, i0: nat, i1: nat, i2: nat, b: nat, blockno: nat, write: bool): Vq
    requires Shape(v) && i0 < NUM && i1 < NUM && i2 < NUM
  {
    v.(free := v.free[i0 := false][i1 := false][i2 := false],
       desc := v.desc[i0 := Desc(Op(i0), 16, true, false, i1)]
                     [i1 := Desc(Data(b), 1024, true, !write, i2)][i2 := Desc(Status(i0), 1, false, true, 0)],
       info := v.info[i0 := Some(b)], status := v.status[i0 := 0xff],
       ops := v.ops[i0 := Cmd(write, Sector(blockno))],
       ring := v.ring[v.availIdx % NUM := i0], availIdx := Inc(v.availIdx), busy := v.busy + {b},
       reqs := v.reqs[i0 := Req(i1, i2, b, blockno, write, Queued)], own := v.own[i0 := i0][i1 := i0][i2 := i0],
       avail := v.avail + [i0])
  }

  /** What virtio_disk_rw needs: the descriptors are free and the buffer, being locked by
      its one user, is in no request. */
  ghost predicate CanSubmit(v: Vq, i0: nat, i1: nat, i2: nat, b: nat) {
    && i0 < NUM && i1 < NUM && i2 < NUM && i0 != i1 && i0 != i2 && i1 != i2 && Shape(v)
    && v.free[i0] && v.free[i1] && v.free[i2] && forall h :: h in v.reqs ==> v.reqs[h].b != b
  }

  lemma SubmittedDescs(v: Vq, i0: nat, i1: nat, i2: nat, b: nat, blockno: nat, write: bool)
    requires Good(v) && CanSubmit(v, i0, i1, i2, b)
    ensures var w := Submitted(v, i0, i1, i2, b, blockno, write);
            (forall d :: d in w.own ==> d < NUM) && (forall d :: 0 <= d < NUM ==> DescOk(w, d))
  {
    var w := Submitted(v, i0, i1, i2, b, blockno, write);
    SubmittedHead(v, i0, i1, i2, b);
    forall d | 0 <= d < NUM ensures DescOk(w, d) { assert DescOk(v, d); }
  }

  lemma SubmittedReqs(v: Vq, i0: nat, i1: nat, i2: nat, b: nat, blockno: nat, write: bool, h: nat)
    requires Good(v) && CanSubmit(v, i0, i1, i2, b) && h in Submitted(v, i0, i1, i2, b, blockno, write).reqs
    ensures ReqOk(Submitted(v, i0, i1, i2, b, blockno, write), h)
  {
    assert DescOk(v, i0) && DescOk(v, i1) && DescOk(v, i2);
    if h != i0 { assert ReqOk(v, h); }
  }

  lemma SubmittedRings(v: Vq, i0: nat, i1: nat, i2: nat, b: nat, blockno: nat, write: bool)
    requires Good(v) && CanSubmit(v, i0, i1, i2, b)
    ensures var w := Submitted(v, i0, i1, i2, b, blockno, write);
            && Ring(w.ring, w.seen, w.avail) && Lists(w.reqs, w.avail, Queued) && w.availIdx == Plus(w.seen, |w.avail|)
            && Ring(w.uring, w.usedIdx, w.used) && Lists(w.reqs, w.used, Used) && w.devIdx == Plus(w.usedIdx, |w.used|)
  {
    var w := Submitted(v, i0, i1, i2, b, blockno, write);
    SubmittedHead(v, i0, i1, i2, b);
    RoomFor(v, v.avail, Queued, i0);
    PlusNext(v.seen, |v.avail|);
    RingPush(v.ring, v.seen, v.avail, i0);
  }

  lemma SubmittedHead(v: Vq, i0: nat, i1: nat, i2: nat, b: nat)
    requires Good(v) && CanSubmit(v, i0, i1, i2, b)
    ensures i0 !in v.reqs
  {
    assert DescOk(v, i0);
    if i0 in v.reqs { ReqIs(v, i0); }
  }

  lemma SubmittedGood(v: Vq, i0: nat, i1: nat, i2: nat, b: nat, blockno: nat, write: bool)
    requires Good(v) && CanSubmit(v, i0, i1, i2, b)
    ensures Good(Submitted(v, i0, i1, i2, b, blockno, write))
  {
    var w := Submitted(v, i0, i1, i2, b, blockno, write);
    SubmittedDescs(v, i0, i1, i2, b, blockno, write);
    forall h | h in w.reqs ensures ReqOk(w, h) { SubmittedReqs(v, i0, i1, i2, b, blockno, write, h); }
    SubmittedRings(v, i0, i1, i2, b, blockno, write);
    forall h, k ensures Buffers(w, h, k) { assert Buffers(v, h, k); }
  }

  // ---------------------------------------------------------------- the device

  /** The device takes the next head from the avail ring. */
  function TakenHead(v: Vq): Vq
    requires v.avail != [] && v.avail[0] in v.reqs
  {
    v.(seen := Inc(v.seen), reqs := WithPhase(v.reqs, v.avail[0], Taken), avail := v.avail[1..])
  }

  /** What the device finds there is the head of a formatted chain in flight. */
  lemma DeviceSeesRequest(v: Vq)
    requires Good(v) && v.seen != v.availIdx
    ensures v.avail != [] && v.ring[v.seen % NUM] == v.avail[0] && v.avail[0] in v.reqs
    ensures v.reqs[v.avail[0]].phase == Queued && Formatted(v, v.avail[0], v.reqs[v.avail[0]])
  {
    RingFirst(v.ring, v.seen, v.avail);
    assert v.avail[0] in v.avail;
    assert ReqOk(v, v.avail[0]);
  }

  lemma TakenParts(v: Vq)
    requires Good(v) && v.avail != [] && v.avail[0] in v.reqs
    ensures Parts(TakenHead(v))
  {
    var w := TakenHead(v);
    forall d | 0 <= d < NUM ensures DescOk(w, d) { assert DescOk(v, d); }
    forall k | k in w.reqs ensures ReqOk(w, k) { assert ReqOk(v, k); }
    forall a, b ensures Buffers(w, a, b) { assert Buffers(v, a, b); }
  }

  lemma TakenGood(v: Vq)
    requires Good(v) && v.avail != [] && v.avail[0] in v.reqs
    ensures Good(TakenHead(v))
  {
    TakenParts(v);
    RingPop(v.ring, v.seen, v.avail);
    assert v.avail[0] in v.avail;
    ListsPop(v.reqs, v.avail, Queued, Taken);
    ListsOther(v.reqs, v.used, Used, v.avail[0], Taken);
    PlusNext(v.seen, |v.avail| - 1);
  }

  /** The device finishes a request it has taken, in any order, with status 0. */
  function Completed(v: Vq, h: nat): Vq
    requires Shape(v) && h in v.reqs && h < NUM
  {
    v.(status := v.status[h := 0], uring := v.uring[v.devIdx % NUM := h], devIdx := Inc(v.devIdx),
       reqs := WithPhase(v.reqs, h, Used), used := v.used + [h])
  }

  lemma CompletedGood(v: Vq, h: nat)
    requires Good(v) && h in v.reqs && v.reqs[h].phase == Taken && h < NUM
    ensures Good(Completed(v, h))
  {
    var w := Completed(v, h);
    forall d | 0 <= d < NUM ensures DescOk(w, d) { assert DescOk(v, d); }
    forall k | k in w.reqs ensures ReqOk(w, k) { assert ReqOk(v, k); }
    forall a, b ensures Buffers(w, a, b) { assert Buffers(v, a, b); }
    RoomFor(v, v.used, Used, h);
    PlusNext(v.usedIdx, |v.used|);
    RingPush(v.uring, v.usedIdx, v.used, h);
    ListsPush(v.reqs, v.used, Used, h);
    ListsOther(v.reqs, v.avail, Queued, h, Used);
  }

  // ---------------------------------------------------------------- virtio_disk_intr

  /** One turn of the interrupt loop. */
  function Acknowledged(v: Vq): Vq
    requires v.used != [] && v.used[0] in v.reqs
  {
    v.(usedIdx := Inc(v.usedIdx), busy := v.busy - {v.reqs[v.used[0]].b},
       reqs := WithPhase(v.reqs, v.used[0], Done), used := v.used[1..])
  }

  /** Whenever the interrupt handler sees an unread entry, that entry names a request in
      flight whose buffer is recorded and whose status is 0. */
  lemma UsedEntryIsLive(v: Vq)
    requires Good(v) && v.usedIdx != v.devIdx
    ensures var id := v.uring[v.usedIdx % NUM];
            && v.used != [] && id == v.used[0] && id < NUM && id in v.reqs && v.reqs[id].phase == Used
            && v.status[id] == 0 && v.info[id] == Some(v.reqs[id].b)
  {
    RingFirst(v.uring, v.usedIdx, v.used);
    assert v.used[0] in v.used;
    assert ReqOk(v, v.used[0]);
  }

  lemma AcknowledgedParts(v: Vq)
    requires Good(v) && v.used != [] && v.used[0] in v.reqs && v.reqs[v.used[0]].phase == Used
    ensures Parts(Acknowledged(v))
  {
    var w, h := Acknowledged(v), v.used[0];
    forall d | 0 <= d < NUM ensures DescOk(w, d) { assert DescOk(v, d); }
    forall k | k in w.reqs ensures ReqOk(w, k) { assert ReqOk(v, k) && Buffers(v, h, k); }
    forall a, b ensures Buffers(w, a, b) { assert Buffers(v, a, b); }
  }

  lemma AcknowledgedGood(v: Vq)
    requires Good(v) && v.used != [] && v.used[0] in v.reqs
    ensures Good(Acknowledged(v))
  {
    assert v.used[0] in v.used;
    AcknowledgedParts(v);
    RingPop(v.uring, v.usedIdx, v.used);
    ListsPop(v.reqs, v.used, Used, Done);
    ListsOther(v.reqs, v.avail, Queued, v.used[0], Done);
    PlusNext(v.usedIdx, |v.used| - 1);
  }

  // ---------------------------------------------------------------- virtio_disk_rw: retire

  /** The requester has seen b->disk == 0 and gives the chain back. */
  function Retired(v: Vq, h: nat): Vq
    requires Shape(v) && h in v.reqs && h < NUM && v.reqs[h].i1 < NUM && v.reqs[h].i2 < NUM
  {
    var r := v.reqs[h];
    v.(free := v.free[h := true][r.i1 := true][r.i2 := true], desc := v.desc[h := ZERO][r.i1 := ZERO][r.i2 := ZERO],
       info := v.info[h := None], reqs := v.reqs - {h}, own := v.own - {h, r.i1, r.i2})
  }

  lemma RetiredGood(v: Vq, h: nat)
    requires Good(v) && h in v.reqs && v.reqs[h].b !in v.busy
    requires h < NUM && v.reqs[h].i1 < NUM && v.reqs[h].i2 < NUM
    ensures Good(Retired(v, h))
  {
    var w := Retired(v, h);
    assert ReqOk(v, h);
    forall d | 0 <= d < NUM ensures DescOk(w, d) {
      assert DescOk(v, d);
      if d in w.own { assert ReqOk(v, v.own[d]); }
    }
    forall k | k in w.reqs ensures ReqOk(w, k) { assert ReqOk(v, k); }
    forall a, b ensures Buffers(w, a, b) { assert Buffers(v, a, b); }
  }

  lemma RetiredFree(v: Vq, h: nat)
    requires Good(v) && h in v.reqs && h < NUM && v.reqs[h].i1 < NUM && v.reqs[h].i2 < NUM
    ensures !v.free[h] && !v.free[v.reqs[h].i1] && !v.free[v.reqs[h].i2]
    ensures FreeSet(Retired(v, h)) == FreeSet(v) + {h, v.reqs[h].i1, v.reqs[h].i2}
  {
    ReqIs(v, h);
    assert DescOk(v, h) && DescOk(v, v.reqs[h].i1) && DescOk(v, v.reqs[h].i2);
  }

  // ---------------------------------------------------------------- what holds in every state

  /** The chains of two requests share no descriptor. */
  lemma ChainsDisjoint(v: Vq, h: nat, k: nat)
    requires Good(v) && h in v.reqs && k in v.reqs && h != k
    ensures {h, v.reqs[h].i1, v.reqs[h].i2} !! {k, v.reqs[k].i1, v.reqs[k].i2}
  {
    assert ReqOk(v, h) && ReqOk(v, k);
  }

  ghost function Owned(v: Vq, hs: set<nat>): set<nat> { set d | d in v.own && v.own[d] in hs }

  lemma {:induction false} ThreeEach(v: Vq, hs: set<nat>)
    requires Good(v) && hs <= v.reqs.Keys
    ensures |Owned(v, hs)| == 3 * |hs|
  {
    if hs == {} {
      assert Owned(v, hs) == {};
    } else {
      var h :| h in hs;
      var r, rest := v.reqs[h], hs - {h};
      ThreeEach(v, rest);
      assert ReqOk(v, h);
      forall d | d in v.own && v.own[d] == h ensures d in {h, r.i1, r.i2} { assert DescOk(v, d); }
      assert Owned(v, hs) == Owned(v, rest) + {h, r.i1, r.i2};
    }
  }

  function FreeSet(v: Vq): set<nat>
    requires |v.free| == NUM
  {
    set d: nat | d < NUM && v.free[d]
  }

  lemma Partition(f: set<nat>, s: set<nat>)
    requires f !! s && forall d: nat :: d in f || d in s <==> d < NUM
    ensures |f| + |s| == NUM
  {
    var all: set<nat> := {0, 1, 2, 3, 4, 5, 6, 7};
    assert f + s == all;
    assert |all| == 8;
  }

  /** Free and owned descriptors add up to NUM, three to a request. */
  lemma Conserved(v: Vq)
    requires Good(v)
    ensures |FreeSet(v)| + 3 * |v.reqs| == NUM
  {
    ThreeEach(v, v.reqs.Keys);
    forall d: nat | d < NUM ensures (d in v.own <==> !v.free[d]) && (d in v.own ==> v.own[d] in v.reqs) { assert DescOk(v, d); }
    assert Owned(v, v.reqs.Keys) == v.own.Keys;
    Partition(FreeSet(v), v.own.Keys);
    assert |v.reqs.Keys| == |v.reqs|;
  }

  /** virtio_disk_init leaves every descriptor free and both rings empty. */
  lemma InitGood(v: Vq)
    requires Shape(v) && v.reqs == map[] && v.own == map[] && v.avail == [] && v.used == []
    requires v.availIdx == v.seen == v.usedIdx == v.devIdx == 0
    requires forall d :: 0 <= d < NUM ==> v.free[d] && v.desc[d] == ZERO
    ensures Good(v)
  {
    forall d | 0 <= d < NUM ensures DescOk(v, d) { }
  }

  // ---------------------------------------------------------------- what the device transfers

  const BSIZE := 1024
  const LIMIT := 0x8000_0000   // 2^31 blocks of two sectors are all that 32 bits can address

  type Byte = x: int | 0 <= x < 256

  /** The disk's bytes and the buffers in memory. */
  datatype Media = Media(platter: seq<Byte>, data: map<nat, seq<Byte>>)

  /** Two sectors are exactly the block's bytes, as long as 32 bits suffice. */
  lemma SectorIs(blockno: nat)
    ensures 512 * Sector(blockno) == BSIZE * blockno <==> blockno < LIMIT
  {
  }

  /** Different blocks do not overlap; block 2^31 and block 0 do. */
  lemma SectorsApart(a: nat, b: nat)
    ensures a < b < LIMIT ==> Sector(a) + 2 <= Sector(b)
    ensures Sector(LIMIT) == Sector(0)
  {
    SectorIs(a);
    SectorIs(b);
  }

  /** Block n of the disk. */
  function BlockAt(platter: seq<Byte>, n: nat): seq<Byte>
    requires BSIZE * n + BSIZE <= |platter|
  {
    platter[BSIZE * n..BSIZE * n + BSIZE]
  }

  function Splice(s: seq<Byte>, at: nat, d: seq<Byte>): seq<Byte>
    requires at + |d| <= |s|
  {
    s[..at] + d + s[at + |d|..]
  }

  /** What the device does with the chain at h, as its descriptors say: it fetches the command, then
      moves `len` bytes between the sectors and the memory that the second descriptor names. */
  function Serve(desc: seq<Desc>, ops: seq<Cmd>, h: nat, m: Media): Media
    requires |desc| == |ops| == NUM
  {
    if h < NUM && desc[h].addr.Op? && desc[h].addr.i < NUM && desc[h].chained && desc[h].next < NUM then
      var cmd, d := ops[desc[h].addr.i], desc[desc[h].next];
      var at := 512 * cmd.sector;
      if d.addr.Data? && d.addr.b in m.data && at + d.len <= |m.platter| && d.len <= |m.data[d.addr.b]| then
        if cmd.write && !d.write then m.(platter := Splice(m.platter, at, m.data[d.addr.b][..d.len]))
        else if !cmd.write && d.write then m.(data := m.data[d.addr.b := Splice(m.data[d.addr.b], 0, m.platter[at..at + d.len])])
        else m
      else m
    else m
  }

  /** The request's block is on the disk and its buffer holds a block. */
  predicate Fits(r: Req, m: Media) {
    r.b in m.data && |m.data[r.b]| == BSIZE && BSIZE * r.blockno + BSIZE <= |m.platter| <= BSIZE * LIMIT
  }

  /** A write puts the buffer into its block, a read the block into its buffer; nothing else changes. */
  ghost predicate Served(r: Req, m: Media, w: Media) {
    && |w.platter| == |m.platter| && Fits(r, m)
    && (if r.write then
          && w.data == m.data && BlockAt(w.platter, r.blockno) == m.data[r.b]
          && forall n: nat {:trigger BlockAt(w.platter, n)} :: n != r.blockno && BSIZE * n + BSIZE <= |m.platter| ==> BlockAt(w.platter, n) == BlockAt(m.platter, n)
        else w.platter == m.platter && w.data == m.data[r.b := BlockAt(m.platter, r.blockno)])
  }

  lemma SpliceBlock(s: seq<Byte>, n: nat, d: seq<Byte>, k: nat)
    requires |d| == BSIZE && BSIZE * n + BSIZE <= |s| && BSIZE * k + BSIZE <= |s|
    ensures |Splice(s, BSIZE * n, d)| == |s|
    ensures BlockAt(Splice(s, BSIZE * n, d), k) == if k == n then d else BlockAt(s, k)
  {
    var t := Splice(s, BSIZE * n, d);
    if k == n {
      assert BlockAt(t, k) == d;
    } else {
      assert k < n ==> BSIZE * k + BSIZE <= BSIZE * n;
      assert n < k ==> BSIZE * n + BSIZE <= BSIZE * k;
      assert BlockAt(t, k) == BlockAt(s, k);
    }
  }

  lemma ServedIs(v: Vq, h: nat, r: Req, m: Media)
    requires Formatted(v, h, r) && Fits(r, m)
    ensures Served(r, m, Serve(v.desc, v.ops, h, m))
  {
    SectorIs(r.blockno);
    var w := Serve(v.desc, v.ops, h, m);
    var d := m.data[r.b];
    if r.write {
      assert d[..BSIZE] == d && w == m.(platter := Splice(m.platter, BSIZE * r.blockno, d));
      forall n: nat | BSIZE * n + BSIZE <= |m.platter| ensures |w.platter| == |m.platter| && BlockAt(w.platter, n) == if n == r.blockno then d else BlockAt(m.platter, n) {
        SpliceBlock(m.platter, r.blockno, d, n);
      }
      SpliceBlock(m.platter, r.blockno, d, r.blockno);
    } else {
      assert Splice(d, 0, BlockAt(m.platter, r.blockno)) == BlockAt(m.platter, r.blockno);
    }
  }

  // ---------------------------------------------------------------- the driver

  class Disk {
    const free: array<bool>
    const desc: array<Desc>
    const info: array<Option<nat>>
    const status: array<int>
    const ops: array<Cmd>
    const ring: array<nat>
    const uring: array<nat>
    var availIdx: nat
    var seen: nat
    var usedIdx: nat
    var devIdx: nat
    var busy: set<nat>      // buffers with b->disk == 1
    var media: Media
    ghost var reqs: map<nat, Req>
    ghost var own: map<nat, nat>
    ghost var avail: seq<nat>
    ghost var used: seq<nat>

    ghost const Repr: set<object> := {this, free, desc, info, status, ops, ring, uring}

    ghost function View(): Vq
      reads Repr
    {
      Vq(free[..], desc[..], info[..], status[..], ops[..], ring[..], availIdx, seen, uring[..], usedIdx, devIdx, busy,
         reqs, own, avail, used)
    }

    ghost predicate Valid()
      reads Repr
    {
      ring != uring && Good(View())
    }

    constructor (platter: seq<Byte>, data: map<nat, seq<Byte>>)
      ensures Valid() && fresh(Repr) && reqs == map[] && media == Media(platter, data)
    {
      media := Media(platter, data);
      free, desc, info := new bool[NUM](_ => true), new Desc[NUM](_ => ZERO), new Option<nat>[NUM](_ => None);
      status, ops := new int[NUM](_ => 0), new Cmd[NUM](_ => Cmd(false, 0));
      ring, uring := new nat[NUM](_ => 0), new nat[NUM](_ => 0);
      availIdx, seen, usedIdx, devIdx, busy := 0, 0, 0, 0, {};
      reqs, own, avail, used := map[], map[], [], [];
      new;
      InitGood(View());
    }

    /** alloc_desc: the first free descriptor, or -1 when there is none. */
    method AllocDesc() returns (i: int)
      requires free.Length == NUM
      modifies free
      ensures i == -1 ==> free[..] == old(free[..]) && forall d :: 0 <= d < NUM ==> !free[d]
      ensures i != -1 ==> 0 <= i < NUM && old(free[i]) && free[..] == old(free[..])[i := false]
    {
      i := 0;
      while i < NUM
        invariant 0 <= i <= NUM && free[..] == old(free[..])
        invariant forall d :: 0 <= d < i ==> !free[d]
      {
        if free[i] {
          free[i] := false;
          return;
        }
        i := i + 1;
      }
      return -1;
    }

    /** free_desc: its two panics are the two preconditions. */
    method FreeDesc(i: nat)
      requires free.Length == desc.Length == NUM
      requires i < NUM && !free[i]
      modifies free, desc
      ensures free[..] == old(free[..])[i := true] && desc[..] == old(desc[..])[i := ZERO]
    {
      desc[i] := ZERO;
      free[i] := true;
    }

    /** alloc3_desc's rollback. */
    method Undo(idx: seq<nat>, ghost was: seq<bool>)
      requires free.Length == desc.Length == NUM == |was|
      requires forall k :: 0 <= k < |idx| ==> idx[k] < NUM && was[idx[k]] && desc[idx[k]] == ZERO
      requires forall j, k :: 0 <= j < k < |idx| ==> idx[j] != idx[k]
      requires forall d :: 0 <= d < NUM ==> free[d] == (was[d] && d !in idx)
      modifies free, desc
      ensures free[..] == was && desc[..] == old(desc[..])
    {
      var j := 0;
      while j < |idx|
        invariant 0 <= j <= |idx| && desc[..] == old(desc[..])
        invariant forall d :: 0 <= d < NUM ==> free[d] == (was[d] && d !in idx[j..])
      {
        assert idx[j] in idx[j..];
        FreeDesc(idx[j]);
        assert idx[j..] == [idx[j]] + idx[j + 1..];
        j := j + 1;
      }
    }

    /** alloc3_desc: three different descriptors, or nothing at all when at most two are free. */
    method Alloc3Desc() returns (ok: bool, idx: seq<nat>)
      requires free.Length == desc.Length == NUM && forall d :: 0 <= d < NUM && free[d] ==> desc[d] == ZERO
      modifies free, desc
      ensures desc[..] == old(desc[..])
      ensures ok ==> |idx| == 3 && idx[0] < NUM && idx[1] < NUM && idx[2] < NUM
      ensures ok ==> idx[0] != idx[1] && idx[0] != idx[2] && idx[1] != idx[2]
      ensures ok ==> old(free[idx[0]] && free[idx[1]] && free[idx[2]])
      ensures ok ==> free[..] == old(free[..])[idx[0] := false][idx[1] := false][idx[2] := false]
      ensures !ok ==> free[..] == old(free[..]) && |idx| < 3 && forall d :: 0 <= d < NUM && free[d] ==> d in idx
    {
      idx := [];
      var i := 0;
      while i < 3
        invariant 0 <= i <= 3 && |idx| == i && desc[..] == old(desc[..])
        invariant forall k :: 0 <= k < i ==> idx[k] < NUM && old(free[idx[k]])
        invariant forall j, k :: 0 <= j < k < i ==> idx[j] != idx[k]
        invariant forall d :: 0 <= d < NUM ==> free[d] == (old(free[d]) && d !in idx)
      {
        var d := AllocDesc();
        if d < 0 {
          Undo(idx, old(free[..]));
          return false, idx;
        }
        idx := idx + [d];
        i := i + 1;
      }
      return true, idx;
    }

    // free_chain on the chain of request r, descriptor by descriptor.
    method FreeChain(h: nat, ghost r: Req)
      requires free.Length == desc.Length == NUM && h < NUM && r.i1 < NUM && r.i2 < NUM && h != r.i1 && h != r.i2 && r.i1 != r.i2
      requires !free[h] && !free[r.i1] && !free[r.i2]
      requires desc[h].chained && desc[h].next == r.i1 && desc[r.i1].chained && desc[r.i1].next == r.i2 && !desc[r.i2].chained
      modifies free, desc
      ensures free[..] == old(free[..])[h := true][r.i1 := true][r.i2 := true]
      ensures desc[..] == old(desc[..])[h := ZERO][r.i1 := ZERO][r.i2 := ZERO]
    {
      var i := h;
      ghost var left := 3;
      while true
        invariant left == 3 || left == 2 || left == 1
        invariant i == (if left == 3 then h else if left == 2 then r.i1 else r.i2)
        invariant free[..] == old(free[..])[h := left < 3][r.i1 := left < 2]
        invariant desc[..] == old(desc[..])[h := if left < 3 then ZERO else old(desc[h])][r.i1 := if left < 2 then ZERO else old(desc[r.i1])]
        decreases left
      {
        var flag, nxt := desc[i].chained, desc[i].next;
        FreeDesc(i);
        if flag { i := nxt; } else { break; }
        left := left - 1;
      }
    }

    /** virtio_disk_rw up to its wait: the request is published, or, with at most two
        descriptors free, nothing has changed and the caller sleeps. */
    method Submit(b: nat, blockno: nat, write: bool) returns (ok: bool, h: nat)
      requires Valid() && forall k :: k in reqs ==> reqs[k].b != b
      modifies Repr
      ensures Valid()
      ensures ok ==> h in reqs && h !in old(reqs) && reqs == old(reqs)[h := reqs[h]] && avail == old(avail) + [h]
      ensures ok ==> reqs[h].b == b && reqs[h].blockno == blockno && reqs[h].write == write && b in busy
      ensures !ok ==> View() == old(View()) && |FreeSet(View())| < 3
      ensures media == old(media)
    {
      ghost var v := View();
      forall d | 0 <= d < NUM && free[d] ensures desc[d] == ZERO { assert DescOk(v, d); }
      var idx;
      ok, idx := Alloc3Desc();
      if !ok {
        AtMost(v, idx);
        return false, 0;
      }
      SubmittedGood(v, idx[0], idx[1], idx[2], b, blockno, write);
      SubmittedHead(v, idx[0], idx[1], idx[2], b);
      h := idx[0];
      Publish(idx[0], idx[1], idx[2], b, blockno, write, v);
    }

    ghost predicate Reserved(v: Vq, i0: nat, i1: nat, i2: nat)
      reads Repr
    {
      Shape(v) && i0 < NUM && i1 < NUM && i2 < NUM && View() == v.(free := v.free[i0 := false][i1 := false][i2 := false])
    }

    method Publish(i0: nat, i1: nat, i2: nat, b: nat, blockno: nat, write: bool, ghost v: Vq)
      requires ring != uring && Reserved(v, i0, i1, i2)
      modifies Repr
      ensures View() == Submitted(v, i0, i1, i2, b, blockno, write) && media == old(media)
    {
      Format(i0, i1, i2, b, blockno, write);
      ghost var w := Submitted(v, i0, i1, i2, b, blockno, write);
      reqs, own, avail := w.reqs, w.own, w.avail;
    }

    /** The descriptors, the command, the avail ring and its index, in the code's order. */
    method Format(i0: nat, i1: nat, i2: nat, b: nat, blockno: nat, write: bool)
      requires ring != uring && Shape(View()) && i0 < NUM && i1 < NUM && i2 < NUM
      modifies desc, info, status, ops, ring, this`availIdx, this`busy
      ensures desc[..] == old(desc[..])[i0 := Desc(Op(i0), 16, true, false, i1)]
                [i1 := Desc(Data(b), 1024, true, !write, i2)][i2 := Desc(Status(i0), 1, false, true, 0)]
      ensures info[..] == old(info[..])[i0 := Some(b)] && status[..] == old(status[..])[i0 := 0xff]
      ensures ops[..] == old(ops[..])[i0 := Cmd(write, Sector(blockno))]
      ensures ring[..] == old(ring[..])[old(availIdx) % NUM := i0] && availIdx == Inc(old(availIdx)) && busy == old(busy) + {b}
    {
      ops[i0] := Cmd(write, Sector(blockno));
      desc[i0] := Desc(Op(i0), 16, true, false, i1);
      desc[i1] := Desc(Data(b), 1024, true, !write, i2);
      status[i0] := 0xff;
      desc[i2] := Desc(Status(i0), 1, false, true, 0);
      busy := busy + {b};
      info[i0] := Some(b);
      ring[availIdx % NUM] := i0;
      availIdx := (availIdx + 1) % IDX;
    }

    /** The device reads the next avail entry, if there is one. */
    method DeviceTake() returns (h: nat)
      requires Valid() && seen != availIdx
      modifies Repr
      ensures Valid() && h in old(reqs) && reqs == WithPhase(old(reqs), h, Taken) && old(reqs[h].phase) == Queued
      ensures Formatted(View(), h, reqs[h]) && media == old(media)
      ensures reqs[h].blockno < LIMIT ==> 512 * ops[h].sector == BSIZE * reqs[h].blockno
    {
      ghost var v := View();
      DeviceSeesRequest(v);
      SectorIs(reqs[v.avail[0]].blockno);
      TakenGood(v);
      h := ring[seen % NUM];
      seen := (seen + 1) % IDX;
      reqs, avail := TakenHead(v).reqs, TakenHead(v).avail;
    }

    /** The data of the chain at h, between disk and memory. */
    method MoveData(h: nat)
      requires Valid() && h in reqs
      modifies this`media
      ensures Fits(reqs[h], old(media)) ==> Served(reqs[h], old(media), media)
    {
      ghost var v := View();
      ReqIs(v, h);
      if Fits(reqs[h], media) { ServedIs(v, h, reqs[h], media); }
      media := Serve(desc[..], ops[..], h, media);
    }

    /** The status through the chain's third descriptor, then the used ring. */
    method PostUsed(h: nat)
      requires Valid() && h in reqs && reqs[h].phase == Taken
      modifies status, uring, this`devIdx, this`reqs, this`used
      ensures Valid() && reqs == WithPhase(old(reqs), h, Used)
    {
      ghost var v := View();
      ReqIs(v, h);
      CompletedGood(v, h);
      var third := desc[desc[h].next].next;
      status[desc[third].addr.i] := 0;
      uring[devIdx % NUM] := h;
      devIdx := (devIdx + 1) % IDX;
      reqs, used := Completed(v, h).reqs, Completed(v, h).used;
      assert View() == Completed(v, h);
    }

    /** The device serves request h: it moves the data as the chain says and reports it. */
    method DeviceComplete(h: nat)
      requires Valid() && h in reqs && reqs[h].phase == Taken
      modifies Repr
      ensures Valid() && reqs == WithPhase(old(reqs), h, Used)
      ensures Fits(old(reqs[h]), old(media)) ==> Served(old(reqs[h]), old(media), media)
    {
      ghost var v := View();
      MoveData(h);
      assert View() == v;
      PostUsed(h);
    }

    /** One turn of virtio_disk_intr's loop; the device may add entries between turns. */
    method IntrTurn()
      requires Valid() && usedIdx != devIdx
      modifies Repr
      ensures Valid() && old(used) != [] && old(used[0]) in old(reqs) && View() == Acknowledged(old(View())) && media == old(media)
    {
      ghost var v := View();
      UsedEntryIsLive(v);
      AcknowledgedGood(v);
      var id := uring[usedIdx % NUM];
      assert status[id] == 0;   // "virtio_disk_intr status" is not reached
      busy := busy - {info[id].value};
      usedIdx := (usedIdx + 1) % IDX;
      reqs, used := Acknowledged(v).reqs, Acknowledged(v).used;
      assert View() == Acknowledged(v);
    }

    /** virtio_disk_intr with no device action in between: every finished request is acknowledged. */
    method Intr()
      requires Valid()
      modifies Repr
      ensures Valid() && usedIdx == devIdx && reqs.Keys == old(reqs.Keys) && media == old(media)
      ensures forall h :: h in reqs ==> reqs[h] == if old(reqs[h].phase) == Used then old(reqs[h]).(phase := Done) else old(reqs[h])
    {
      while usedIdx != devIdx
        invariant Valid() && reqs.Keys == old(reqs.Keys) && media == old(media)
        invariant forall h :: h in reqs ==> reqs[h] == old(reqs[h]) || (old(reqs[h].phase) == Used && reqs[h] == old(reqs[h]).(phase := Done))
        decreases |used|
      {
        assert Lists(reqs, used, Used);
        IntrTurn();
      }
      AllRead(View());
    }

    /** virtio_disk_rw after its wait: the chain goes back whole. */
    method Retire(h: nat)
      requires Valid() && h in reqs && reqs[h].b !in busy
      modifies Repr
      ensures Valid() && reqs == old(reqs) - {h} && old(reqs[h].phase) == Done
      ensures FreeSet(View()) == old(FreeSet(View())) + {h, old(reqs[h].i1), old(reqs[h].i2)} && media == old(media)
    {
      ghost var v := View();
      ReqIs(v, h);
      RetiredGood(v, h);
      ghost var r := reqs[h];
      RetiredFree(v, h);
      info[h] := None;
      FreeChain(h, r);
      reqs, own := Retired(v, h).reqs, Retired(v, h).own;
      assert View() == Retired(v, h);
    }

    /** virtio_disk_rw from call to return, the disk otherwise idle: the driver, the device and the
        interrupt together move exactly one block. */
    method Transfer(b: nat, blockno: nat, write: bool)
      requires Valid() && reqs == map[] && Fits(Req(0, 0, b, blockno, write, Queued), media)
      modifies Repr
      ensures Valid() && reqs == map[] && Served(Req(0, 0, b, blockno, write, Queued), old(media), media)
    {
      Conserved(View());
      var ok, h := Submit(b, blockno, write);
      assert ok && reqs.Keys == {h};
      QueueShows(View());
      var k := DeviceTake();
      assert k == h;
      DeviceComplete(h);
      Intr();
      ReqIs(View(), h);
      Retire(h);
    }
  }

  lemma AtMost(v: Vq, idx: seq<nat>)
    requires |v.free| == NUM && |idx| < 3 && forall d :: 0 <= d < NUM && v.free[d] ==> d in idx
    ensures |FreeSet(v)| < 3
  {
    Sets.SubsetSize(FreeSet(v), Sets.Elements(idx));
  }

  /** A queued request shows in the index. */
  lemma QueueShows(v: Vq)
    requires Good(v) && v.avail != []
    ensures v.seen != v.availIdx
  {
    forall k | 0 <= k < |v.avail| ensures v.avail[k] < NUM { assert v.avail[k] in v.avail; assert ReqOk(v, v.avail[k]); }
    Pigeonhole(v.avail, NUM);
  }

  /** Equal indices mean an empty ring: NUM entries are too few to wrap a 16-bit index. */
  lemma AllRead(v: Vq)
    requires Good(v) && v.usedIdx == v.devIdx
    ensures v.used == []
  {
    forall k | 0 <= k < |v.used| ensures v.used[k] < NUM { assert v.used[k] in v.used; assert ReqOk(v, v.used[k]); }
    Pigeonhole(v.used, NUM);
  }
}
