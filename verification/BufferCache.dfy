/** The buffer cache (bio.c): a fixed set of buffers on an in-place doubly linked ring, most
    recently released first.  The cache is described by a value, Bcache, on which every
    operation is a function; the class Cache does the same in place.  Each of its smallest
    methods is one critical section, so any interleaving of processes is a sequence of them. */
module BufferCache {
  import Journal

  type Block = Journal.Block
  type Handle = Journal.Handle
  type Option<T> = Journal.Option<T>

  const ZERO: Block := seq(Journal.BWORDS, i => 0)

  // ---------------------------------------------------------------- the ring

  /** Node k of the ring headed by h: the head, the buffers in order, the head again. */
  function Node(h: nat, order: seq<nat>, k: nat): (b: nat)
    requires k <= |order| + 1
  {
    if k == 0 || k == |order| + 1 then h else order[k - 1]
  }

  /** next and prev are mutual inverses along one ring holding exactly h and `order`. */
  ghost predicate Ring(h: nat, next: seq<nat>, prev: seq<nat>, order: seq<nat>) {
    && |next| == |prev| && h < |next|
    && (forall k :: 0 <= k < |order| ==> order[k] < |next| && order[k] != h)
    && (forall j, k :: 0 <= j < k < |order| ==> order[j] != order[k])
    && (forall k: nat :: k <= |order| ==> Linked(h, next, prev, order, k))
  }

  ghost predicate Linked(h: nat, next: seq<nat>, prev: seq<nat>, order: seq<nat>, k: nat)
    requires k <= |order| && |next| == |prev| && h < |next|
    requires forall k :: 0 <= k < |order| ==> order[k] < |next|
  {
    && next[Node(h, order, k)] == Node(h, order, k + 1)
    && prev[Node(h, order, k + 1)] == Node(h, order, k)
  }

  function Without(order: seq<nat>, p: nat): (r: seq<nat>)
    requires p < |order|
  {
    order[..p] + order[p + 1..]
  }

  /** Joining the two neighbours of a buffer leaves a ring of the other buffers, in their order. */
  lemma Unlink(h: nat, next: seq<nat>, prev: seq<nat>, order: seq<nat>, p: nat)
    requires Ring(h, next, prev, order) && p < |order|
    ensures next[order[p]] == Node(h, order, p + 2) && prev[order[p]] == Node(h, order, p)
    ensures Ring(h, next[prev[order[p]] := next[order[p]]], prev[next[order[p]] := prev[order[p]]],
                 Without(order, p))
  {
    var b := order[p];
    assert Linked(h, next, prev, order, p) && Linked(h, next, prev, order, p + 1);
    var w := Without(order, p);
    var n', p' := next[prev[b] := next[b]], prev[next[b] := prev[b]];
    forall k: nat | k <= |w| ensures Linked(h, n', p', w, k) {
      if k < p {
        assert Linked(h, next, prev, order, k);
        assert Node(h, w, k) == Node(h, order, k) && Node(h, w, k + 1) == Node(h, order, k + 1);
      } else if k == p {
        assert Node(h, w, k) == Node(h, order, p) && Node(h, w, k + 1) == Node(h, order, p + 2);
      } else {
        assert Linked(h, next, prev, order, k + 1);
        assert Node(h, w, k) == Node(h, order, k + 1) && Node(h, w, k + 1) == Node(h, order, k + 2);
      }
    }
  }

  ghost function PushedNext(next: seq<nat>, h: nat, b: nat): seq<nat>
    requires h < |next| && b < |next|
  {
    var n1: seq<nat> := next[b := next[h]];
    n1[h := b]
  }

  ghost function PushedPrev(next: seq<nat>, prev: seq<nat>, h: nat, b: nat): seq<nat>
    requires h < |next| == |prev| && b < |next| && next[h] < |next|
  {
    var p1: seq<nat> := prev[b := h];
    p1[next[h] := b]
  }

  /** Hooking a buffer in behind the head leaves a ring with it in front and the rest as it was. */
  lemma PushFront(h: nat, next: seq<nat>, prev: seq<nat>, order: seq<nat>, b: nat)
    requires Ring(h, next, prev, order) && b < |next| && b != h && b !in order
    ensures next[h] < |next|
    ensures Ring(h, PushedNext(next, h, b), PushedPrev(next, prev, h, b), [b] + order)
  {
    assert Linked(h, next, prev, order, 0);
    var w := [b] + order;
    var n', p' := PushedNext(next, h, b), PushedPrev(next, prev, h, b);
    forall k: nat | k <= |w| ensures Linked(h, n', p', w, k) {
      if k >= 1 {
        assert Node(h, w, k + 1) == Node(h, order, k);
        if k >= 2 {
          assert Node(h, w, k) == Node(h, order, k - 1);
          assert Linked(h, next, prev, order, k - 1);
        }
      }
    }
  }

  // ---------------------------------------------------------------- the cache as a value

  /** One struct buf without its links; `lock` is the holder of its sleep lock. */
  datatype Buf = Buf(dev: nat, blockno: nat, valid: bool, data: Block, refcnt: nat, lock: Option<Handle>)

  /** `order` is the ring from head.next to head.prev, `fell` the time at which each buffer's
      count last fell to zero. */
  datatype Bcache = Bcache(buf: seq<Buf>, order: seq<nat>, fell: seq<nat>, now: nat)

  predicate Holds(c: Bcache, b: nat, d: nat, n: nat) {
    b < |c.buf| && c.buf[b].dev == d && c.buf[b].blockno == n
  }

  ghost predicate Cached(c: Bcache, d: nat, n: nat) {
    exists b: nat :: Holds(c, b, d, n)
  }

  predicate Unused(c: Bcache, b: nat) { b < |c.buf| && c.buf[b].refcnt == 0 }

  /** The ring holds every buffer exactly once. */
  ghost predicate Covers(c: Bcache) {
    && |c.order| == |c.buf| == |c.fell|
    && (forall k :: 0 <= k < |c.order| ==> c.order[k] < |c.buf|)
    && (forall j, k :: 0 <= j < k < |c.order| ==> c.order[j] != c.order[k])
    && (forall b: nat :: b < |c.buf| ==> b in c.order)
  }

  /** Only the key (0, 0) that every buffer starts with can be shared. */
  ghost predicate Keys(c: Bcache) {
    forall a: nat, b: nat, d: nat, n: nat :: Holds(c, a, d, n) && Holds(c, b, d, n) && (d != 0 || n != 0) ==> a == b
  }

  ghost predicate Recent(c: Bcache, a: nat, b: nat)
    requires a < |c.fell| && b < |c.fell|
  {
    Unused(c, a) && Unused(c, b) ==> c.fell[a] > c.fell[b]
  }

  /** Unused buffers stand in the ring by how recently they became unused. */
  ghost predicate Lru(c: Bcache)
    requires Covers(c)
  {
    && (forall b :: 0 <= b < |c.fell| ==> c.fell[b] < c.now)
    && forall j, k :: 0 <= j < k < |c.order| ==> Recent(c, c.order[j], c.order[k])
  }

  ghost predicate Good(c: Bcache) { Covers(c) && Keys(c) && Lru(c) }

  function Fresh(n: nat): (c: Bcache) {
    Bcache(seq(n, i => Buf(0, 0, false, ZERO, 0, Journal.None)), seq(n, i requires 0 <= i < n => n - 1 - i), seq(n, i requires 0 <= i => i), n)
  }

  lemma FreshGood(n: nat)
    ensures Good(Fresh(n))
  {
    var c := Fresh(n);
    forall b: nat | b < n ensures b in c.order { assert c.order[n - 1 - b] == b; }
  }

  function With(c: Bcache, b: nat, x: Buf): (r: Bcache)
    requires b < |c.buf|
  {
    c.(buf := c.buf[b := x])
  }

  function Counted(c: Bcache, b: nat, count: nat): (r: Bcache)
    requires b < |c.buf|
  {
    With(c, b, c.buf[b].(refcnt := count))
  }

  function Referenced(c: Bcache, b: nat): (r: Bcache)
    requires b < |c.buf|
  {
    Counted(c, b, c.buf[b].refcnt + 1)
  }

  function Recycled(c: Bcache, b: nat, d: nat, n: nat): (r: Bcache)
    requires b < |c.buf|
  {
    With(c, b, c.buf[b].(dev := d, blockno := n, valid := false, refcnt := 1))
  }

  function Locked(c: Bcache, b: nat, h: Handle): (r: Bcache)
    requires b < |c.buf|
  {
    With(c, b, c.buf[b].(lock := Journal.Some(h)))
  }

  function Unlocked(c: Bcache, b: nat): (r: Bcache)
    requires b < |c.buf|
  {
    With(c, b, c.buf[b].(lock := Journal.None))
  }

  function Stored(c: Bcache, b: nat, data: Block): (r: Bcache)
    requires b < |c.buf|
  {
    With(c, b, c.buf[b].(valid := true, data := data))
  }

  ghost function Pos(order: seq<nat>, b: nat): (p: nat)
    requires b in order
    ensures p < |order| && order[p] == b
  {
    var p: nat :| p < |order| && order[p] == b; p
  }

  /** b moved to the front, the others in their order. */
  ghost function Front(order: seq<nat>, b: nat): seq<nat>
    requires b in order
  {
    [b] + Without(order, Pos(order, b))
  }

  function Stamped(c: Bcache, b: nat): (r: Bcache)
    requires b < |c.fell|
  {
    c.(fell := c.fell[b := c.now], now := c.now + 1)
  }

  /** brelse under bcache.lock: the last reference moves the buffer to the front. */
  ghost function Released(c: Bcache, b: nat): (r: Bcache)
    requires Covers(c) && b < |c.buf| && c.buf[b].refcnt > 0
  {
    var r := Counted(c, b, c.buf[b].refcnt - 1);
    if c.buf[b].refcnt > 1 then r else Stamped(r, b).(order := Front(c.order, b))
  }

  /** bunpin: the count goes down and the buffer stays where it is, even at zero. */
  function Unpinned(c: Bcache, b: nat): (r: Bcache)
    requires b < |c.buf| == |c.fell| && c.buf[b].refcnt > 0
  {
    var r := Counted(c, b, c.buf[b].refcnt - 1);
    if c.buf[b].refcnt > 1 then r else Stamped(r, b)
  }

  /** The last unused buffer among the first k of the ring, |buf| if there is none. */
  function LastUnused(c: Bcache, k: nat): (b: nat)
    requires k <= |c.order|
  {
    if k == 0 then |c.buf|
    else if Unused(c, c.order[k - 1]) then c.order[k - 1]
    else LastUnused(c, k - 1)
  }

  function Victim(c: Bcache): (b: nat) { LastUnused(c, |c.order|) }

  lemma {:induction false} LastUnusedIs(c: Bcache, k: nat)
    requires Covers(c) && k <= |c.order|
    ensures var b := LastUnused(c, k);
            if b == |c.buf| then forall j :: 0 <= j < k ==> !Unused(c, c.order[j])
            else exists p: nat :: p < k && b == c.order[p] && Unused(c, b) && forall j :: p < j < k ==> !Unused(c, c.order[j])
  {
    if k > 0 && !Unused(c, c.order[k - 1]) { LastUnusedIs(c, k - 1); }
  }

  /** bget recycles the unused buffer whose count fell to zero longest ago, and finds none
      exactly when all are in use. */
  lemma VictimIsOldest(c: Bcache)
    requires Good(c)
    ensures Victim(c) <= |c.buf|
    ensures Victim(c) == |c.buf| <==> forall b: nat :: b < |c.buf| ==> !Unused(c, b)
    ensures Victim(c) < |c.buf| ==> Unused(c, Victim(c))
    ensures Victim(c) < |c.buf| ==> forall b: nat :: Unused(c, b) && b != Victim(c) ==> c.fell[Victim(c)] < c.fell[b]
  {
    LastUnusedIs(c, |c.order|);
    forall b: nat | Unused(c, b) && b != Victim(c) ensures Victim(c) < |c.buf| && c.fell[Victim(c)] < c.fell[b] {
      assert b in c.order;
      var j := Pos(c.order, b);
      var p: nat :| p < |c.order| && Victim(c) == c.order[p] && forall k :: p < k < |c.order| ==> !Unused(c, c.order[k]);
      assert Recent(c, c.order[j], c.order[p]);
    }
  }

  /** Changing one buffer keeps everything if it does not become unused by that and takes no
      key that another buffer has. */
  lemma WithGood(c: Bcache, b: nat, x: Buf)
    requires Good(c) && b < |c.buf|
    requires x.refcnt == 0 ==> Unused(c, b)
    requires Holds(c, b, x.dev, x.blockno) || !Cached(c, x.dev, x.blockno)
    ensures Good(With(c, b, x))
  {
    var r := With(c, b, x);
    forall a: nat, e: nat, d: nat, n: nat | Holds(r, a, d, n) && Holds(r, e, d, n) && (d != 0 || n != 0) ensures a == e {
      assert Holds(c, a, d, n) || a == b;
      assert Holds(c, e, d, n) || e == b;
    }
    forall j, k | 0 <= j < k < |r.order| ensures Recent(r, r.order[j], r.order[k]) {
      assert Recent(c, c.order[j], c.order[k]);
    }
  }

  lemma FrontAt(order: seq<nat>, b: nat, k: nat)
    requires b in order && (forall i, j :: 0 <= i < j < |order| ==> order[i] != order[j]) && 0 < k < |order|
    ensures var j := if k <= Pos(order, b) then k - 1 else k; Front(order, b)[k] == order[j] && j != Pos(order, b)
  {
  }

  lemma FrontAll(order: seq<nat>, b: nat, a: nat)
    requires b in order && a in order
    ensures a in Front(order, b)
  {
    var p, j := Pos(order, b), Pos(order, a);
    assert j < p ==> Front(order, b)[j + 1] == a;
    assert j > p ==> Front(order, b)[j] == a;
  }

  /** Positions j < k of the ring after b has been moved to the front and stamped. */
  lemma FrontRecent(c: Bcache, b: nat, j: nat, k: nat)
    requires Good(c) && b < |c.buf| && c.buf[b].refcnt == 1 && j < k < |c.order|
    ensures var r := Released(c, b);
            r.order[j] < |r.fell| && r.order[k] < |r.fell| && r.order[j] != r.order[k] && Recent(r, r.order[j], r.order[k])
  {
    assert b in c.order;
    FrontAt(c.order, b, k);
    if j > 0 {
      FrontAt(c.order, b, j);
      var p := Pos(c.order, b);
      assert Recent(c, c.order[if j <= p then j - 1 else j], c.order[if k <= p then k - 1 else k]);
    }
  }

  lemma ReleasedGood(c: Bcache, b: nat)
    requires Good(c) && b < |c.buf| && c.buf[b].refcnt > 0
    ensures Good(Released(c, b))
  {
    var r := Released(c, b);
    if c.buf[b].refcnt > 1 {
      assert Holds(c, b, r.buf[b].dev, r.buf[b].blockno);
      WithGood(c, b, r.buf[b]);
    } else {
      assert b in c.order;
      forall a: nat, d: nat, n: nat ensures Holds(r, a, d, n) <==> Holds(c, a, d, n) {}
      forall a: nat | a < |c.buf| ensures a in r.order { FrontAll(c.order, b, a); }
      forall j, k | 0 <= j < k < |r.order| ensures r.order[j] < |r.fell| && r.order[k] < |r.fell| && r.order[j] != r.order[k] && Recent(r, r.order[j], r.order[k]) {
        FrontRecent(c, b, j, k);
      }
    }
  }

  /** No unused buffer stands ahead of b in the ring. */
  ghost predicate FirstUnused(c: Bcache, b: nat)
    requires b in c.order
  {
    forall j: nat :: j < Pos(c.order, b) ==> !Unused(c, c.order[j])
  }

  /** bunpin keeps the ring's order meaningful if and only if a reference is left or no unused
      buffer stands ahead. */
  lemma UnpinnedExact(c: Bcache, b: nat)
    requires Good(c) && b < |c.buf| && c.buf[b].refcnt > 0
    ensures b in c.order && Covers(Unpinned(c, b)) && Keys(Unpinned(c, b))
    ensures Lru(Unpinned(c, b)) <==> c.buf[b].refcnt > 1 || FirstUnused(c, b)
  {
    var r := Unpinned(c, b);
    assert b in c.order;
    var p := Pos(c.order, b);
    forall a: nat, d: nat, n: nat ensures Holds(r, a, d, n) <==> Holds(c, a, d, n) {}
    if c.buf[b].refcnt > 1 {
      WithGood(c, b, r.buf[b]);
    } else if FirstUnused(c, b) {
      forall j, k | 0 <= j < k < |r.order| ensures Recent(r, r.order[j], r.order[k]) {
        assert Recent(c, c.order[j], c.order[k]);
      }
    } else {
      var j: nat :| j < p && Unused(c, c.order[j]);
      assert c.order[j] != c.order[p];
      assert !Recent(r, r.order[j], r.order[p]);
    }
  }

  /** The family is not empty: with buffer 0 unused and in front, letting go of the only pin of
      buffer 1 makes it the most recently unused one at the least recently used end. */
  lemma UnpinBreaksOrder()
    ensures exists c: Bcache, b: nat :: Good(c) && b < |c.buf| && c.buf[b].refcnt == 1 && Covers(Unpinned(c, b)) && !Lru(Unpinned(c, b))
  {
    var idle := Buf(1, 7, true, ZERO, 0, Journal.None);
    var c := Bcache([idle, idle.(blockno := 8, refcnt := 1)], [0, 1], [5, 2], 6);
    assert c.order[0] == 0 && c.order[1] == 1;
    var r := Unpinned(c, 1);
    assert !Recent(r, r.order[0], r.order[1]);
  }

  // ---------------------------------------------------------------- bio.c in place

  /** What a reader of block n is to see: the cached contents, or those on disk. */
  ghost predicate Shows(c: Bcache, disk: Journal.Disk, d: nat, n: nat, data: Block) {
    if exists b: nat :: Holds(c, b, d, n) && c.buf[b].valid
    then exists b: nat :: Holds(c, b, d, n) && c.buf[b].valid && c.buf[b].data == data
    else n in disk && disk[n] == data
  }

  class Cache {
    const nbuf: nat
    const buf: array<Buf>
    const next: array<nat>           // index nbuf is bcache.head
    const prev: array<nat>
    var disk: Journal.Disk           // what virtio_disk_rw reads and writes, by block number only
    ghost var order: seq<nat>
    ghost var fell: seq<nat>
    ghost var now: nat

    ghost predicate Shape()
      reads this
    {
      buf.Length == nbuf && next.Length == nbuf + 1 && prev.Length == nbuf + 1 && next != prev
    }

    ghost function View(): Bcache
      reads this, buf
    {
      Bcache(buf[..], order, fell, now)
    }

    ghost predicate Ringed()
      reads this, next, prev
      requires Shape()
    {
      Ring(nbuf, next[..], prev[..], order)
    }

    ghost predicate Valid()
      reads this, buf, next, prev
    {
      Shape() && Ringed() && Good(View())
    }

    /** binit */
    constructor (n: nat, device: Journal.Disk)
      ensures Valid() && nbuf == n && fresh(buf) && fresh(next) && fresh(prev)
      ensures View() == Fresh(n) && disk == device
    {
      nbuf := n;
      buf := new Buf[n](i => Buf(0, 0, false, ZERO, 0, Journal.None));
      next := new nat[n + 1](i => n);
      prev := new nat[n + 1](i => n);
      disk := device;
      order, fell, now := [], Fresh(n).fell, n;
      new;
      var b: nat := 0;
      while b < n
        invariant b <= n && Shape() && nbuf == n && now == n && fell == Fresh(n).fell && disk == device
        invariant Ringed() && |order| == b
        invariant forall k :: 0 <= k < b ==> order[k] == b - 1 - k
        invariant buf[..] == Fresh(n).buf
      {
        PushFront(n, next[..], prev[..], order, b);
        ghost var nx, pv := next[..], prev[..];
        next[b] := next[n];
        prev[b] := n;
        prev[next[n]] := b;
        next[n] := b;
        assert next[..] == PushedNext(nx, n, b) && prev[..] == PushedPrev(nx, pv, n, b);
        order := [b] + order;
        b := b + 1;
      }
      assert order == Fresh(n).order;
      FreshGood(n);
    }

    /** bget's first scan, forward from the most recently released; nbuf if not cached. */
    method FindCached(d: nat, n: nat) returns (b: nat)
      requires Valid()
      ensures b <= nbuf && (b < nbuf ==> Holds(View(), b, d, n))
      ensures b < nbuf <==> Cached(View(), d, n)
    {
      ghost var k: nat := 1;
      assert Linked(nbuf, next[..], prev[..], order, 0);
      b := next[nbuf];
      while b != nbuf
        invariant 1 <= k <= nbuf + 1 && b == Node(nbuf, order, k)
        invariant forall j :: 0 <= j < k - 1 ==> !Holds(View(), order[j], d, n)
        decreases nbuf + 1 - k
      {
        if buf[b].dev == d && buf[b].blockno == n {
          assert Holds(View(), b, d, n);
          return;
        }
        assert Linked(nbuf, next[..], prev[..], order, k);
        b := next[b];
        k := k + 1;
      }
      forall c: nat ensures !Holds(View(), c, d, n) { if c < nbuf { assert c in order; } }
    }

    /** bget's second scan, backward from the least recently released; nbuf if all are in use. */
    method FindUnused() returns (b: nat)
      requires Valid()
      ensures b == Victim(View())
    {
      ghost var k: nat := nbuf;
      assert Linked(nbuf, next[..], prev[..], order, nbuf);
      b := prev[nbuf];
      while b != nbuf
        invariant k <= nbuf && b == Node(nbuf, order, k) && Victim(View()) == LastUnused(View(), k)
        decreases k
      {
        if buf[b].refcnt == 0 { return; }
        assert Linked(nbuf, next[..], prev[..], order, k - 1);
        b := prev[b];
        k := k - 1;
      }
    }

    /** bget under bcache.lock.  A cached block gets one more reference; otherwise the unused
        buffer whose count fell to zero longest ago is recycled; with none unused the source
        panics and found is false. */
    method Lookup(d: nat, n: nat) returns (found: bool, b: nat)
      requires Valid()
      modifies buf
      ensures Valid()
      ensures found <==> old(Cached(View(), d, n)) || old(Victim(View())) < nbuf
      ensures found ==> Holds(View(), b, d, n) && View().buf[b].refcnt > 0
      ensures !found ==> View() == old(View())
      ensures old(Cached(View(), d, n)) ==> Holds(old(View()), b, d, n) && View() == Referenced(old(View()), b)
      ensures found && !old(Cached(View(), d, n)) ==>
                b == Victim(old(View())) && View() == Recycled(old(View()), b, d, n)
    {
      ghost var c := View();
      b := FindCached(d, n);
      if b != nbuf {
        WithGood(c, b, c.buf[b].(refcnt := c.buf[b].refcnt + 1));
        buf[b] := buf[b].(refcnt := buf[b].refcnt + 1);
        assert View() == Referenced(c, b);
        return true, b;
      }
      VictimIsOldest(c);
      b := FindUnused();
      if b != nbuf {
        WithGood(c, b, Recycled(c, b, d, n).buf[b]);
        buf[b] := buf[b].(dev := d, blockno := n, valid := false, refcnt := 1);
        assert View() == Recycled(c, b, d, n);
        return true, b;
      }
      found := false;
    }

    /** The body of acquiresleep's loop: takes the lock unless another process has it. */
    method AcquireSleep(b: nat, h: Handle) returns (got: bool)
      requires Valid() && b < nbuf
      modifies buf
      ensures Valid() && (got <==> old(buf[b].lock.None?))
      ensures View() == if got then Locked(old(View()), b, h) else old(View())
    {
      ghost var c := View();
      got := buf[b].lock.None?;
      if got {
        WithGood(c, b, Locked(c, b, h).buf[b]);
        buf[b] := buf[b].(lock := Journal.Some(h));
        assert View() == Locked(c, b, h);
      }
    }

    /** bread's read from disk: after it the buffer's holder has valid contents. */
    method Fill(b: nat, h: Handle)
      requires Valid() && b < nbuf && buf[b].lock == Journal.Some(h) && buf[b].blockno in disk
      modifies buf
      ensures Valid() && buf[b].valid
      ensures View() == if old(buf[b].valid) then old(View()) else Stored(old(View()), b, disk[old(buf[b].blockno)])
    {
      ghost var c := View();
      if !buf[b].valid {
        WithGood(c, b, Stored(c, b, disk[c.buf[b].blockno]).buf[b]);
        buf[b] := buf[b].(valid := true, data := disk[buf[b].blockno]);
        assert View() == Stored(c, b, disk[c.buf[b].blockno]);
      }
    }

    /** bread: with `got` the caller holds the buffer's lock and the block's contents; without it
        another process holds the lock, and the caller sleeps until it can go on with
        AcquireSleep and Fill. */
    method Bread(d: nat, n: nat, h: Handle) returns (found: bool, b: nat, got: bool)
      requires Valid() && n in disk
      modifies buf
      ensures Valid() && (got ==> found)
      ensures found <==> old(Cached(View(), d, n)) || old(Victim(View())) < nbuf
      ensures found ==> Holds(View(), b, d, n) && View().buf[b].refcnt > 0
      ensures got ==> buf[b].lock == Journal.Some(h) && buf[b].valid
      ensures got && (d != 0 || n != 0) ==> Shows(old(View()), disk, d, n, buf[b].data)
      ensures found && !got ==> old(View()).buf[b].lock.Some? && buf[b].lock == old(View()).buf[b].lock
    {
      ghost var c := View();
      found, b := Lookup(d, n);
      got := false;
      if found {
        ghost var l := View();
        got := AcquireSleep(b, h);
        if got {
          Fill(b, h);
          if (d != 0 || n != 0) && exists e: nat :: Holds(c, e, d, n) && c.buf[e].valid {
            var e: nat :| Holds(c, e, d, n) && c.buf[e].valid;
            assert Holds(c, b, d, n) && e == b;
          }
        }
      }
    }

    /** bwrite: exactly the block of the locked buffer changes on disk. */
    method Bwrite(b: nat, h: Handle)
      requires Valid() && b < nbuf && buf[b].lock == Journal.Some(h)
      modifies this`disk
      ensures Valid() && View() == old(View()) && disk == old(disk)[buf[b].blockno := buf[b].data]
    {
      disk := disk[buf[b].blockno := buf[b].data];
    }

    method ReleaseSleep(b: nat, h: Handle)
      requires Valid() && b < nbuf && buf[b].lock == Journal.Some(h)
      modifies buf
      ensures Valid() && View() == Unlocked(old(View()), b)
    {
      ghost var c := View();
      WithGood(c, b, Unlocked(c, b).buf[b]);
      buf[b] := buf[b].(lock := Journal.None);
      assert View() == Unlocked(c, b);
    }

    /** brelse under bcache.lock: the last reference moves the buffer to the front of the ring. */
    method Unref(b: nat)
      requires Valid() && b < nbuf && buf[b].refcnt > 0
      modifies buf, next, prev, this`order, this`fell, this`now
      ensures Valid() && View() == Released(old(View()), b)
    {
      ghost var c := View();
      ghost var r := Released(c, b);
      assert Good(r) && b in c.order by { ReleasedGood(c, b); }
      buf[b] := buf[b].(refcnt := buf[b].refcnt - 1);
      assert buf[..] == r.buf;
      if buf[b].refcnt == 0 {
        MoveToFront(b);
        fell := fell[b := now];
        now := now + 1;
      }
      assert View() == r;
    }

    method MoveToFront(b: nat)
      requires Shape() && Ringed() && b in order && b < nbuf
      modifies next, prev, this`order
      ensures Ringed() && order == Front(old(order), b)
    {
      ghost var p := Pos(order, b);
      ghost var nx, pv := next[..], prev[..];
      Unlink(nbuf, nx, pv, order, p);
      prev[next[b]] := prev[b];
      next[prev[b]] := next[b];
      ghost var nx1, pv1 := next[..], prev[..];
      assert nx1 == nx[pv[b] := nx[b]] && pv1 == pv[nx[b] := pv[b]];
      PushFront(nbuf, nx1, pv1, Without(order, p), b);
      next[b] := next[nbuf];
      prev[b] := nbuf;
      prev[next[nbuf]] := b;
      next[nbuf] := b;
      assert next[..] == PushedNext(nx1, nbuf, b) && prev[..] == PushedPrev(nx1, pv1, nbuf, b);
      order := Front(order, b);
    }

    /** brelse; its panic is the missing lock. */
    method Brelse(b: nat, h: Handle)
      requires Valid() && b < nbuf && buf[b].lock == Journal.Some(h) && buf[b].refcnt > 0
      modifies buf, next, prev, this`order, this`fell, this`now
      ensures Valid() && View() == Released(Unlocked(old(View()), b), b)
    {
      ReleaseSleep(b, h);
      Unref(b);
    }

    method Bpin(b: nat)
      requires Valid() && b < nbuf
      modifies buf
      ensures Valid() && View() == Referenced(old(View()), b)
    {
      ghost var c := View();
      WithGood(c, b, Referenced(c, b).buf[b]);
      buf[b] := buf[b].(refcnt := buf[b].refcnt + 1);
      assert View() == Referenced(c, b);
    }

    /** bunpin leaves the buffer where it is, so the cache stays valid exactly when a reference is
        left or no unused buffer stands ahead. */
    method Bunpin(b: nat)
      requires Valid() && b < nbuf && buf[b].refcnt > 0
      modifies buf, this`fell, this`now
      ensures View() == Unpinned(old(View()), b) && Shape() && Ringed() && Covers(View()) && Keys(View())
      ensures Valid() <==> old(buf[b].refcnt) > 1 || old(b in order && FirstUnused(View(), b))
    {
      ghost var c := View();
      UnpinnedExact(c, b);
      buf[b] := buf[b].(refcnt := buf[b].refcnt - 1);
      if buf[b].refcnt == 0 {
        fell := fell[b := now];
        now := now + 1;
      }
      assert View() == Unpinned(c, b);
    }
  }
}
