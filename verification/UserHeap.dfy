/** The user-level allocator: malloc, free and morecore over a circular, address-ordered
    free list (umalloc.c).  Addresses and sizes are in units of one header; base is the
    static header that is always on the list. */
module UserHeap {

  /** Header words and break and, for the proof, the free blocks, the blocks handed out (address
      to size) and, for each unit obtained from sbrk, the block that it is part of. */
  datatype Mem = Mem(base: nat, ptr: seq<nat>, size: seq<nat>, top: nat,
                     free: set<nat>, live: map<nat, nat>, own: map<nat, nat>)

  predicate OnList(m: Mem, b: nat) { b == m.base || b in m.free }

  /** The link of b leads to the next higher entry of the list with a gap in between, or
      from the highest entry back to base. */
  predicate Node(m: Mem, b: nat) {
    && b < |m.ptr| == |m.size| && OnList(m, m.ptr[b])
    && (if b < m.ptr[b] then b + m.size[b] < m.ptr[b] && forall c :: c in m.free ==> c <= b || m.ptr[b] <= c
        else m.ptr[b] == m.base && forall c :: c in m.free ==> c <= b)
  }

  /** A block above base, below the break, holding all of its units. */
  predicate Block(m: Mem, b: nat) {
    && b < |m.size| && m.base < b && 0 < m.size[b] && b + m.size[b] <= m.top
    && forall u :: b <= u < b + m.size[b] ==> u in m.own && m.own[u] == b
  }

  predicate IsBlock(m: Mem, b: nat) { b in m.free || b in m.live }

  predicate Unit(m: Mem, u: nat) {
    u in m.own && m.own[u] < |m.size| && m.own[u] <= u < m.own[u] + m.size[m.own[u]] && IsBlock(m, m.own[u])
  }

  /** The free list is circular, address-ordered and coalesced, and the free and the
      allocated blocks tile the units obtained from sbrk. */
  ghost predicate Good(m: Mem) {
    && 0 < m.base < m.top <= |m.ptr| == |m.size| && m.size[m.base] == 0
    && m.free !! m.live.Keys
    && (forall b {:trigger Node(m, b)} :: OnList(m, b) ==> Node(m, b))
    && (forall b {:trigger Block(m, b)} :: IsBlock(m, b) ==> Block(m, b))
    && (forall u {:trigger Unit(m, u)} :: u in m.own ==> Unit(m, u))
    && (forall b :: b in m.live ==> b < |m.size| && m.live[b] == m.size[b])
  }

  /** What is known of one entry, of one block. */
  lemma NodeIs(m: Mem, b: nat)
    requires Good(m) && OnList(m, b)
    ensures Node(m, b) && m.base <= b && m.base <= m.ptr[b]
  {
    assert Node(m, b);
    assert b in m.free ==> Block(m, b);
    assert m.ptr[b] in m.free ==> Block(m, m.ptr[b]);
  }

  lemma BlockIs(m: Mem, b: nat)
    requires Good(m) && IsBlock(m, b)
    ensures Block(m, b) && b in m.own && m.own[b] == b && b + m.size[b] - 1 in m.own && m.own[b + m.size[b] - 1] == b
  {
    assert Block(m, b);
  }

  /** Two blocks do not overlap. */
  lemma BlocksApart(m: Mem, a: nat, b: nat)
    requires Good(m) && IsBlock(m, a) && IsBlock(m, b) && a < b
    ensures a < |m.size| && a + m.size[a] <= b
  {
    BlockIs(m, a);
    BlockIs(m, b);
  }

  /** Every entry has one predecessor. */
  lemma OnePredecessor(m: Mem, a: nat, b: nat)
    requires Good(m) && OnList(m, a) && OnList(m, b) && a < |m.ptr| && b < |m.ptr| && m.ptr[a] == m.ptr[b]
    ensures a == b
  {
    NodeIs(m, a);
    NodeIs(m, b);
  }

  /** p is the entry after which bp belongs. */
  predicate Before(m: Mem, p: nat, bp: nat) {
    OnList(m, p) && p < |m.ptr| && p < bp && (bp < m.ptr[p] || m.ptr[p] <= p)
  }

  /** The circular list leads from base to every place. */
  lemma {:induction false} Place(m: Mem, p: nat, bp: nat) returns (t: nat)
    requires Good(m) && OnList(m, p) && p < bp && bp !in m.free
    ensures Before(m, t, bp)
    decreases bp - p
  {
    NodeIs(m, p);
    if bp < m.ptr[p] || m.ptr[p] <= p { t := p; } else { t := Place(m, m.ptr[p], bp); }
  }

  /** An entry of the list is no unit of an allocated block. */
  lemma EntryNotLive(m: Mem, p: nat, u: nat)
    requires Good(m) && OnList(m, p) && u in m.own && m.own[u] in m.live
    ensures u != p
  {
    assert Unit(m, u);
    BlockIs(m, m.own[u]);
    if p != m.base { BlockIs(m, p); }
  }

  /** The allocated blocks other than bp are untouched, headers and contents. */
  ghost predicate LiveKept(m: Mem, bp: nat, g: Mem) {
    && |m.ptr| == |g.ptr| == |m.size| == |g.size|
    && (forall u {:trigger UnitKept(m, u, g)} :: u in m.own && m.own[u] in m.live && m.own[u] != bp ==> UnitKept(m, u, g))
  }

  predicate UnitKept(m: Mem, u: nat, g: Mem) {
    && u in m.own && u in g.own && g.own[u] == m.own[u] && m.own[u] in g.live
    && u < |m.ptr| && u < |m.size| && u < |g.ptr| && u < |g.size| && g.ptr[u] == m.ptr[u] && g.size[u] == m.size[u]
  }

  lemma LiveKeptTwice(m: Mem, bp: nat, g: Mem, h: Mem)
    requires LiveKept(m, bp, g) && LiveKept(g, bp, h)
    ensures LiveKept(m, bp, h)
  {
    forall u: nat | u in m.own && m.own[u] in m.live && m.own[u] != bp ensures UnitKept(m, u, h) {
      assert UnitKept(m, u, g);
      assert UnitKept(g, u, h);
    }
  }

  // ---------------------------------------------------------------- the steps of free

  /** Hand the units of block `from` to block `to`. */
  ghost function Regrant(own: map<nat, nat>, from: nat, to: nat): map<nat, nat> {
    map u | u in own :: if own[u] == from then to else own[u]
  }

  /** The free entry just above bp becomes part of bp. */
  ghost function Absorbed(m: Mem, p: nat, bp: nat): Mem
    requires p < |m.ptr| && m.ptr[p] < |m.ptr| == |m.size| && bp < |m.size|
  {
    var next := m.ptr[p];
    var n := m.size[bp] + m.size[next];
    m.(ptr := m.ptr[p := m.ptr[next]], size := m.size[bp := n], free := m.free - {next}, live := m.live[bp := n],
       own := Regrant(m.own, next, bp))
  }

  lemma AbsorbedGood(m: Mem, p: nat, bp: nat)
    requires Good(m) && bp in m.live && Before(m, p, bp) && bp < |m.size| && bp + m.size[bp] == m.ptr[p] < |m.ptr|
    ensures var g := Absorbed(m, p, bp); Good(g) && Before(g, p, bp) && bp + g.size[bp] != g.ptr[p]
  {
    var g := Absorbed(m, p, bp);
    var next := m.ptr[p];
    NodeIs(m, p);
    BlockIs(m, bp);
    NodeIs(m, next);
    BlockIs(m, next);
    forall b: nat | OnList(g, b) ensures Node(g, b) {
      NodeIs(m, b);
      if m.ptr[b] == next { OnePredecessor(m, b, p); }
    }
    forall b: nat | IsBlock(g, b) ensures Block(g, b) { BlockIs(m, b); }
    forall u | u in g.own ensures Unit(g, u) { assert Unit(m, u); }
  }

  /** bp becomes part of the free entry just below it. */
  ghost function Appended(m: Mem, p: nat, bp: nat): Mem
    requires p < |m.size| && bp < |m.size| == |m.ptr|
  {
    m.(ptr := m.ptr[bp := m.ptr[p]], size := m.size[p := m.size[p] + m.size[bp]], live := m.live - {bp},
       own := Regrant(m.own, bp, p))
  }

  lemma AppendedGood(m: Mem, p: nat, bp: nat)
    requires Good(m) && bp in m.live && Before(m, p, bp) && p < |m.size| && bp < |m.size|
    requires p + m.size[p] == bp && bp + m.size[bp] != m.ptr[p]
    ensures Good(Appended(m, p, bp))
  {
    var g := Appended(m, p, bp);
    NodeIs(m, p);
    BlockIs(m, bp);
    BlockIs(m, p);
    if p < m.ptr[p] { BlocksApart(m, bp, m.ptr[p]); }
    forall b: nat | OnList(g, b) ensures Node(g, b) { NodeIs(m, b); }
    forall b: nat | IsBlock(g, b) ensures Block(g, b) { BlockIs(m, b); }
    forall u | u in g.own ensures Unit(g, u) { assert Unit(m, u); }
  }

  /** bp becomes an entry of its own. */
  ghost function Inserted(m: Mem, p: nat, bp: nat): Mem
    requires p < |m.ptr| && bp < |m.ptr|
  {
    m.(ptr := m.ptr[bp := m.ptr[p]][p := bp], free := m.free + {bp}, live := m.live - {bp})
  }

  lemma InsertedGood(m: Mem, p: nat, bp: nat)
    requires Good(m) && bp in m.live && Before(m, p, bp) && p < |m.size| && bp < |m.size|
    requires p + m.size[p] != bp && bp + m.size[bp] != m.ptr[p]
    ensures Good(Inserted(m, p, bp))
  {
    var g := Inserted(m, p, bp);
    NodeIs(m, p);
    BlockIs(m, bp);
    if p != m.base { BlocksApart(m, p, bp); }
    if p < m.ptr[p] { BlocksApart(m, bp, m.ptr[p]); }
    forall b: nat | OnList(g, b) ensures Node(g, b) {
      if b != bp {
        NodeIs(m, b);
        if m.ptr[b] == m.ptr[p] { OnePredecessor(m, b, p); }
      }
    }
    forall b: nat | IsBlock(g, b) ensures Block(g, b) { BlockIs(m, b); }
    forall u | u in g.own ensures Unit(g, u) { assert Unit(m, u); }
  }

  /** bp has joined the free list after p. */
  ghost predicate Freed(m: Mem, p: nat, bp: nat, g: Mem) {
    && Good(g) && OnList(g, p) && p < |g.ptr| && g.top == m.top && g.live == m.live - {bp} && g.own.Keys == m.own.Keys
    && bp in g.own && g.own[bp] in g.free && (g.own[bp] == p || g.own[bp] == g.ptr[p])
    && bp in m.live && g.own[bp] < |g.size| && g.size[g.own[bp]] >= m.live[bp]
  }

  lemma AbsorbedKept(m: Mem, p: nat, bp: nat)
    requires Good(m) && bp in m.live && Before(m, p, bp) && bp < |m.size| && bp + m.size[bp] == m.ptr[p] < |m.ptr|
    ensures LiveKept(m, bp, Absorbed(m, p, bp)) && bp in Absorbed(m, p, bp).live
  {
    var g := Absorbed(m, p, bp);
    NodeIs(m, p);
    BlockIs(m, bp);
    forall u: nat | u in m.own && m.own[u] in m.live && m.own[u] != bp ensures UnitKept(m, u, g) {
      assert Unit(m, u);
      BlockIs(m, m.own[u]);
      EntryNotLive(m, p, u);
    }
  }

  lemma AppendedFreed(m: Mem, p: nat, bp: nat)
    requires Good(m) && bp in m.live && Before(m, p, bp) && p < |m.size| && bp < |m.size|
    requires p + m.size[p] == bp && bp + m.size[bp] != m.ptr[p]
    ensures Freed(m, p, bp, Appended(m, p, bp)) && LiveKept(m, bp, Appended(m, p, bp))
  {
    var g := Appended(m, p, bp);
    AppendedGood(m, p, bp);
    BlockIs(m, bp);
    NodeIs(m, p);
    forall u: nat | u in m.own && m.own[u] in m.live && m.own[u] != bp ensures UnitKept(m, u, g) {
      assert Unit(m, u);
      BlockIs(m, m.own[u]);
      EntryNotLive(m, p, u);
    }
  }

  lemma InsertedFreed(m: Mem, p: nat, bp: nat)
    requires Good(m) && bp in m.live && Before(m, p, bp) && p < |m.size| && bp < |m.size|
    requires p + m.size[p] != bp && bp + m.size[bp] != m.ptr[p]
    ensures Freed(m, p, bp, Inserted(m, p, bp)) && LiveKept(m, bp, Inserted(m, p, bp))
  {
    var g := Inserted(m, p, bp);
    InsertedGood(m, p, bp);
    BlockIs(m, bp);
    NodeIs(m, p);
    forall u: nat | u in m.own && m.own[u] in m.live && m.own[u] != bp ensures UnitKept(m, u, g) {
      assert Unit(m, u);
      BlockIs(m, m.own[u]);
      EntryNotLive(m, p, u);
    }
  }

  /** The whole effect of linking bp in after p. */
  ghost function Joined(m: Mem, p: nat, bp: nat): Mem
    requires Good(m) && bp in m.live && Before(m, p, bp)
  {
    BlockIs(m, bp);
    NodeIs(m, p);
    NodeIs(m, m.ptr[p]);
    var g := if bp + m.size[bp] == m.ptr[p] then Absorbed(m, p, bp) else m;
    if p + g.size[p] == bp then Appended(g, p, bp) else Inserted(g, p, bp)
  }

  /** The header words of g are those of m after free's two tests. */
  predicate Rewritten(m: Mem, p: nat, bp: nat, g: Mem) {
    p < |m.ptr| == |m.size| && bp < |m.ptr| && m.ptr[p] < |m.ptr| && p != bp && bp != m.ptr[p]
    && var next := m.ptr[p];
       var up, low := bp + m.size[bp] == next, p + m.size[p] == bp;
       var x, n := if up then m.ptr[next] else next, if up then m.size[bp] + m.size[next] else m.size[bp];
       && g.ptr == m.ptr[bp := x][p := if low then x else bp]
       && g.size == m.size[bp := n][p := if low then m.size[p] + n else m.size[p]]
       && g.base == m.base && g.top == m.top
  }

  lemma JoinedWords(m: Mem, p: nat, bp: nat)
    requires Good(m) && bp in m.live && Before(m, p, bp)
    ensures Rewritten(m, p, bp, Joined(m, p, bp))
  {
    BlockIs(m, bp);
    NodeIs(m, p);
    NodeIs(m, m.ptr[p]);
  }

  lemma JoinedFreed(m: Mem, p: nat, bp: nat)
    requires Good(m) && bp in m.live && Before(m, p, bp)
    ensures Freed(m, p, bp, Joined(m, p, bp)) && LiveKept(m, bp, Joined(m, p, bp))
  {
    BlockIs(m, bp);
    NodeIs(m, p);
    NodeIs(m, m.ptr[p]);
    var g := m;
    if bp + m.size[bp] == m.ptr[p] {
      AbsorbedGood(m, p, bp);
      AbsorbedKept(m, p, bp);
      g := Absorbed(m, p, bp);
    }
    if p + g.size[p] == bp { AppendedFreed(g, p, bp); } else { InsertedFreed(g, p, bp); }
    if g != m { LiveKeptTwice(m, bp, g, Joined(m, p, bp)); }
  }

  // ---------------------------------------------------------------- the steps of malloc

  /** A free entry of the right size is handed out whole. */
  ghost function Taken(m: Mem, prev: nat, p: nat): Mem
    requires prev < |m.ptr| && p < |m.ptr| == |m.size|
  {
    m.(ptr := m.ptr[prev := m.ptr[p]], free := m.free - {p}, live := m.live[p := m.size[p]])
  }

  lemma TakenGood(m: Mem, prev: nat, p: nat)
    requires Good(m) && OnList(m, prev) && p in m.free && prev < |m.ptr| && m.ptr[prev] == p && p < |m.ptr|
    ensures Good(Taken(m, prev, p))
  {
    var g := Taken(m, prev, p);
    NodeIs(m, prev);
    NodeIs(m, p);
    BlockIs(m, p);
    forall b: nat | OnList(g, b) ensures Node(g, b) {
      NodeIs(m, b);
      if m.ptr[b] == p { OnePredecessor(m, b, prev); }
    }
    forall b: nat | IsBlock(g, b) ensures Block(g, b) { BlockIs(m, b); }
    forall u | u in g.own ensures Unit(g, u) { assert Unit(m, u); }
  }

  /** The last n units of a larger free entry are handed out. */
  ghost function Split(m: Mem, p: nat, n: nat): Mem
    requires p < |m.size| && n <= m.size[p] && p + m.size[p] - n < |m.size|
  {
    var q := p + m.size[p] - n;
    m.(size := m.size[p := m.size[p] - n][q := n], live := m.live[q := n],
       own := map u | u in m.own :: if q <= u < q + n then q else m.own[u])
  }

  lemma SplitGood(m: Mem, p: nat, n: nat)
    requires Good(m) && p in m.free && p < |m.size| && 0 < n < m.size[p] && p + m.size[p] - n < |m.size|
    ensures Good(Split(m, p, n)) && p + m.size[p] - n !in m.live
  {
    var q := p + m.size[p] - n;
    var g := Split(m, p, n);
    NodeIs(m, p);
    BlockIs(m, p);
    assert m.own[q] == p;
    if IsBlock(m, q) { BlockIs(m, q); }
    forall b: nat | OnList(g, b) ensures Node(g, b) { NodeIs(m, b); }
    forall b: nat | IsBlock(g, b) ensures Block(g, b) { if b != q { BlockIs(m, b); } }
    forall u | u in g.own ensures Unit(g, u) { assert Unit(m, u); }
  }

  /** Exactly n units from the free list now form an allocated block at q. */
  ghost predicate Allocated(m: Mem, q: nat, n: nat, g: Mem) {
    && Good(g) && q !in m.live && g.live == m.live[q := n] && g.own.Keys == m.own.Keys && g.top == m.top && LiveKept(m, 0, g)
  }

  lemma TakenAllocated(m: Mem, prev: nat, p: nat)
    requires Good(m) && OnList(m, prev) && p in m.free && prev < |m.ptr| && m.ptr[prev] == p && p < |m.size|
    ensures Allocated(m, p, m.size[p], Taken(m, prev, p)) && OnList(Taken(m, prev, p), prev)
  {
    var g := Taken(m, prev, p);
    TakenGood(m, prev, p);
    NodeIs(m, prev);
    NodeIs(m, p);
    forall u: nat | u in m.own && m.own[u] in m.live ensures UnitKept(m, u, g) {
      assert Unit(m, u);
      BlockIs(m, m.own[u]);
      EntryNotLive(m, prev, u);
    }
  }

  lemma SplitAllocated(m: Mem, p: nat, n: nat)
    requires Good(m) && p in m.free && p < |m.size| && 0 < n < m.size[p] && p + m.size[p] - n < |m.size|
    ensures Allocated(m, p + m.size[p] - n, n, Split(m, p, n))
  {
    var g := Split(m, p, n);
    SplitGood(m, p, n);
    BlockIs(m, p);
    forall u: nat | u in m.own && m.own[u] in m.live ensures UnitKept(m, u, g) {
      assert Unit(m, u);
      BlockIs(m, m.own[u]);
      EntryNotLive(m, p, u);
    }
  }

  /** The whole effect of allocating n units from entry p. */
  ghost function Carved(m: Mem, prev: nat, p: nat, n: nat): Mem
    requires Good(m) && OnList(m, prev) && prev < |m.ptr| && m.ptr[prev] == p < |m.size| && 0 < n <= m.size[p]
  {
    NodeIs(m, prev);
    BlockIs(m, p);
    if m.size[p] == n then Taken(m, prev, p) else Split(m, p, n)
  }

  lemma CarvedAllocated(m: Mem, prev: nat, p: nat, n: nat)
    requires Good(m) && OnList(m, prev) && prev < |m.ptr| && m.ptr[prev] == p < |m.size| && 0 < n <= m.size[p]
    ensures Allocated(m, p + m.size[p] - n, n, Carved(m, prev, p, n)) && OnList(Carved(m, prev, p, n), prev)
  {
    NodeIs(m, prev);
    BlockIs(m, p);
    if m.size[p] == n { TakenAllocated(m, prev, p); } else { SplitAllocated(m, p, n); }
  }

  /** sbrk has returned n units at hp, above the old break. */
  ghost function Grown(m: Mem, hp: nat, n: nat): Mem
    requires hp < |m.size|
  {
    m.(size := m.size[hp := n], top := hp + n, live := m.live[hp := n],
       own := map u: nat | u < hp + n && (hp <= u || u in m.own) :: if hp <= u then hp else m.own[u])
  }

  lemma GrownGood(m: Mem, hp: nat, n: nat)
    requires Good(m) && 0 < n && m.top <= hp && hp + n <= |m.size|
    ensures Good(Grown(m, hp, n))
  {
    var g := Grown(m, hp, n);
    forall b | b in m.free ensures b < hp { assert Block(m, b); }
    forall u | u in m.own ensures u < hp { assert Unit(m, u); BlockIs(m, m.own[u]); }
    forall b: nat | OnList(g, b) ensures Node(g, b) { NodeIs(m, b); }
    forall b: nat | IsBlock(g, b) ensures Block(g, b) { if b != hp { BlockIs(m, b); } }
    forall u | u in g.own ensures Unit(g, u) { if u < hp { assert Unit(m, u); } }
  }

  /** The units obtained from sbrk grew by exactly [lo, lo + n). */
  ghost predicate GrewBy(m: Mem, lo: int, n: nat, g: Mem) {
    forall u: nat :: u in g.own <==> u in m.own || lo <= u < lo + n
  }

  lemma KeptSelf(m: Mem)
    requires Good(m)
    ensures LiveKept(m, 0, m)
  {
    forall u: nat | u in m.own && m.own[u] in m.live ensures UnitKept(m, u, m) { assert Unit(m, u); BlockIs(m, m.own[u]); }
  }

  lemma GrownKept(m: Mem, hp: nat, n: nat)
    requires Good(m) && 0 < n && m.top <= hp && hp + n <= |m.size|
    ensures LiveKept(m, hp, Grown(m, hp, n)) && hp !in m.live
    ensures GrewBy(m, hp, n, Grown(m, hp, n))
  {
    if hp in m.live { BlockIs(m, hp); }
    forall u: nat | u in m.own ensures u < hp { assert Unit(m, u); BlockIs(m, m.own[u]); }
    forall u: nat | u in m.own && m.own[u] in m.live && m.own[u] != hp ensures UnitKept(m, u, Grown(m, hp, n)) { }
  }

  /** Growing and then freeing the new block leaves the allocated blocks as they were. */
  lemma GrownBack(m: Mem, hp: nat, n: nat, g: Mem)
    requires Good(m) && 0 < n && m.top <= hp && hp + n <= |m.size| && hp !in m.live
    requires LiveKept(m, hp, Grown(m, hp, n)) && LiveKept(Grown(m, hp, n), hp, g)
    ensures LiveKept(m, 0, g) && m.live[hp := n] - {hp} == m.live
  {
    LiveKeptTwice(m, hp, Grown(m, hp, n), g);
    forall u: nat | u in m.own && m.own[u] in m.live && m.own[u] != 0 ensures UnitKept(m, u, g) { }
  }

  // ---------------------------------------------------------------- the list is circular

  /** The n-th entry after b. */
  ghost function Follow(m: Mem, b: nat, n: nat): (c: nat)
    requires Good(m) && OnList(m, b)
    ensures OnList(m, c)
    decreases n
  {
    if n == 0 then b else (NodeIs(m, b); Follow(m, m.ptr[b], n - 1))
  }

  lemma {:induction false} FollowOn(m: Mem, b: nat, n: nat)
    requires Good(m) && OnList(m, b)
    ensures Follow(m, b, n) < |m.ptr| && Follow(m, b, n + 1) == m.ptr[Follow(m, b, n)]
    decreases n
  {
    NodeIs(m, b);
    if n > 0 { FollowOn(m, m.ptr[b], n - 1); }
  }

  /** From entry p on, the links lead up to b. */
  lemma {:induction false} Climb(m: Mem, p: nat, b: nat) returns (n: nat)
    requires Good(m) && OnList(m, p) && OnList(m, b) && p <= b
    ensures Follow(m, p, n) == b
    decreases b - p
  {
    NodeIs(m, p);
    NodeIs(m, b);
    if p == b { n := 0; }
    else {
      var k := Climb(m, m.ptr[p], b);
      n := k + 1;
    }
  }

  /** Every entry is reached from every entry. */
  lemma Circular(m: Mem, a: nat, b: nat) returns (n: nat)
    requires Good(m) && OnList(m, a) && OnList(m, b)
    ensures Follow(m, a, n) == b
  {
    NodeIs(m, a);
    NodeIs(m, b);
    if a <= b { n := Climb(m, a, b); } else { n := Wrap(m, a, b); }
  }

  lemma {:induction false} Wrap(m: Mem, a: nat, b: nat) returns (n: nat)
    requires Good(m) && OnList(m, a) && OnList(m, b)
    ensures Follow(m, a, n) == b
    decreases |m.ptr| - a
  {
    NodeIs(m, a);
    NodeIs(m, b);
    NodeIs(m, m.ptr[a]);
    var k;
    if m.ptr[a] <= a { k := Climb(m, m.base, b); } else { k := Wrap(m, m.ptr[a], b); }
    n := k + 1;
  }

  /** Going on from p gets closer to any entry g: first up to the wrap, then up to g. */
  lemma Closer(m: Mem, p: nat, g: nat)
    requires Good(m) && OnList(m, p) && OnList(m, g) && p != g
    ensures p < |m.ptr| && m.ptr[p] < |m.ptr| && OnList(m, m.ptr[p])
    ensures if p > g then m.ptr[p] > p || m.ptr[p] <= g else p < m.ptr[p] <= g
  {
    NodeIs(m, p);
    NodeIs(m, g);
    NodeIs(m, m.ptr[p]);
  }

  /** Entry b is passed on the way round from f to p. */
  predicate Passed(f: nat, p: nat, b: nat) { if p > f then f < b < p else b > f || b < p }

  ghost predicate PassedSmall(m: Mem, f: nat, p: nat, n: nat) {
    forall b :: b in m.free && Passed(f, p, b) ==> b < |m.size| && m.size[b] < n
  }

  lemma PassOn(m: Mem, f: nat, p: nat, n: nat)
    requires Good(m) && OnList(m, p) && OnList(m, f) && p != f && PassedSmall(m, f, p, n) && p < |m.size| && m.size[p] < n
    ensures p < |m.ptr| && PassedSmall(m, f, m.ptr[p], n)
  {
    Closer(m, p, f);
    NodeIs(m, p);
    forall b | b in m.free && Passed(f, m.ptr[p], b) ensures b < |m.size| && m.size[b] < n { assert Block(m, b); }
  }

  ghost predicate FullMem(m: Mem, n: nat) {
    forall b :: b in m.free && b < |m.size| ==> m.size[b] < n
  }

  lemma PassedAll(m: Mem, f: nat, n: nat)
    requires Good(m) && PassedSmall(m, f, f, n) && f < |m.size| && m.size[f] < n
    ensures FullMem(m, n)
  {
    forall b | b in m.free && b < |m.size| ensures m.size[b] < n { assert b != f ==> Passed(f, f, b); }
  }

  lemma PassFirst(m: Mem, f: nat, n: nat)
    requires Good(m) && OnList(m, f)
    ensures f < |m.ptr| && PassedSmall(m, f, m.ptr[f], n)
  {
    NodeIs(m, f);
    forall b | b in m.free ensures m.base < b { assert Block(m, b); }
  }

  lemma StoreGood(m: Mem, u: nat, x: nat, y: nat)
    requires Good(m) && u in m.own && m.own[u] in m.live && u != m.own[u] && u < |m.ptr| && u < |m.size|
    ensures Good(m.(ptr := m.ptr[u := x], size := m.size[u := y]))
  {
    var g := m.(ptr := m.ptr[u := x], size := m.size[u := y]);
    EntryNotLive(m, m.base, u);
    forall b | b in m.live ensures b != u { BlockIs(m, b); }
    forall b: nat | OnList(g, b) ensures Node(g, b) { NodeIs(m, b); EntryNotLive(m, b, u); }
    forall b: nat | IsBlock(g, b) ensures Block(g, b) && b != u { BlockIs(m, b); }
    forall w: nat | w in g.own ensures Unit(g, w) { assert Unit(m, w); BlockIs(m, m.own[w]); }
  }

  /** When everything has been freed, contiguous memory is one free block again. */
  lemma FullyCoalesced(m: Mem, lo: nat, hi: nat)
    requires Good(m) && m.live == map[] && lo < hi && forall u: nat :: u in m.own <==> lo <= u < hi
    ensures m.free == {lo} && lo < |m.size| && m.size[lo] == hi - lo
  {
    assert Unit(m, lo);
    BlockIs(m, m.own[lo]);
    BlockIs(m, lo);
    NodeIs(m, lo);
    var u := lo + m.size[lo];
    assert u - 1 in m.own;
    if u < hi {
      assert Unit(m, u);
      BlockIs(m, m.own[u]);
    }
    forall b | b in m.free ensures b == lo { BlockIs(m, b); }
  }

  /** malloc's search has reached p, whose predecessor is prev: before the heap has grown it
      started at freep and saw only small entries; afterwards entry goal, at freep or p, is large. */
  ghost predicate Seeking(m: Mem, v: Mem, freep: nat, prev: nat, p: nat, n: nat, grown: bool, goal: nat, brk: int) {
    && Good(v) && OnList(v, goal) && OnList(v, prev) && OnList(v, p) && OnList(v, freep) && 0 < n
    && prev < |v.ptr| && 0 < p < |v.ptr| == |m.ptr| && v.ptr[prev] == p && v.live == m.live && LiveKept(m, 0, v)
    && (if grown then
          && brk != -1 && FullMem(m, n) && GrewBy(m, brk, Request(n), v)
          && goal < |v.size| && v.size[goal] >= n && (goal == freep || goal == p)
        else v == m && goal == freep && PassedSmall(m, freep, p, n))
  }

  lemma SeekOn(m: Mem, v: Mem, freep: nat, prev: nat, p: nat, n: nat, grown: bool, goal: nat, brk: int)
    requires Seeking(m, v, freep, prev, p, n, grown, goal, brk) && p != freep && v.size[p] < n
    ensures p != goal && Seeking(m, v, freep, p, v.ptr[p], n, grown, goal, brk)
    ensures if p > goal then v.ptr[p] > p || v.ptr[p] <= goal else p < v.ptr[p] <= goal
  {
    Closer(v, p, goal);
    NodeIs(v, p);
    if !grown { PassOn(m, freep, p, n); }
  }

  lemma SeekGrown(m: Mem, v: Mem, freep: nat, n: nat, goal: nat, brk: int)
    requires Good(v) && OnList(v, freep) && |v.ptr| == |m.ptr| && v.live == m.live && LiveKept(m, 0, v) && 0 < n
    requires brk != -1 && FullMem(m, n) && GrewBy(m, brk, Request(n), v) && freep < |v.ptr|
    requires goal in v.free && goal < |v.size| && v.size[goal] >= n && (goal == freep || goal == v.ptr[freep])
    ensures Seeking(m, v, freep, freep, v.ptr[freep], n, true, goal, brk)
  {
    NodeIs(v, freep);
    NodeIs(v, v.ptr[freep]);
  }

  // ---------------------------------------------------------------- the allocator

  const HEADER := 16
  const INT_MAX := 0x7fff_ffff

  /** Units needed for nbytes and the header. */
  function Units(nbytes: nat): (n: nat)
    ensures n > 0 && (n - 1) * HEADER >= nbytes && (n - 2) * HEADER < nbytes
  {
    (nbytes + HEADER - 1) / HEADER + 1
  }

  /** What morecore asks sbrk for: enough for n units, never fewer than 4096, and no more than that. */
  function Request(n: nat): (nu: nat)
    ensures nu >= n && nu >= 4096 && (nu == n || nu == 4096)
  {
    if n < 4096 then 4096 else n
  }

  class Heap {
    const base: nat
    const ptr: array<nat>
    const size: array<nat>
    var freep: nat      // 0 before the first malloc
    var top: nat        // end of the memory obtained so far
    ghost var free: set<nat>
    ghost var live: map<nat, nat>
    ghost var own: map<nat, nat>

    ghost const Repr: set<object> := {this, ptr, size}

    ghost function View(): Mem
      reads Repr
    {
      Mem(base, ptr[..], size[..], top, free, live, own)
    }

    ghost predicate Valid()
      reads Repr
    {
      ptr != size && if freep == 0 then 0 < base < top <= ptr.Length == size.Length && free == {} && live == map[] && own == map[]
      else Good(View()) && OnList(View(), freep)
    }

    /** A heap before the first malloc: memory up to the break is the program's own. */
    constructor (at: nat, brk: nat, limit: nat)
      requires 0 < at < brk <= limit
      ensures Valid() && fresh(Repr) && freep == 0 && live == map[] && ptr.Length == limit
    {
      base, ptr, size, freep, top := at, new nat[limit](_ => 0), new nat[limit](_ => 0), 0, brk;
      free, live, own := {}, map[], map[];
    }

    /** The program may write what it likes inside its blocks. */
    method Store(u: nat, x: nat, y: nat)
      requires Valid() && u in own && own[u] in live && u != own[u] && u < ptr.Length && u < size.Length
      modifies Repr
      ensures Valid() && live == old(live) && own == old(own) && free == old(free)
      ensures ptr[..] == old(ptr[..])[u := x] && size[..] == old(size[..])[u := y]
    {
      ghost var m := View();
      assert Unit(m, u);
      EntryNotLive(m, freep, u);
      ptr[u], size[u] := x, y;
      StoreGood(m, u, x, y);
      assert View() == m.(ptr := m.ptr[u := x], size := m.size[u := y]);
    }

    /** free's first test: bp takes over the entry just above it, or is linked to it. */
    method JoinAbove(p: nat, bp: nat)
      requires ptr != size && ptr.Length == size.Length && p < ptr.Length && bp < ptr.Length && ptr[p] < ptr.Length && bp != ptr[p]
      modifies ptr, size
      ensures var next, up := old(ptr[p]), old(bp + size[bp] == ptr[p]);
              && ptr[..] == old(ptr[..])[bp := if up then old(ptr[next]) else next]
              && size[..] == old(size[..])[bp := if up then old(size[bp] + size[next]) else old(size[bp])]
    {
      if bp + size[bp] == ptr[p] {
        size[bp] := size[bp] + size[ptr[p]];
        ptr[bp] := ptr[ptr[p]];
      } else {
        ptr[bp] := ptr[p];
      }
    }

    /** free's second test: the entry just below takes over bp, or is linked to it. */
    method JoinBelow(p: nat, bp: nat)
      requires ptr != size && ptr.Length == size.Length && p < ptr.Length && bp < ptr.Length && p != bp
      modifies ptr, size
      ensures var low := old(p + size[p] == bp);
              && ptr[..] == old(ptr[..])[p := if low then old(ptr[bp]) else bp]
              && size[..] == old(size[..])[p := if low then old(size[p] + size[bp]) else old(size[p])]
    {
      if p + size[p] == bp {
        size[p] := size[p] + size[bp];
        ptr[p] := ptr[bp];
      } else {
        ptr[p] := bp;
      }
    }

    method Link(p: nat, bp: nat, ghost g: Mem)
      requires ptr != size && Rewritten(View(), p, bp, g)
      modifies Repr
      ensures View() == g && freep == p
    {
      JoinAbove(p, bp);
      JoinBelow(p, bp);
      freep := p;
      free, live, own := g.free, g.live, g.own;
    }

    /** free: the block joins the list, merged with what it touches on either side. */
    method Free(ap: nat)
      requires Valid() && ap > 0 && ap - 1 in live
      modifies Repr
      ensures Valid() && freep != 0 && Freed(old(View()), freep, ap - 1, View()) && LiveKept(old(View()), ap - 1, View())
    {
      var bp: nat := ap - 1;
      ghost var m := View();
      BlockIs(m, bp);
      ghost var t := Place(m, base, bp);
      NodeIs(m, t);
      var p: nat := freep;
      NodeIs(m, p);
      while !(bp > p && bp < ptr[p])
        invariant OnList(m, p) && p < ptr.Length && View() == m
        decreases if p > t then 1 else 0, if p > t then ptr.Length - p else t - p
      {
        NodeIs(m, p);
        if p >= ptr[p] && (bp > p || bp < ptr[p]) { break; }
        p := ptr[p];
        NodeIs(m, p);
      }
      JoinedFreed(m, p, bp);
      JoinedWords(m, p, bp);
      NodeIs(m, p);
      Link(p, bp, Joined(m, p, bp));
    }

    /** What sbrk may answer: failure, or n units above everything obtained so far. */
    predicate Answer(brk: int, n: nat)
      reads Repr
    {
      brk == -1 || (top <= brk && brk + n <= size.Length)
    }

    /** morecore: on success the free list has room for n units at freep or just after it. */
    method MoreCore(n: nat, brk: int) returns (p: nat, ghost b: nat)
      requires Valid() && freep != 0 && n > 0 && Answer(brk, Request(n))
      modifies Repr
      ensures Valid() && freep != 0 && live == old(live) && LiveKept(old(View()), 0, View())
      ensures p == 0 <==> brk == -1
      ensures brk == -1 ==> View() == old(View()) && freep == old(freep)
      ensures brk != -1 ==> p == freep && GrewBy(old(View()), brk, Request(n), View()) && Room(b, n)
    {
      if brk == -1 {
        KeptSelf(View());
        return 0, 0;
      }
      var nu := Request(n);
      var hp: nat := brk;
      ghost var m := View();
      GrownGood(m, hp, nu);
      GrownKept(m, hp, nu);
      size[hp] := nu;
      top := hp + nu;
      live, own := Grown(m, hp, nu).live, Grown(m, hp, nu).own;
      ghost var g := View();
      Free(hp + 1);
      GrownBack(m, hp, nu, View());
      return freep, own[hp];
    }

    /** Entry b, at freep or just after it, has room for n units. */
    ghost predicate Room(b: nat, n: nat)
      reads Repr
    {
      b in free && b < size.Length && size[b] >= n && freep < ptr.Length && (b == freep || b == ptr[freep])
    }

    /** The allocating branch of malloc. */
    method Carve(prevp: nat, entry: nat, n: nat) returns (r: nat)
      requires ptr != size && Good(View()) && OnList(View(), prevp) && prevp < ptr.Length && ptr[prevp] == entry < size.Length && 0 < n <= size[entry]
      modifies Repr
      ensures View() == old(Carved(View(), prevp, entry, n)) && freep == prevp && r == entry + old(size[entry]) - n + 1
    {
      ghost var m := View();
      ghost var g := Carved(m, prevp, entry, n);
      NodeIs(m, prevp);
      BlockIs(m, entry);
      var p := entry;
      if size[p] == n {
        ptr[prevp] := ptr[p];
      } else {
        size[p] := size[p] - n;
        p := p + size[p];
        size[p] := n;
      }
      free, live, own := g.free, g.live, g.own;
      freep := prevp;
      return p + 1;
    }

    /** No free entry has n units. */
    ghost predicate Full(n: nat)
      reads Repr
    {
      FullMem(View(), n)
    }

    /** malloc's search: round the list from freep, growing the heap at most once. */
    method Search(n: nat, brk: int) returns (prevp: nat, p: nat)
      requires Valid() && freep != 0 && n > 0 && Answer(brk, Request(n))
      modifies Repr
      ensures Valid() && freep != 0 && live == old(live) && LiveKept(old(View()), 0, View())
      ensures p == 0 <==> brk == -1 && old(Full(n))
      ensures p == 0 ==> View() == old(View())
      ensures p != 0 ==> OnList(View(), prevp) && prevp < ptr.Length && p < size.Length && ptr[prevp] == p && size[p] >= n
      ensures if old(Full(n)) && brk != -1 then GrewBy(old(View()), brk, Request(n), View()) else own.Keys == old(own.Keys)
    {
      ghost var m := View();
      KeptSelf(m);
      prevp := freep;
      PassFirst(m, prevp, n);
      NodeIs(m, prevp);
      p := ptr[prevp];
      NodeIs(m, p);
      ghost var grown, goal: nat := false, freep;
      while size[p] < n
        invariant Valid() && Seeking(m, View(), freep, prevp, p, n, grown, goal, brk)
        decreases !grown, if p > goal then 1 else 0, if p > goal then ptr.Length - p else goal - p
      {
        if p == freep {
          PassedAll(m, p, n);
          p, goal := MoreCore(n, brk);
          if p == 0 { return; }
          grown := true;
          SeekGrown(m, View(), p, n, goal, brk);
        } else {
          SeekOn(m, View(), freep, prevp, p, n, grown, goal, brk);
        }
        prevp := p;
        p := ptr[p];
      }
      if !grown { BlockIs(m, p); }
    }

    /** malloc: a fresh block of enough units, or 0 exactly when no entry fits and sbrk fails. */
    method Malloc(nbytes: nat, brk: int) returns (r: nat)
      requires Valid() && Units(nbytes) * HEADER <= INT_MAX && Answer(brk, Request(Units(nbytes)))
      modifies Repr
      ensures Valid() && freep != 0 && LiveKept(old(View()), 0, View())
      ensures r == 0 <==> brk == -1 && old(Full(Units(nbytes)))
      ensures r == 0 ==> live == old(live) && own == old(own)
      ensures r != 0 ==> r - 1 !in old(live) && live == old(live)[r - 1 := Units(nbytes)]
      ensures if old(Full(Units(nbytes))) && brk != -1 then GrewBy(old(View()), brk, Request(Units(nbytes)), View())
              else own.Keys == old(own.Keys)
    {
      var nunits := Units(nbytes);
      if freep == 0 {
        freep := base;
        ptr[base], size[base] := base, 0;
        assert Good(View());
      }
      ghost var m := View();
      var prevp, p := Search(nunits, brk);
      if p == 0 { return 0; }
      ghost var v := View();
      NodeIs(v, prevp);
      CarvedAllocated(v, prevp, p, nunits);
      r := Carve(prevp, p, nunits);
      LiveKeptTwice(m, 0, v, View());
    }
  }
}
