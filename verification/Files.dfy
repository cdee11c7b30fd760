/** Files as flat byte sequences over blocks, what the inode operations keep of them and what a
    truncation frees (fs.c, file.c). */
module Files {
  import opened Blocks
  import Journal

  /** The bitmap has every block in use. */
  ghost predicate FullDisk(v: Disk) { forall c :: 0 <= c < v.sb.size ==> Marked(v, c) }

  // ---------------------------------------------------------------- files as bytes

  /** The position of file block bn. */
  function Idx(bn: nat): nat { if bn < NDIRECT then bn else bn + 1 }

  /** The disk block of file block bn, 0 if there is none. */
  function BlockOf(v: Disk, i: nat, bn: nat): nat { if bn < MAXFILE then Addr(v, i, Idx(bn)) else 0 }

  predicate Mapped(v: Disk, i: nat, o: nat) { 0 < BlockOf(v, i, o / BSIZE) < |v.blocks| }

  /** Byte o of file i. */
  function ByteOf(v: Disk, i: nat, o: nat): Byte {
    if Mapped(v, i, o) then v.blocks[BlockOf(v, i, o / BSIZE)][o % BSIZE] else 0
  }

  /** Every byte below the size has a block. */
  ghost predicate Full(v: Disk, i: nat) {
    && i < |v.ino| && v.ino[i].size <= MAXFILE * BSIZE
    && forall o: nat {:trigger Mapped(v, i, o)} :: o < v.ino[i].size ==> Mapped(v, i, o)
  }

  /** The contents of file i: a flat sequence of bytes. */
  function Content(v: Disk, i: nat): seq<Byte>
    requires i < |v.ino|
  {
    seq(v.ino[i].size, o requires 0 <= o => ByteOf(v, i, o))
  }

  /** c with data at off, extended if need be. */
  function WriteAt(c: seq<Byte>, off: nat, data: seq<Byte>): seq<Byte>
    requires off <= |c|
  {
    c[..off] + data + (if off + |data| < |c| then c[off + |data|..] else [])
  }

  // ---------------------------------------------------------------- what an operation keeps

  /** Position jdx of file j keeps its block and, unless it is the indirect block, the contents. */
  predicate PosKept(v: Disk, w: Disk, j: nat, jdx: nat) {
    Addr(v, j, jdx) != 0 ==>
      && Addr(w, j, jdx) == Addr(v, j, jdx)
      && (jdx != NDIRECT ==> Addr(v, j, jdx) < |v.blocks| == |w.blocks| && w.blocks[Addr(v, j, jdx)] == v.blocks[Addr(v, j, jdx)])
  }

  /** File i may have gained blocks; nothing else about any file has changed. */
  ghost predicate Extends(v: Disk, w: Disk, i: nat) {
    && w.sb == v.sb && |w.blocks| == |v.blocks| && |w.ino| == |v.ino|
    && (forall j :: 0 <= j < |v.ino| ==> w.ino[j].size == v.ino[j].size)
    && (forall j: nat, jdx: nat {:trigger PosKept(v, w, j, jdx)} :: jdx <= MAXFILE ==> PosKept(v, w, j, jdx))
    && (forall j: nat, jdx: nat :: j != i ==> Addr(w, j, jdx) == Addr(v, j, jdx))
  }

  lemma ExtendsSelf(v: Disk, i: nat)
    requires Good(v)
    ensures Extends(v, v, i)
  {
    forall j: nat, jdx: nat | jdx <= MAXFILE ensures PosKept(v, v, j, jdx) { if j < |v.ino| { AddrIs(v, j, jdx); } }
  }

  lemma ExtendsTwice(v: Disk, w: Disk, x: Disk, i: nat)
    requires Extends(v, w, i) && Extends(w, x, i)
    ensures Extends(v, x, i)
  {
    forall j: nat, jdx: nat | jdx <= MAXFILE ensures PosKept(v, x, j, jdx) { assert PosKept(v, w, j, jdx) && PosKept(w, x, j, jdx); }
  }

  lemma ClaimedExtends(v: Disk, b: nat, i: nat)
    requires Good(v) && b < v.sb.size && !Marked(v, b)
    ensures Extends(v, Claimed(v, b), i)
  {
    ClaimedGood(v, b);
    forall j: nat, jdx: nat | jdx <= MAXFILE ensures PosKept(v, Claimed(v, b), j, jdx) { if j < |v.ino| { AddrIs(v, j, jdx); } }
  }

  lemma PlacedExtends(v: Disk, i: nat, idx: nat, b: nat)
    requires Good(v) && i < |v.ino| && idx <= NDIRECT && Addr(v, i, idx) == 0 && b in v.owner && v.owner[b] == Held
    requires 0 < b < v.sb.size && (idx == NDIRECT ==> v.blocks[b] == Zero())
    ensures Extends(v, Placed(v, i, idx, b), i)
  {
    PlacedGood(v, i, idx, b);
    forall j: nat, jdx: nat | jdx <= MAXFILE ensures PosKept(v, Placed(v, i, idx, b), j, jdx) { if j < |v.ino| { AddrIs(v, j, jdx); } }
  }

  lemma EnteredExtends(v: Disk, i: nat, k: nat, b: nat)
    requires Good(v) && i < |v.ino| && k < NINDIRECT && 0 < v.ino[i].addrs[NDIRECT] < v.sb.size
    requires Addr(v, i, NDIRECT + 1 + k) == 0 && b in v.owner && v.owner[b] == Held && 0 < b < WORD
    ensures Extends(v, Entered(v, i, k, b), i)
  {
    EnteredGood(v, i, k, b);
    AddrIs(v, i, NDIRECT);
    forall j: nat, jdx: nat | jdx <= MAXFILE ensures PosKept(v, Entered(v, i, k, b), j, jdx) {
      if j < |v.ino| {
        AddrIs(v, j, jdx);
        if Addr(v, j, jdx) == Addr(v, i, NDIRECT) && Addr(v, j, jdx) != 0 { OnePosition(v, j, jdx, i, NDIRECT); }
      }
    }
  }

  // ---------------------------------------------------------------- bits of a block

  lemma ModMod(b: nat)
    ensures b % BPB % 8 == b % 8
  {
  }

  ghost predicate MarkedBelow(v: Disk, b: nat) { forall c :: 0 <= c < b && c < v.sb.size ==> Marked(v, c) }

  /** balloc looks at the bit of b + bi. */
  lemma BitIs(v: Disk, b: nat, bi: nat)
    requires Shape(v) && b % BPB == 0 && bi < BPB && b + bi < v.sb.size
    ensures BBlock(v.sb, b) < |v.blocks| && (Marked(v, b + bi) <==> Bit(v.blocks[BBlock(v.sb, b)][bi / 8], bi % 8))
    ensures MarkedBelow(v, b + bi) && Marked(v, b + bi) ==> MarkedBelow(v, b + bi + 1)
  {
    BitAt(b, bi);
  }

  lemma BitAt(b: nat, bi: nat)
    requires b % BPB == 0 && bi < BPB
    ensures (b + bi) / BPB == b / BPB && (b + bi) % BPB == bi && (b + bi) % 8 == bi % 8
  {
    var q := b / BPB;
    assert b == BPB * q;
    assert (b + bi) / BPB == q && (b + bi) % BPB == bi;
    ModMod(b + bi);
  }

  // ---------------------------------------------------------------- truncation

  /** The owners that are left when file i has given up its blocks. */
  ghost function Without(owner: map<nat, Pos>, i: nat): map<nat, Pos> {
    map b | b in owner && !(owner[b].At? && owner[b].inum == i) :: owner[b]
  }

  /** Only the bitmap differs. */
  ghost predicate SameData(v: Disk, w: Disk) {
    && w.sb == v.sb && |w.blocks| == |v.blocks| && forall b :: v.sb.nmeta <= b < |v.blocks| ==> w.blocks[b] == v.blocks[b]
  }

  lemma DroppedSame(v: Disk, b: nat)
    requires Good(v) && b < v.sb.size
    ensures SameData(v, Dropped(v, b))
  {
  }

  /** Blocks S of v, all of them file i's, have been freed; g is otherwise v with positions cleared. */
  ghost predicate Freeing(v: Disk, g: Disk, i: nat, S: set<nat>) {
    && Good(g) && SameData(v, g) && |g.ino| == |v.ino| && (forall j :: 0 <= j < |v.ino| && j != i ==> g.ino[j] == v.ino[j])
    && (forall b :: b in g.owner <==> b in v.owner && b !in S)
    && (forall b :: b in S ==> b in v.owner && v.owner[b].At? && v.owner[b].inum == i)
    && (forall b :: b in g.owner && g.owner[b] != v.owner[b] ==> v.owner[b].At? && v.owner[b].inum == i && g.owner[b] == Held)
  }

  /** One more direct block. */
  lemma FreeDirect(v: Disk, g: Disk, i: nat, S: set<nat>, idx: nat)
    requires Good(v) && Freeing(v, g, i, S) && i < |g.ino| && idx < NDIRECT && g.ino[i].addrs[idx] != 0
    ensures var b, l := g.ino[i].addrs[idx], Lifted(g, i, idx);
            Good(l) && b in l.owner && l.owner[b] == Held && b < g.sb.size && Freeing(v, Dropped(l, b), i, S + {b})
  {
    var b, l := g.ino[i].addrs[idx], Lifted(g, i, idx);
    LiftedGood(g, i, idx);
    AddrIs(g, i, idx);
    DroppedGood(l, b);
    DroppedSame(l, b);
  }

  /** The indirect block is let go of. */
  lemma FreeDetach(v: Disk, g: Disk, i: nat, S: set<nat>)
    requires Good(v) && Freeing(v, g, i, S) && i < |g.ino|
    ensures Freeing(v, Detached(g, i), i, S)
    ensures forall idx {:trigger Addr(g, i, idx)} :: NDIRECT <= idx <= MAXFILE && Addr(g, i, idx) != 0 ==>
              Addr(g, i, idx) in Detached(g, i).owner && Detached(g, i).owner[Addr(g, i, idx)] == Held
  {
    DetachedGood(g, i);
    forall idx | NDIRECT <= idx <= MAXFILE && Addr(g, i, idx) != 0
      ensures Addr(g, i, idx) in Detached(g, i).owner && Detached(g, i).owner[Addr(g, i, idx)] == Held
    {
      AddrIs(g, i, idx);
    }
  }

  lemma FreeHeld(v: Disk, g: Disk, i: nat, S: set<nat>, b: nat)
    requires Good(v) && Freeing(v, g, i, S) && b in g.owner && g.owner[b] == Held && v.owner[b] != Held && b < g.sb.size
    ensures Freeing(v, Dropped(g, b), i, S + {b})
  {
    DroppedGood(g, b);
    DroppedSame(g, b);
  }

  /** Entries from j on of the detached indirect block p are still to be freed, and p itself. */
  ghost predicate EntriesHeld(w: Disk, g: Disk, p: nat, j: nat, S: set<nat>) {
    && p < |w.blocks| && p in g.owner && g.owner[p] == Held
    && (forall k: nat {:trigger Word(w.blocks[p], k)} :: j <= k < NINDIRECT && Word(w.blocks[p], k) != 0 ==>
          Word(w.blocks[p], k) in g.owner && g.owner[Word(w.blocks[p], k)] == Held)
    && (forall k: nat {:trigger Word(w.blocks[p], k)} :: k < j && k < NINDIRECT && Word(w.blocks[p], k) != 0 ==> Word(w.blocks[p], k) in S)
  }

  /** In w, before the indirect block p of file i was detached, its entries were different blocks. */
  lemma EntriesApart(w: Disk, i: nat, p: nat, j: nat, k: nat)
    requires Good(w) && i < |w.ino| && p == w.ino[i].addrs[NDIRECT] && 0 < p < w.sb.size && j < NINDIRECT && k < NINDIRECT && j != k
    requires Word(w.blocks[p], j) != 0
    ensures Word(w.blocks[p], j) != Word(w.blocks[p], k) && Word(w.blocks[p], j) != p
    ensures Word(w.blocks[p], j) in w.owner && w.owner[Word(w.blocks[p], j)].At? && w.owner[Word(w.blocks[p], j)].inum == i
  {
    assert Addr(w, i, NDIRECT + 1 + j) == Word(w.blocks[p], j) && Addr(w, i, NDIRECT + 1 + k) == Word(w.blocks[p], k);
    AddrIs(w, i, NDIRECT + 1 + j);
    if Word(w.blocks[p], j) == Word(w.blocks[p], k) { OnePosition(w, i, NDIRECT + 1 + j, i, NDIRECT + 1 + k); }
    if Word(w.blocks[p], j) == p { OnePosition(w, i, NDIRECT + 1 + j, i, NDIRECT); }
  }

  lemma EntryFreed(w: Disk, g: Disk, i: nat, p: nat, j: nat, S: set<nat>)
    requires Good(w) && i < |w.ino| && p == w.ino[i].addrs[NDIRECT] && 0 < p < w.sb.size && j < NINDIRECT
    requires EntriesHeld(w, g, p, j, S)
    ensures var b := Word(w.blocks[p], j);
            if b == 0 then EntriesHeld(w, g, p, j + 1, S)
            else EntriesHeld(w, g.(owner := g.owner - {b}), p, j + 1, S + {b})
  {
    var b := Word(w.blocks[p], j);
    if b != 0 {
      EntriesApart(w, i, p, j, if j == 0 then 1 else 0);
      forall k: nat | j < k < NINDIRECT ensures Word(w.blocks[p], k) != b { EntriesApart(w, i, p, j, k); }
    }
  }

  /** When every position of file i is empty, exactly its blocks are gone. */
  lemma FreedAll(v: Disk, g: Disk, i: nat, S: set<nat>)
    requires Good(v) && Freeing(v, g, i, S) && i < |g.ino| && (forall idx: nat :: idx <= MAXFILE ==> Addr(g, i, idx) == 0)
    requires forall b :: b in g.owner ==> g.owner[b] == v.owner[b]
    ensures g.owner == Without(v.owner, i)
  {
    forall b | b in v.owner && v.owner[b].At? && v.owner[b].inum == i ensures b in S {
      OwnIs(v, b);
      if b in g.owner { OwnIs(g, b); }
    }
  }

  /** What is still allocated is still in the same use. */
  ghost predicate SameOwners(v: Disk, g: Disk) { forall b :: b in g.owner ==> b in v.owner && g.owner[b] == v.owner[b] }

  lemma WasEntry(w: Disk, i: nat, p: nat, b: nat)
    requires Good(w) && i < |w.ino| && p == w.ino[i].addrs[NDIRECT] && 0 < p < w.sb.size && b in w.owner
    requires forall k :: 0 <= k < NDIRECT ==> w.ino[i].addrs[k] == 0
    ensures b != 0 && (w.owner[b].At? && w.owner[b].inum == i ==>
              b == p || (NDIRECT < w.owner[b].idx <= MAXFILE && Word(w.blocks[p], w.owner[b].idx - NDIRECT - 1) == b))
  {
    OwnIs(w, b);
  }

  /** After the last entry nothing of file i is left. */
  lemma IndirectFreed(v: Disk, w: Disk, g: Disk, i: nat, p: nat, s: set<nat>, S: set<nat>)
    requires Good(v) && Good(w) && Freeing(v, w, i, s) && SameOwners(v, w) && Freeing(v, g, i, S) && s <= S && p in g.owner
    requires i < |w.ino| && p == w.ino[i].addrs[NDIRECT] && 0 < p < w.sb.size && EntriesHeld(w, g, p, NINDIRECT, S)
    requires forall k :: 0 <= k < NDIRECT ==> w.ino[i].addrs[k] == 0
    ensures g.owner[p] == Held && v.owner[p] != Held && p < g.sb.size
    ensures forall b :: b in g.owner && b != p ==> g.owner[b] == v.owner[b]
  {
    AddrIs(w, i, NDIRECT);
    forall b | b in g.owner && b != p ensures g.owner[b] == v.owner[b] {
      if b in w.owner { WasEntry(w, i, p, b); }
    }
  }

  // ---------------------------------------------------------------- bytes

  /** Bytes [off, off + k) of file i are those of src; every other byte of every file is as
      it was, and no size has changed yet. */
  ghost predicate Wrote(v: Disk, w: Disk, i: nat, off: nat, src: seq<Byte>, k: nat) {
    && k <= |src| && w.sb == v.sb && |w.ino| == |v.ino| && (forall j :: 0 <= j < |v.ino| ==> w.ino[j].size == v.ino[j].size)
    && (forall j: nat, o: nat {:trigger ByteOf(w, j, o)} {:trigger Mapped(w, j, o)} :: Mapped(v, j, o) ==>
          Mapped(w, j, o) && ByteOf(w, j, o) == if j == i && off <= o < off + k then src[o - off] else ByteOf(v, j, o))
    && (forall o: nat {:trigger ByteOf(w, i, o)} {:trigger Mapped(w, i, o)} :: off <= o < off + k ==>
          Mapped(w, i, o) && ByteOf(w, i, o) == src[o - off])
  }

  lemma ExtendsWrote(v: Disk, w: Disk, i: nat, off: nat, src: seq<Byte>)
    requires Good(v) && Extends(v, w, i)
    ensures Wrote(v, w, i, off, src, 0)
  {
    forall j: nat, o: nat | Mapped(v, j, o) ensures Mapped(w, j, o) && ByteOf(w, j, o) == ByteOf(v, j, o) {
      assert PosKept(v, w, j, Idx(o / BSIZE));
    }
  }

  function Patch(x: Block, at: nat, piece: seq<Byte>): Block
    requires at + |piece| <= BSIZE
  {
    x[..at] + piece + x[at + |piece|..]
  }

  /** Storing a piece inside file block at / BSIZE. */
  lemma PatchWrote(v: Disk, i: nat, at: nat, piece: seq<Byte>)
    requires Good(v) && i < |v.ino| && at / BSIZE < MAXFILE && at % BSIZE + |piece| <= BSIZE && Mapped(v, i, at)
    ensures var b := BlockOf(v, i, at / BSIZE); var w := v.(blocks := v.blocks[b := Patch(v.blocks[b], at % BSIZE, piece)]);
            Good(w) && (forall j: nat, jdx: nat :: Addr(w, j, jdx) == Addr(v, j, jdx)) && Wrote(v, w, i, at, piece, |piece|)
  {
    var b := BlockOf(v, i, at / BSIZE);
    var x := Patch(v.blocks[b], at % BSIZE, piece);
    var w := v.(blocks := v.blocks[b := x]);
    AddrIs(v, i, Idx(at / BSIZE));
    StoredGood(v, b, x);
    forall j: nat, o: nat | Mapped(v, j, o)
      ensures Mapped(w, j, o) && ByteOf(w, j, o) == if j == i && at <= o < at + |piece| then piece[o - at] else ByteOf(v, j, o)
    {
      PatchByte(v, i, at, piece, j, o);
    }
    forall o: nat | at <= o < at + |piece| ensures Mapped(w, i, o) && ByteOf(w, i, o) == piece[o - at] {
      SameBlock(at, o);
      PatchByte(v, i, at, piece, i, o);
    }
  }

  lemma SameBlock(at: nat, o: nat)
    requires at <= o && at % BSIZE + (o - at) < BSIZE
    ensures o / BSIZE == at / BSIZE && o % BSIZE == at % BSIZE + (o - at)
  {
  }

  lemma PatchByte(v: Disk, i: nat, at: nat, piece: seq<Byte>, j: nat, o: nat)
    requires Good(v) && i < |v.ino| && at / BSIZE < MAXFILE && at % BSIZE + |piece| <= BSIZE && Mapped(v, i, at) && Mapped(v, j, o)
    ensures var b := BlockOf(v, i, at / BSIZE); var w := v.(blocks := v.blocks[b := Patch(v.blocks[b], at % BSIZE, piece)]);
            BlockOf(w, j, o / BSIZE) == BlockOf(v, j, o / BSIZE) ==>
              Mapped(w, j, o) && ByteOf(w, j, o) == if j == i && at <= o < at + |piece| then piece[o - at] else ByteOf(v, j, o)
  {
    if j == i && at <= o < at + |piece| { SameBlock(at, o); }
    if BlockOf(v, j, o / BSIZE) == BlockOf(v, i, at / BSIZE) {
      OnePosition(v, j, Idx(o / BSIZE), i, Idx(at / BSIZE));
      assert o / BSIZE == at / BSIZE;
    }
  }

  /** Two writes in a row, the second starting where the first ended. */
  lemma WroteTwice(v: Disk, w: Disk, x: Disk, i: nat, off: nat, src: seq<Byte>, k: nat, m: nat)
    requires Wrote(v, w, i, off, src, k) && k + m <= |src| && Wrote(w, x, i, off + k, src[k..k + m], m)
    ensures Wrote(v, x, i, off, src, k + m)
  {
    forall j: nat, o: nat | Mapped(v, j, o)
      ensures Mapped(x, j, o) && ByteOf(x, j, o) == if j == i && off <= o < off + k + m then src[o - off] else ByteOf(v, j, o)
    {
      assert Mapped(w, j, o);
    }
    forall o: nat | off <= o < off + k + m ensures Mapped(x, i, o) && ByteOf(x, i, o) == src[o - off] {
      if o < off + k { assert Mapped(w, i, o); } else { assert Mapped(x, i, o); }
    }
  }

  /** After a write and the size update, the file is the old one with the data written at off. */
  lemma WroteContent(v: Disk, w: Disk, i: nat, off: nat, src: seq<Byte>, k: nat, size: nat)
    requires Good(w) && Wrote(v, w, i, off, src, k) && i < |v.ino| && Full(v, i) && off <= v.ino[i].size && off + k <= MAXFILE * BSIZE
    requires size == if off + k > v.ino[i].size then off + k else v.ino[i].size
    ensures Content(Sized(w, i, size), i) == WriteAt(Content(v, i), off, src[..k]) && Full(Sized(w, i, size), i)
  {
    var x := Sized(w, i, size);
    SizedSame(w, i, size);
    forall o: nat | o < size ensures Mapped(x, i, o) && ByteOf(x, i, o) == WriteAt(Content(v, i), off, src[..k])[o] {
      if off <= o < off + k { assert Mapped(w, i, o); }
      else { assert Mapped(v, i, o); assert Mapped(w, i, o); }
    }
  }

  lemma SizedFull(w: Disk, i: nat, n: nat)
    requires Good(w) && i < |w.ino| && FullDisk(w)
    ensures FullDisk(Sized(w, i, n))
  {
    SizedGood(w, i, n);
    forall c | 0 <= c < w.sb.size ensures Marked(Sized(w, i, n), c) { assert Marked(w, c); }
  }

  lemma SizedSame(w: Disk, i: nat, n: nat)
    requires Good(w) && i < |w.ino|
    ensures forall j: nat, o: nat :: Mapped(Sized(w, i, n), j, o) == Mapped(w, j, o) && ByteOf(Sized(w, i, n), j, o) == ByteOf(w, j, o)
  {
    var x := Sized(w, i, n);
    SizedGood(w, i, n);
    forall j: nat, o: nat ensures Mapped(x, j, o) == Mapped(w, j, o) && ByteOf(x, j, o) == ByteOf(w, j, o) {
      assert BlockOf(x, j, o / BSIZE) == BlockOf(w, j, o / BSIZE);
    }
  }

  lemma WroteOther(v: Disk, w: Disk, i: nat, off: nat, src: seq<Byte>, k: nat, size: nat, j: nat)
    requires Good(w) && Wrote(v, w, i, off, src, k) && i < |v.ino| && j < |v.ino| && j != i && Full(v, j)
    ensures Content(Sized(w, i, size), j) == Content(v, j) && Full(Sized(w, i, size), j)
  {
    var x := Sized(w, i, size);
    SizedSame(w, i, size);
    forall o: nat | o < v.ino[j].size ensures Mapped(x, j, o) && ByteOf(x, j, o) == ByteOf(v, j, o) {
      assert Mapped(v, j, o);
      assert Mapped(w, j, o);
    }
  }

  /** File i's addresses, once there, stay. */
  ghost predicate AddrsKept(v: Disk, w: Disk, i: nat) {
    forall jdx: nat :: jdx <= MAXFILE && Addr(v, i, jdx) != 0 ==> Addr(w, i, jdx) == Addr(v, i, jdx)
  }

  /** The image that mkfs writes before it adds files is a disk to start from. */
  lemma FreshDisk(v: Disk)
    requires Shape(v) && v.sb.nmeta < BPB && v.owner == map[]
    requires forall k: nat :: k < BPB ==> (Bit(v.blocks[v.sb.bmapstart][k / 8], k % 8) <==> k < v.sb.nmeta)
    requires forall x :: v.sb.bmapstart < x <= v.sb.bmapstart + (v.sb.size - 1) / BPB ==> v.blocks[x] == Zero()
    requires forall i, k :: 0 <= i < |v.ino| && 0 <= k <= NDIRECT ==> v.ino[i].addrs[k] == 0
    requires forall i :: 0 <= i < |v.ino| ==> v.ino[i].size == 0
    ensures Good(v) && AllFull(v)
  {
    FreshGood(v);
    forall j | 0 <= j < |v.ino| ensures Full(v, j) { }
  }

  lemma WholePiece(v: Disk, w: Disk, x: Disk, i: nat, at: nat, piece: seq<Byte>)
    requires Wrote(v, w, i, at, piece, 0) && Wrote(w, x, i, at, piece, |piece|)
    ensures Wrote(v, x, i, at, piece, |piece|)
  {
    assert piece[0..0 + |piece|] == piece;
    WroteTwice(v, w, x, i, at, piece, 0, |piece|);
  }

  ghost predicate AllFull(v: Disk) { forall j {:trigger Full(v, j)} :: 0 <= j < |v.ino| ==> Full(v, j) }

  /** The end of the range of file blocks that n bytes at off touch. */
  function End(off: nat, n: nat): nat { if n == 0 then off / BSIZE else (off + n - 1) / BSIZE + 1 }

  lemma InSpan(off: nat, n: nat, k: nat)
    requires k < n
    ensures off / BSIZE <= (off + k) / BSIZE < End(off, n)
  {
  }

  lemma BelowMax(at: nat)
    requires at < MAXFILE * BSIZE
    ensures at / BSIZE < MAXFILE
  {
  }

  /** writei and readi refuse these: past the end, wrapping around, and (writei) too large. */
  predicate BadWrite(off: nat, n: nat, size: nat) { off > size || off + n >= WORD || off + n > MAXFILE * BSIZE }

  predicate BadRead(off: nat, n: nat, size: nat) { off > size || off + n >= WORD }

  function Min(a: nat, b: nat): nat { if a < b then a else b }

  /** The flat effect of a write of k bytes on every file. */
  ghost predicate FilesAfter(v: Disk, w: Disk, i: nat, off: nat, src: seq<Byte>, k: nat) {
    && |w.ino| == |v.ino| && i < |v.ino| && k <= |src| && off <= v.ino[i].size && Content(w, i) == WriteAt(Content(v, i), off, src[..k])
    && forall j :: 0 <= j < |v.ino| && j != i ==> Content(w, j) == Content(v, j)
  }

  /** What readi returns. */
  function ReadOf(v: Disk, i: nat, off: nat, count: nat): seq<Byte>
    requires i < |v.ino|
  {
    if BadRead(off, count, v.ino[i].size) then [] else Content(v, i)[off..off + Min(count, v.ino[i].size - off)]
  }

  lemma SliceInside(c: seq<Byte>, off: nat, data: seq<Byte>, at: nat, n: nat)
    requires off <= at && at + n <= off + |data| && off <= |c|
    ensures at + n <= |WriteAt(c, off, data)| && WriteAt(c, off, data)[at..at + n] == data[at - off..at - off + n]
  {
  }

  lemma SliceOutside(c: seq<Byte>, off: nat, data: seq<Byte>, at: nat, n: nat)
    requires off <= |c| && at + n <= |c| && (at + n <= off || off + |data| <= at)
    ensures at + n <= |WriteAt(c, off, data)| && WriteAt(c, off, data)[at..at + n] == c[at..at + n]
  {
  }

  lemma ReadWhole(v: Disk, i: nat, at: nat, n: nat)
    requires i < |v.ino| && at + n < WORD && at + n <= v.ino[i].size
    ensures ReadOf(v, i, at, n) == Content(v, i)[at..at + n]
  {
  }

  /** writei and then readi: inside what was written the data comes back; outside it, and in
      every other file, what was there before. */
  lemma ReadAfterWrite(v: Disk, w: Disk, i: nat, off: nat, src: seq<Byte>, k: nat, at: nat, n: nat)
    requires FilesAfter(v, w, i, off, src, k) && at + n < WORD
    ensures off <= at && at + n <= off + k ==> ReadOf(w, i, at, n) == src[at - off..at - off + n]
    ensures at + n <= v.ino[i].size && (at + n <= off || off + k <= at) ==> ReadOf(w, i, at, n) == ReadOf(v, i, at, n)
  {
    var c := Content(v, i);
    if off <= at && at + n <= off + k {
      SliceInside(c, off, src[..k], at, n);
      ReadWhole(w, i, at, n);
    }
    if at + n <= v.ino[i].size && (at + n <= off || off + k <= at) {
      SliceOutside(c, off, src[..k], at, n);
      ReadWhole(v, i, at, n);
      ReadWhole(w, i, at, n);
    }
  }

  lemma ReadElsewhere(v: Disk, w: Disk, i: nat, off: nat, src: seq<Byte>, k: nat, j: nat, at: nat, n: nat)
    requires FilesAfter(v, w, i, off, src, k) && j < |v.ino| && j != i
    ensures ReadOf(w, j, at, n) == ReadOf(v, j, at, n)
  {
    assert |Content(w, j)| == |Content(v, j)|;
  }

  lemma WroteFiles(v: Disk, w: Disk, i: nat, off: nat, src: seq<Byte>, k: nat, size: nat)
    requires Good(w) && AllFull(v) && Wrote(v, w, i, off, src, k) && i < |v.ino| && off <= v.ino[i].size && off + k <= MAXFILE * BSIZE
    requires size == if off + k > v.ino[i].size then off + k else v.ino[i].size
    ensures FilesAfter(v, Sized(w, i, size), i, off, src, k) && AllFull(Sized(w, i, size))
  {
    assert Full(v, i);
    WroteContent(v, w, i, off, src, k, size);
    forall j | 0 <= j < |v.ino| && j != i ensures Content(Sized(w, i, size), j) == Content(v, j) && Full(Sized(w, i, size), j) {
      assert Full(v, j);
      WroteOther(v, w, i, off, src, k, size, j);
    }
  }

  // ---------------------------------------------------------------- whole transactions

  /** filewrite's largest chunk. */
  const CHUNK := (Journal.MAXOPBLOCKS - 1 - 1 - 2) / 2 * BSIZE

  /** What filewrite has done after k bytes: nothing when it starts past the end of the file. */
  ghost predicate FileEffect(v: Disk, w: Disk, i: nat, off: nat, src: seq<Byte>, k: nat) {
    i < |v.ino| && if off <= v.ino[i].size then FilesAfter(v, w, i, off, src, k) else k == 0 && w == v
  }

  /** The result r of one chunk at off. */
  ghost predicate ChunkDone(w: Disk, x: Disk, i: nat, off: nat, piece: seq<Byte>, r: int) {
    && i < |w.ino| && (r == -1 <==> BadWrite(off, |piece|, w.ino[i].size)) && r <= |piece|
    && if r == -1 then x == w else 0 <= r && FilesAfter(w, x, i, off, piece, r)
  }

  lemma EffectNext(v: Disk, w: Disk, x: Disk, i: nat, off: nat, src: seq<Byte>, k: nat, m: nat, at: nat, piece: seq<Byte>, r: int, l: nat)
    requires at == off + k && l == (if r > 0 then k + r else k) && k + m <= |src| && piece == src[k..k + m]
    requires FileEffect(v, w, i, off, src, k) && ChunkDone(w, x, i, at, piece, r)
    ensures FileEffect(v, x, i, off, src, l) && r <= m && (r >= 0 ==> off + k + m < WORD)
  {
    if off > v.ino[i].size {
      assert BadWrite(off + k, m, w.ino[i].size);
    } else if r >= 0 {
      FilesTwice(v, w, x, i, off, src, k, m, r);
    }
  }

  lemma Wraps(off: nat, n: nat)
    requires off < WORD && n < WORD
    ensures (off + n) % WORD < off <==> off + n >= WORD
    ensures off + n < WORD ==> (off + n) % WORD == off + n
  {
  }

  /** Writing in chunks is writing at once. */
  lemma WriteAtTwice(c: seq<Byte>, off: nat, a: seq<Byte>, b: seq<Byte>)
    requires off <= |c|
    ensures off + |a| <= |WriteAt(c, off, a)| && WriteAt(WriteAt(c, off, a), off + |a|, b) == WriteAt(c, off, a + b)
  {
  }

  lemma FilesTwice(v: Disk, w: Disk, x: Disk, i: nat, off: nat, src: seq<Byte>, k: nat, m: nat, r: nat)
    requires FilesAfter(v, w, i, off, src, k) && k + m <= |src| && r <= m && FilesAfter(w, x, i, off + k, src[k..k + m], r)
    ensures FilesAfter(v, x, i, off, src, k + r)
  {
    WriteAtTwice(Content(v, i), off, src[..k], src[k..k + r]);
    assert src[k..k + m][..r] == src[k..k + r] && src[..k] + src[k..k + r] == src[..k + r];
  }

  lemma FilesSame(v: Disk, i: nat, off: nat, src: seq<Byte>)
    requires i < |v.ino| && off <= v.ino[i].size
    ensures FilesAfter(v, v, i, off, src, 0)
  {
    assert WriteAt(Content(v, i), off, src[..0]) == Content(v, i);
  }

  // ---------------------------------------------------------------- details of truncation and of one piece

  /** A failed turn writes nothing more. */
  lemma NothingMore(v: Disk, w: Disk, x: Disk, i: nat, off: nat, src: seq<Byte>, k: nat, m: nat)
    requires Wrote(v, w, i, off, src, k) && k + m <= |src| && Wrote(w, x, i, off + k, src[k..k + m], 0)
    ensures Wrote(v, x, i, off, src, k)
  {
    forall j: nat, o: nat | Mapped(v, j, o)
      ensures Mapped(x, j, o) && ByteOf(x, j, o) == if j == i && off <= o < off + k then src[o - off] else ByteOf(v, j, o)
    {
      assert Mapped(w, j, o);
    }
    forall o: nat | off <= o < off + k ensures Mapped(x, i, o) && ByteOf(x, i, o) == src[o - off] { assert Mapped(w, i, o); }
  }

  /** A piece of one block is the same piece of the file. */
  lemma ReadPiece(v: Disk, i: nat, at: nat, m: nat)
    requires Good(v) && i < |v.ino| && Full(v, i) && at + m <= v.ino[i].size && at % BSIZE + m <= BSIZE && Mapped(v, i, at)
    ensures v.blocks[BlockOf(v, i, at / BSIZE)][at % BSIZE..at % BSIZE + m] == Content(v, i)[at..at + m]
  {
    var a, c := v.blocks[BlockOf(v, i, at / BSIZE)][at % BSIZE..at % BSIZE + m], Content(v, i)[at..at + m];
    forall k | 0 <= k < m ensures a[k] == c[k] {
      SameBlock(at, at + k);
      assert Mapped(v, i, at + k);
    }
  }

  lemma Joined(c: seq<Byte>, off: nat, tot: nat, m: nat)
    requires off + tot + m <= |c|
    ensures c[off..off + tot] + c[off + tot..off + tot + m] == c[off..off + tot + m]
  {
  }

  lemma Detaching(w: Disk, i: nat, p: nat, S: set<nat>)
    requires Good(w) && i < |w.ino| && p == w.ino[i].addrs[NDIRECT] && 0 < p < w.sb.size
    ensures EntriesHeld(w, Detached(w, i), p, 0, S)
  {
    AddrIs(w, i, NDIRECT);
    forall k: nat | k < NINDIRECT && Word(w.blocks[p], k) != 0
      ensures Word(w.blocks[p], k) in Detached(w, i).owner && Detached(w, i).owner[Word(w.blocks[p], k)] == Held
    {
      assert Addr(w, i, NDIRECT + 1 + k) == Word(w.blocks[p], k);
      AddrIs(w, i, NDIRECT + 1 + k);
    }
  }

  /** An entry of the indirect block was file i's block all along. */
  lemma EntryMine(v: Disk, w: Disk, i: nat, s: set<nat>, p: nat, j: nat)
    requires Good(v) && Good(w) && Freeing(v, w, i, s) && i < |w.ino| && p == w.ino[i].addrs[NDIRECT] && 0 < p < w.sb.size
    requires j < NINDIRECT && Word(w.blocks[p], j) != 0
    ensures Word(w.blocks[p], j) in v.owner && v.owner[Word(w.blocks[p], j)] != Held
  {
    EntriesApart(w, i, p, j, if j == 0 then 1 else 0);
  }

  /** Truncation clears exactly the bits of the file's blocks. */
  lemma FreesExactly(v: Disk, w: Disk, i: nat, b: nat)
    requires Good(v) && Good(w) && w.sb == v.sb && w.owner == Without(v.owner, i) && b < v.sb.size
    ensures Marked(w, b) <==> Marked(v, b) && !(b in v.owner && v.owner[b].At? && v.owner[b].inum == i)
  {
    assert BitOk(v, b) && BitOk(w, b);
    if b in v.owner { OwnIs(v, b); }
  }

  /** and leaves every other file as it was. */
  lemma TruncKeepsOthers(v: Disk, w: Disk, i: nat, j: nat)
    requires Good(v) && Good(w) && SameData(v, w) && |w.ino| == |v.ino| && j < |v.ino| && j != i && w.ino[j] == v.ino[j] && Full(v, j)
    ensures Content(w, j) == Content(v, j) && Full(w, j)
  {
    AddrIs(v, j, NDIRECT);
    forall o: nat | o < v.ino[j].size ensures Mapped(w, j, o) && ByteOf(w, j, o) == ByteOf(v, j, o) {
      assert Mapped(v, j, o);
      AddrIs(v, j, Idx(o / BSIZE));
    }
  }
}
