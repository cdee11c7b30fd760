/** Which blocks a write hands to log_write, how many they can be, and when that is more than
    the log can promise (fs.c, file.c). */
module Transactions {
  import opened Blocks
  import opened Files
  import Sets

  // ---------------------------------------------------------------- what a write logs

  function IBlock(sb: Super, i: nat): nat { i / IPB + sb.inodestart }

  /** The inode's block lies in the inode area, below the bitmap. */
  lemma InodeArea(v: Disk, i: nat)
    requires Shape(v) && i < |v.ino|
    ensures v.sb.inodestart <= IBlock(v.sb, i) < v.sb.bmapstart
  {
  }

  /** Block k of the area holds IPB consecutive inodes, and each inode is in one block. */
  lemma InodeSlots(sb: Super, i: nat, k: nat)
    ensures IBlock(sb, i) == sb.inodestart + k <==> k * IPB <= i < k * IPB + IPB
  {
  }

  predicate NewBlock(v: Disk, w: Disk, b: nat) { b in w.owner && b !in v.owner }

  /** x is the bitmap block of a block allocated between v and w. */
  ghost predicate NewMap(v: Disk, w: Disk, x: nat) { exists b: nat {:trigger NewBlock(v, w, b)} :: NewBlock(v, w, b) && x == BBlock(w.sb, b) }

  /** x is a block that a write to file blocks [lo, hi) of file i may log: the inode's, the
      bitmap block of a new block, the indirect block, or a data block of the range. */
  ghost predicate InTx(v: Disk, w: Disk, i: nat, lo: nat, hi: nat, x: nat) {
    || x == IBlock(w.sb, i) || NewMap(v, w, x) || (x != 0 && x == Addr(w, i, NDIRECT))
    || exists bn {:trigger BlockOf(w, i, bn)} :: lo <= bn < hi && x != 0 && x == BlockOf(w, i, bn)
  }

  /** Position idx is that of a file block in [lo, hi), or of the indirect block if it is used there. */
  predicate InRange(idx: nat, lo: nat, hi: nat) {
    (idx == NDIRECT && NDIRECT < hi) || (idx != NDIRECT && idx <= MAXFILE && lo <= (if idx < NDIRECT then idx else idx - 1) < hi)
  }

  /** Every data block below b is in use. */
  ghost predicate LowTaken(w: Disk, b: nat) { forall c: nat :: w.sb.nmeta <= c < b ==> c in w.owner }

  /** A new block belongs to an empty position of the range, it and its bitmap block are logged, and
      it was the first free one. */
  ghost predicate NewOk(v: Disk, w: Disk, i: nat, lo: nat, hi: nat, logged: set<nat>, b: nat) {
    && b in w.owner && w.owner[b].At? && w.owner[b].inum == i && InRange(w.owner[b].idx, lo, hi)
    && Addr(v, i, w.owner[b].idx) == 0 && b in logged && BBlock(w.sb, b) in logged && LowTaken(w, b)
  }

  /** Between v and w, writing to file blocks [lo, hi) of file i has allocated blocks for empty
      positions only, and has logged what that takes and nothing else beyond L. */
  ghost predicate Tx(L: set<nat>, v: Disk, w: Disk, i: nat, lo: nat, hi: nat, logged: set<nat>) {
    && w.sb == v.sb && L <= logged && AddrsKept(v, w, i)
    && (forall b :: b in v.owner ==> b in w.owner && w.owner[b] == v.owner[b])
    && (forall b {:trigger NewBlock(v, w, b)} :: NewBlock(v, w, b) ==> NewOk(v, w, i, lo, hi, logged, b))
    && (forall x {:trigger InTx(v, w, i, lo, hi, x)} :: x in logged ==> x in L || InTx(v, w, i, lo, hi, x))
  }

  lemma TxSelf(L: set<nat>, v: Disk, i: nat, lo: nat, hi: nat)
    ensures Tx(L, v, v, i, lo, hi, L)
  {
  }

  /** Addresses and owners as before, and one more logged block that belongs there. */
  lemma TxMore(L: set<nat>, v: Disk, w: Disk, x: Disk, i: nat, lo: nat, hi: nat, logged: set<nat>, y: nat)
    requires Tx(L, v, w, i, lo, hi, logged) && x.sb == w.sb && x.owner == w.owner && InTx(v, x, i, lo, hi, y)
    requires forall jdx: nat :: Addr(x, i, jdx) == Addr(w, i, jdx)
    ensures Tx(L, v, x, i, lo, hi, logged + {y})
  {
    forall b | NewBlock(v, x, b) ensures NewOk(v, x, i, lo, hi, logged + {y}, b) { assert NewBlock(v, w, b); }
    forall z | z in logged + {y} ensures z in L || InTx(v, x, i, lo, hi, z) {
      if z != y && z !in L {
        assert InTx(v, w, i, lo, hi, z);
        InTxSame(v, w, x, i, lo, hi, z);
      }
    }
  }

  lemma InTxSame(v: Disk, w: Disk, x: Disk, i: nat, lo: nat, hi: nat, z: nat)
    requires InTx(v, w, i, lo, hi, z) && x.sb == w.sb && (forall b :: b in w.owner ==> b in x.owner) && AddrsKept(w, x, i)
    ensures InTx(v, x, i, lo, hi, z)
  {
    if NewMap(v, w, z) {
      var b: nat :| NewBlock(v, w, b) && z == BBlock(w.sb, b);
      assert NewBlock(v, x, b);
    } else if z != IBlock(w.sb, i) && z != Addr(w, i, NDIRECT) {
      var bn :| lo <= bn < hi && z != 0 && z == BlockOf(w, i, bn);
      assert BlockOf(x, i, bn) == z;
    }
  }

  lemma InTxWiden(v: Disk, w: Disk, x: Disk, i: nat, lo: nat, hi: nat, from: nat, to: nat, z: nat)
    requires InTx(w, x, i, from, to, z) && lo <= from && to <= hi && forall b :: b in v.owner ==> b in w.owner
    ensures InTx(v, x, i, lo, hi, z)
  {
    if NewMap(w, x, z) {
      var b: nat :| NewBlock(w, x, b) && z == BBlock(x.sb, b);
      assert NewBlock(v, x, b);
    }
  }

  /** One write after another, the second within the range of the first. */
  lemma TxTwice(L: set<nat>, v: Disk, w: Disk, x: Disk, i: nat, lo: nat, hi: nat, from: nat, to: nat, mid: set<nat>, logged: set<nat>)
    requires Tx(L, v, w, i, lo, hi, mid) && Tx(mid, w, x, i, from, to, logged) && lo <= from && to <= hi
    ensures Tx(L, v, x, i, lo, hi, logged)
  {
    forall b | NewBlock(v, x, b) ensures NewOk(v, x, i, lo, hi, logged, b) {
      if b in w.owner { assert NewBlock(v, w, b); } else { assert NewBlock(w, x, b); }
    }
    forall z | z in logged ensures z in L || InTx(v, x, i, lo, hi, z) {
      if z in mid && z !in L {
        assert InTx(v, w, i, lo, hi, z);
        InTxSame(v, w, x, i, lo, hi, z);
      } else if z !in L {
        assert InTx(w, x, i, from, to, z);
        InTxWiden(v, w, x, i, lo, hi, from, to, z);
      }
    }
  }

  lemma FirstFit(v: Disk, w: Disk, b: nat)
    requires Good(v) && w.sb == v.sb && b < v.sb.size && MarkedBelow(v, b) && forall c :: c in v.owner ==> c in w.owner
    ensures LowTaken(w, b)
  {
    forall c: nat | w.sb.nmeta <= c < b ensures c in w.owner { assert BitOk(v, c); }
  }

  /** balloc for an entry of addrs. */
  lemma PlacedTx(L: set<nat>, v: Disk, i: nat, idx: nat, b: nat, lo: nat, hi: nat)
    requires Good(v) && i < |v.ino| && idx <= NDIRECT && Addr(v, i, idx) == 0 && 0 < b < v.sb.size && !Marked(v, b)
    requires InRange(idx, lo, hi) && MarkedBelow(v, b)
    ensures Tx(L, v, Placed(Claimed(v, b), i, idx, b), i, lo, hi, L + {BBlock(v.sb, b), b})
  {
    var c := Claimed(v, b);
    var w := Placed(c, i, idx, b);
    ClaimedGood(v, b);
    PlacedGood(c, i, idx, b);
    FirstFit(v, w, b);
    forall d | NewBlock(v, w, d) ensures NewOk(v, w, i, lo, hi, L + {BBlock(v.sb, b), b}, d) { assert d == b; }
    assert NewBlock(v, w, b) && Addr(w, i, idx) == b;
    assert InTx(v, w, i, lo, hi, BBlock(v.sb, b));
    assert idx < NDIRECT ==> BlockOf(w, i, idx) == b;
    assert InTx(v, w, i, lo, hi, b);
  }

  /** balloc for an entry of the indirect block. */
  lemma EnteredTx(L: set<nat>, v: Disk, i: nat, k: nat, b: nat, lo: nat, hi: nat)
    requires Good(v) && i < |v.ino| && k < NINDIRECT && 0 < v.ino[i].addrs[NDIRECT] < v.sb.size
    requires Addr(v, i, NDIRECT + 1 + k) == 0 && 0 < b < v.sb.size && !Marked(v, b) && lo <= NDIRECT + k < hi
    requires MarkedBelow(v, b)
    ensures Tx(L, v, Entered(Claimed(v, b), i, k, b), i, lo, hi, L + {BBlock(v.sb, b), b, v.ino[i].addrs[NDIRECT]})
  {
    var c, p := Claimed(v, b), v.ino[i].addrs[NDIRECT];
    var w, idx := Entered(c, i, k, b), NDIRECT + 1 + k;
    var logged := L + {BBlock(v.sb, b), b, p};
    ClaimedGood(v, b);
    EnteredGood(c, i, k, b);
    FirstFit(v, w, b);
    forall d | NewBlock(v, w, d) ensures NewOk(v, w, i, lo, hi, logged, d) { assert d == b; }
    assert NewBlock(v, w, b) && BlockOf(w, i, NDIRECT + k) == b;
    assert InTx(v, w, i, lo, hi, BBlock(v.sb, b)) && InTx(v, w, i, lo, hi, b);
    assert Addr(w, i, NDIRECT) == p && InTx(v, w, i, lo, hi, p);
  }

  /** The data blocks of [lo, hi) are there and logged. */
  ghost predicate DataLogged(w: Disk, i: nat, lo: nat, hi: nat, logged: set<nat>) {
    forall bn {:trigger BlockOf(w, i, bn)} :: lo <= bn < hi ==> BlockOf(w, i, bn) != 0 && BlockOf(w, i, bn) in logged
  }

  lemma DataKept(w: Disk, x: Disk, i: nat, lo: nat, hi: nat, mid: set<nat>, logged: set<nat>)
    requires DataLogged(w, i, lo, hi, mid) && AddrsKept(w, x, i) && mid <= logged
    ensures DataLogged(x, i, lo, hi, logged)
  {
    forall bn | lo <= bn < hi ensures BlockOf(x, i, bn) != 0 && BlockOf(x, i, bn) in logged {
      assert BlockOf(w, i, bn) != 0;
    }
  }

  /** A piece inside one file block brings the end of the data to just after that block. */
  lemma DataNext(w: Disk, i: nat, off: nat, tot: nat, m: nat, logged: set<nat>)
    requires DataLogged(w, i, off / BSIZE, End(off, tot), logged) && 0 < m && (off + tot) % BSIZE + m <= BSIZE
    requires BlockOf(w, i, (off + tot) / BSIZE) != 0 && BlockOf(w, i, (off + tot) / BSIZE) in logged
    ensures DataLogged(w, i, off / BSIZE, End(off, tot + m), logged)
  {
    SameBlock(off + tot, off + tot + m - 1);
  }

  lemma PieceRange(off: nat, n: nat, tot: nat, at: nat, m: nat)
    requires tot < n && off + n <= MAXFILE * BSIZE && at == off + tot && m == Min(n - tot, BSIZE - at % BSIZE)
    ensures at / BSIZE < MAXFILE && at % BSIZE + m <= BSIZE && 0 < m <= n - tot
    ensures off / BSIZE <= at / BSIZE < End(off, n)
  {
    BelowMax(at);
    InSpan(off, n, tot);
  }

  /** One turn of writei's loop, from w to x, after tot bytes: the bytes, and what is logged. */
  lemma PieceBytes(v: Disk, w: Disk, x: Disk, i: nat, off: nat, src: seq<Byte>, tot: nat, at: nat, piece: seq<Byte>, ok: bool)
    requires at == off + tot && tot + |piece| <= |src| && piece == src[tot..tot + |piece|]
    requires Wrote(v, w, i, off, src, tot) && Wrote(w, x, i, at, piece, if ok then |piece| else 0)
    ensures Wrote(v, x, i, off, src, if ok then tot + |piece| else tot)
  {
    if ok { WroteTwice(v, w, x, i, off, src, tot, |piece|); } else { NothingMore(v, w, x, i, off, src, tot, |piece|); }
  }

  lemma PieceLogs(L: set<nat>, v: Disk, w: Disk, x: Disk, i: nat, off: nat, n: nat, tot: nat, at: nat, m: nat, mid: set<nat>, logged: set<nat>, ok: bool)
    requires at == off + tot && 0 < m && at % BSIZE + m <= BSIZE && off / BSIZE <= at / BSIZE < End(off, n)
    requires Tx(L, v, w, i, off / BSIZE, End(off, n), mid) && Tx(mid, w, x, i, at / BSIZE, at / BSIZE + 1, logged)
    requires DataLogged(w, i, off / BSIZE, End(off, tot), mid)
    requires ok ==> BlockOf(x, i, at / BSIZE) != 0 && BlockOf(x, i, at / BSIZE) in logged
    ensures Tx(L, v, x, i, off / BSIZE, End(off, n), logged)
    ensures DataLogged(x, i, off / BSIZE, End(off, if ok then tot + m else tot), logged)
  {
    TxTwice(L, v, w, x, i, off / BSIZE, End(off, n), at / BSIZE, at / BSIZE + 1, mid, logged);
    DataKept(w, x, i, off / BSIZE, End(off, tot), mid, logged);
    if ok { DataNext(x, i, off, tot, m, logged); }
  }

  /** Writing src at off has got as far as tot bytes: the bytes, and what is logged. */
  ghost predicate Progress(L: set<nat>, v: Disk, w: Disk, i: nat, off: nat, src: seq<Byte>, tot: nat, logged: set<nat>) {
    && tot <= |src| && Wrote(v, w, i, off, src, tot) && Tx(L, v, w, i, off / BSIZE, End(off, |src|), logged)
    && DataLogged(w, i, off / BSIZE, End(off, tot), logged)
  }

  lemma PieceDone(L: set<nat>, v: Disk, w: Disk, x: Disk, i: nat, off: nat, src: seq<Byte>, tot: nat, at: nat, piece: seq<Byte>, mid: set<nat>, logged: set<nat>, ok: bool)
    requires Progress(L, v, w, i, off, src, tot, mid) && at == off + tot && tot + |piece| <= |src| && piece == src[tot..tot + |piece|]
    requires 0 < |piece| && at % BSIZE + |piece| <= BSIZE && off / BSIZE <= at / BSIZE < End(off, |src|)
    requires Wrote(w, x, i, at, piece, if ok then |piece| else 0) && Tx(mid, w, x, i, at / BSIZE, at / BSIZE + 1, logged)
    requires ok ==> BlockOf(x, i, at / BSIZE) != 0 && BlockOf(x, i, at / BSIZE) in logged
    ensures Progress(L, v, x, i, off, src, if ok then tot + |piece| else tot, logged)
  {
    PieceBytes(v, w, x, i, off, src, tot, at, piece, ok);
    PieceLogs(L, v, w, x, i, off, |src|, tot, at, |piece|, mid, logged, ok);
  }

  /** The new size and iupdate change no address and log the inode's block. */
  lemma TxInode(L: set<nat>, v: Disk, w: Disk, x: Disk, i: nat, off: nat, n: nat, tot: nat, logged: set<nat>)
    requires Tx(L, v, w, i, off / BSIZE, End(off, n), logged) && DataLogged(w, i, off / BSIZE, End(off, tot), logged)
    requires x.sb == w.sb && x.owner == w.owner && forall jdx: nat :: Addr(x, i, jdx) == Addr(w, i, jdx)
    ensures Tx(L, v, x, i, off / BSIZE, End(off, n), logged + {IBlock(x.sb, i)})
    ensures DataLogged(x, i, off / BSIZE, End(off, tot), logged + {IBlock(x.sb, i)})
    ensures forall bn :: BlockOf(x, i, bn) == BlockOf(w, i, bn)
  {
    assert InTx(v, x, i, off / BSIZE, End(off, n), IBlock(x.sb, i));
    TxMore(L, v, w, x, i, off / BSIZE, End(off, n), logged, IBlock(x.sb, i));
    DataKept(w, x, i, off / BSIZE, End(off, tot), logged, logged + {IBlock(x.sb, i)});
  }

  // ---------------------------------------------------------------- how many blocks that is

  /** The number of bitmap blocks: the least that has a bit for every block. */
  function Maps(sb: Super): (n: nat)
    ensures sb.size <= n * BPB && (n > 0 ==> (n - 1) * BPB < sb.size)
  {
    (sb.size + BPB - 1) / BPB
  }

  /** Four data blocks, the indirect block and the inode, and a bitmap block for each of at most
      four new blocks. */
  function TxBound(sb: Super): (n: nat)
    ensures n <= 10 && n <= 6 + Maps(sb)
  {
    6 + Min(Maps(sb), 4)
  }

  function SixBlocks(w: Disk, i: nat, lo: nat): set<nat> {
    {IBlock(w.sb, i), Addr(w, i, NDIRECT), BlockOf(w, i, lo), BlockOf(w, i, lo + 1), BlockOf(w, i, lo + 2), BlockOf(w, i, lo + 3)}
  }

  lemma SixSize(w: Disk, i: nat, lo: nat)
    ensures |SixBlocks(w, i, lo)| <= 6
  {
    var s := {IBlock(w.sb, i), Addr(w, i, NDIRECT), BlockOf(w, i, lo)};
    var t := {BlockOf(w, i, lo + 1), BlockOf(w, i, lo + 2), BlockOf(w, i, lo + 3)};
    assert |s| <= 3 && |t| <= 3 && SixBlocks(w, i, lo) == s + t;
  }

  function NewMaps(v: Disk, w: Disk): set<nat> { set b | b in w.owner && b !in v.owner :: BBlock(w.sb, b) }

  function Numbers(from: nat, n: nat): (s: set<nat>)
    ensures |s| == n && forall x :: x in s <==> from <= x < from + n
  {
    if n == 0 then {} else Numbers(from, n - 1) + {from + n - 1}
  }

  lemma MapsWithin(v: Disk, w: Disk)
    requires Good(w)
    ensures |NewMaps(v, w)| <= Maps(w.sb)
  {
    var all := Numbers(w.sb.bmapstart, Maps(w.sb));
    forall x | x in NewMaps(v, w) ensures x in all {
      var b :| b in w.owner && b !in v.owner && x == BBlock(w.sb, b);
      OwnIs(w, b);
    }
    Sets.SubsetSize(NewMaps(v, w), all);
  }

  /** The first file block of the range that can be new: a block that the write enters in the
      middle holds a byte below the size already. */
  function FirstNew(off: nat): nat { if off % BSIZE == 0 then off / BSIZE else off / BSIZE + 1 }

  lemma EntersMapped(v: Disk, i: nat, off: nat)
    requires Full(v, i) && off <= v.ino[i].size && off % BSIZE != 0
    ensures BlockOf(v, i, off / BSIZE) != 0
  {
    var o: nat := off - 1;
    assert o / BSIZE == off / BSIZE && Mapped(v, i, o);
  }

  lemma NewInRange(v: Disk, i: nat, off: nat, n: nat, bn: nat)
    requires Full(v, i) && off <= v.ino[i].size && n <= CHUNK && off / BSIZE <= bn < End(off, n) && BlockOf(v, i, bn) == 0
    ensures FirstNew(off) <= bn < FirstNew(off) + 3
  {
    if off % BSIZE != 0 { EntersMapped(v, i, off); }
  }

  function FourMaps(w: Disk, i: nat, f: nat): set<nat> {
    {BBlock(w.sb, Addr(w, i, NDIRECT)), BBlock(w.sb, BlockOf(w, i, f)), BBlock(w.sb, BlockOf(w, i, f + 1)), BBlock(w.sb, BlockOf(w, i, f + 2))}
  }

  /** A new block is the indirect block or one of three data blocks. */
  lemma NewAmong(L: set<nat>, v: Disk, w: Disk, i: nat, off: nat, n: nat, logged: set<nat>, b: nat)
    requires Good(w) && Full(v, i) && off <= v.ino[i].size && n <= CHUNK && Tx(L, v, w, i, off / BSIZE, End(off, n), logged)
    requires NewBlock(v, w, b)
    ensures var f := FirstNew(off); b in {Addr(w, i, NDIRECT), BlockOf(w, i, f), BlockOf(w, i, f + 1), BlockOf(w, i, f + 2)}
    ensures b == Addr(w, i, NDIRECT) ==> Addr(v, i, NDIRECT) == 0 && NDIRECT < End(off, n)
  {
    OwnIs(w, b);
    var idx := w.owner[b].idx;
    if idx != NDIRECT {
      var bn := if idx < NDIRECT then idx else idx - 1;
      assert Idx(bn) == idx && BlockOf(v, i, bn) == 0 && BlockOf(w, i, bn) == b;
      NewInRange(v, i, off, n, bn);
      if b == Addr(w, i, NDIRECT) { AddrIs(w, i, NDIRECT); }
    }
  }

  lemma MapsOfNew(L: set<nat>, v: Disk, w: Disk, i: nat, off: nat, n: nat, logged: set<nat>)
    requires Good(w) && Full(v, i) && off <= v.ino[i].size && n <= CHUNK && Tx(L, v, w, i, off / BSIZE, End(off, n), logged)
    ensures NewMaps(v, w) <= FourMaps(w, i, FirstNew(off)) && |NewMaps(v, w)| <= 4
  {
    var f := FirstNew(off);
    forall x | x in NewMaps(v, w) ensures x in FourMaps(w, i, f) {
      var b :| b in w.owner && b !in v.owner && x == BBlock(w.sb, b);
      NewAmong(L, v, w, i, off, n, logged, b);
    }
    Sets.SubsetSize(NewMaps(v, w), FourMaps(w, i, f));
  }

  lemma InSix(v: Disk, w: Disk, i: nat, off: nat, n: nat, x: nat)
    requires InTx(v, w, i, off / BSIZE, End(off, n), x) && n <= CHUNK
    ensures x in SixBlocks(w, i, off / BSIZE) || x in NewMaps(v, w)
  {
    var lo := off / BSIZE;
    if NewMap(v, w, x) {
      var b: nat :| NewBlock(v, w, b) && x == BBlock(w.sb, b);
    } else if x != IBlock(w.sb, i) && x != Addr(w, i, NDIRECT) {
      var bn :| lo <= bn < End(off, n) && x != 0 && x == BlockOf(w, i, bn);
      assert bn == lo || bn == lo + 1 || bn == lo + 2 || bn == lo + 3;
    }
  }

  lemma SixAndMaps(v: Disk, w: Disk, i: nat, off: nat, n: nat, logged: set<nat>)
    requires n <= CHUNK && Tx({}, v, w, i, off / BSIZE, End(off, n), logged)
    ensures |logged| <= 6 + |NewMaps(v, w)|
  {
    var six, maps := SixBlocks(w, i, off / BSIZE), NewMaps(v, w);
    forall x | x in logged ensures x in six + maps {
      assert InTx(v, w, i, off / BSIZE, End(off, n), x);
      InSix(v, w, i, off, n, x);
    }
    Sets.SubsetSize(logged, six + maps);
    SixSize(w, i, off / BSIZE);
  }

  /** A write of at most CHUNK bytes, at any offset of any file of any disk, logs at most six
      blocks and the bitmap blocks of at most four new ones. */
  lemma TxAtMost(v: Disk, w: Disk, i: nat, off: nat, n: nat, logged: set<nat>)
    requires Good(w) && Full(v, i) && off <= v.ino[i].size && n <= CHUNK && Tx({}, v, w, i, off / BSIZE, End(off, n), logged)
    ensures |logged| <= TxBound(v.sb)
  {
    SixAndMaps(v, w, i, off, n, logged);
    MapsWithin(v, w);
    MapsOfNew({}, v, w, i, off, n, logged);
  }

  ghost predicate AllAtMost(txs: seq<set<nat>>, bound: nat) { forall t :: 0 <= t < |txs| ==> |txs[t]| <= bound }

  // ---------------------------------------------------------------- when it is ten

  predicate IsFree(v: Disk, b: nat) { b < v.sb.size && !Marked(v, b) }

  predicate OneOf(p: nat, q: nat, r: nat, n: nat, x: nat) { x == p || x == q || x == r || x == n }

  /** Four numbers whose bits are in different bitmap blocks. */
  predicate Apart(sb: Super, p: nat, q: nat, r: nat, n: nat) {
    && BBlock(sb, p) != BBlock(sb, q) && BBlock(sb, p) != BBlock(sb, r) && BBlock(sb, p) != BBlock(sb, n)
    && BBlock(sb, q) != BBlock(sb, r) && BBlock(sb, q) != BBlock(sb, n) && BBlock(sb, r) != BBlock(sb, n)
  }

  predicate Below(p: nat, q: nat, r: nat, n: nat, x: nat) { x < p || x < q || x < r || x < n }

  /** p, q, r and n are the four lowest free blocks, and each has its bit in a bitmap block of its own. */
  ghost predicate LowestFree(v: Disk, p: nat, q: nat, r: nat, n: nat) {
    && IsFree(v, p) && IsFree(v, q) && IsFree(v, r) && IsFree(v, n) && Apart(v.sb, p, q, r, n)
    && forall x: nat :: v.sb.nmeta <= x && Below(p, q, r, n, x) ==> x in v.owner || OneOf(p, q, r, n, x)
  }

  /** The four lowest free blocks are in four different bitmap blocks. */
  ghost predicate Spread(v: Disk) { exists p: nat, q: nat, r: nat, n: nat :: LowestFree(v, p, q, r, n) }

  lemma AllFour(s: set<nat>, a: nat, b: nat, c: nat, d: nat)
    requires s <= {a, b, c, d} && |s| >= 4
    ensures a in s && b in s && c in s && d in s && a != b && a != c && a != d && b != c && b != d && c != d
  {
    if a !in s || a == b || a == c || a == d { Sets.SubsetSize(s, {b, c, d}); }
    if b !in s || b == c || b == d { Sets.SubsetSize(s, {a, c, d}); }
    if c !in s || c == d { Sets.SubsetSize(s, {a, b, d}); }
    if d !in s { Sets.SubsetSize(s, {a, b, c}); }
  }

  lemma NewFree(v: Disk, w: Disk, b: nat)
    requires Good(v) && Good(w) && w.sb == v.sb && NewBlock(v, w, b)
    ensures v.sb.nmeta <= b && IsFree(v, b)
  {
    OwnIs(w, b);
    assert BitOk(v, b);
  }

  /** The block whose bitmap block is among the new ones, when the four are different, is new itself. */
  lemma MapToBlock(v: Disk, w: Disk, i: nat, off: nat, n: nat, logged: set<nat>, x: nat)
    requires Good(w) && Full(v, i) && off <= v.ino[i].size && n <= CHUNK && Tx({}, v, w, i, off / BSIZE, End(off, n), logged)
    requires var f := FirstNew(off); var a, b, c, d := Addr(w, i, NDIRECT), BlockOf(w, i, f), BlockOf(w, i, f + 1), BlockOf(w, i, f + 2);
             Apart(w.sb, a, b, c, d) && OneOf(a, b, c, d, x)
    requires BBlock(w.sb, x) in NewMaps(v, w)
    ensures NewBlock(v, w, x)
  {
    var y :| y in w.owner && y !in v.owner && BBlock(w.sb, x) == BBlock(w.sb, y);
    NewAmong({}, v, w, i, off, n, logged, y);
  }

  /** Within three file blocks a chunk stays below ten. */
  lemma FiveAndMaps(v: Disk, w: Disk, i: nat, off: nat, n: nat, logged: set<nat>)
    requires n <= CHUNK && End(off, n) <= off / BSIZE + 3 && Tx({}, v, w, i, off / BSIZE, End(off, n), logged)
    ensures |logged| <= 5 + |NewMaps(v, w)|
  {
    var lo := off / BSIZE;
    var five := {IBlock(w.sb, i), Addr(w, i, NDIRECT), BlockOf(w, i, lo), BlockOf(w, i, lo + 1), BlockOf(w, i, lo + 2)};
    forall x | x in logged ensures x in five + NewMaps(v, w) {
      assert InTx(v, w, i, lo, End(off, n), x);
      InFive(v, w, i, off, n, x);
    }
    Sets.SubsetSize(logged, five + NewMaps(v, w));
  }

  lemma InFive(v: Disk, w: Disk, i: nat, off: nat, n: nat, x: nat)
    requires InTx(v, w, i, off / BSIZE, End(off, n), x) && End(off, n) <= off / BSIZE + 3
    ensures var lo := off / BSIZE;
            x in {IBlock(w.sb, i), Addr(w, i, NDIRECT), BlockOf(w, i, lo), BlockOf(w, i, lo + 1), BlockOf(w, i, lo + 2)} + NewMaps(v, w)
  {
    var lo := off / BSIZE;
    if NewMap(v, w, x) {
      var b: nat :| NewBlock(v, w, b) && x == BBlock(w.sb, b);
    } else if x != IBlock(w.sb, i) && x != Addr(w, i, NDIRECT) {
      var bn :| lo <= bn < End(off, n) && x != 0 && x == BlockOf(w, i, bn);
      assert bn == lo || bn == lo + 1 || bn == lo + 2;
    }
  }

  /** What a chunk of n bytes at off of file i must find to log ten blocks: it enters one of the last
      three direct blocks in the middle and reaches three more; these and the indirect block are
      missing; and the four lowest free blocks are in four different bitmap blocks. */
  ghost predicate NeedsTen(v: Disk, i: nat, off: nat, n: nat) {
    && i < |v.ino| && off <= v.ino[i].size && n <= CHUNK && 9 <= off / BSIZE <= 11 && End(off, n) == off / BSIZE + 4
    && (forall idx: nat :: off / BSIZE < idx <= NDIRECT ==> Addr(v, i, idx) == 0) && Spread(v)
  }

  /** A chunk that logs more than nine blocks has four new ones in different bitmap blocks. */
  lemma FourNew(v: Disk, w: Disk, i: nat, off: nat, n: nat, logged: set<nat>, a: nat, b: nat, c: nat, d: nat)
    requires Good(w) && Full(v, i) && off <= v.ino[i].size && n <= CHUNK && Tx({}, v, w, i, off / BSIZE, End(off, n), logged)
    requires var f := FirstNew(off); a == Addr(w, i, NDIRECT) && b == BlockOf(w, i, f) && c == BlockOf(w, i, f + 1) && d == BlockOf(w, i, f + 2)
    requires |logged| > 9
    ensures Apart(w.sb, a, b, c, d) && NewBlock(v, w, a) && NewBlock(v, w, b) && NewBlock(v, w, c) && NewBlock(v, w, d)
    ensures off / BSIZE + 3 < End(off, n)
  {
    MapsOfNew({}, v, w, i, off, n, logged);
    if End(off, n) <= off / BSIZE + 3 { FiveAndMaps(v, w, i, off, n, logged); }
    SixAndMaps(v, w, i, off, n, logged);
    AllFour(NewMaps(v, w), BBlock(w.sb, a), BBlock(w.sb, b), BBlock(w.sb, c), BBlock(w.sb, d));
    MapToBlock(v, w, i, off, n, logged, a);
    MapToBlock(v, w, i, off, n, logged, b);
    MapToBlock(v, w, i, off, n, logged, c);
    MapToBlock(v, w, i, off, n, logged, d);
  }

  /** It has found what it takes. */
  lemma OverNine(v: Disk, w: Disk, i: nat, off: nat, n: nat, logged: set<nat>)
    requires Good(v) && Good(w) && Full(v, i) && off <= v.ino[i].size && n <= CHUNK && Tx({}, v, w, i, off / BSIZE, End(off, n), logged)
    requires |logged| > 9
    ensures NeedsTen(v, i, off, n)
  {
    var f := FirstNew(off);
    var a, b, c, d := Addr(w, i, NDIRECT), BlockOf(w, i, f), BlockOf(w, i, f + 1), BlockOf(w, i, f + 2);
    FourNew(v, w, i, off, n, logged, a, b, c, d);
    assert Addr(v, i, NDIRECT) == 0 && NDIRECT < End(off, n) by { NewAmong({}, v, w, i, off, n, logged, a); }
    assert Spread(v) by { NewLowest(v, w, i, off, n, logged, a, b, c, d); }
    NewEmpty(v, w, i, off, n, b, c, d);
  }

  /** With new blocks at file blocks f to f + 2 and no indirect block before, the write starts
      in one of the last three direct blocks. */
  lemma NewEmpty(v: Disk, w: Disk, i: nat, off: nat, n: nat, b: nat, c: nat, d: nat)
    requires Good(v) && Full(v, i) && off <= v.ino[i].size && n <= CHUNK && AddrsKept(v, w, i)
    requires Addr(v, i, NDIRECT) == 0 && NDIRECT < End(off, n) && off / BSIZE + 3 < End(off, n)
    requires var f := FirstNew(off); b == BlockOf(w, i, f) && c == BlockOf(w, i, f + 1) && d == BlockOf(w, i, f + 2)
    requires NewBlock(v, w, b) && NewBlock(v, w, c) && NewBlock(v, w, d)
    ensures 9 <= off / BSIZE <= 11 && End(off, n) == off / BSIZE + 4 && forall idx: nat :: off / BSIZE < idx <= NDIRECT ==> Addr(v, i, idx) == 0
  {
    var lo := off / BSIZE;
    assert off % BSIZE != 0 && FirstNew(off) == lo + 1;
    EntersMapped(v, i, off);
    forall idx: nat | lo < idx <= NDIRECT ensures Addr(v, i, idx) == 0 {
      if idx < NDIRECT {
        assert idx == lo + 1 || idx == lo + 2;
        assert NewBlock(v, w, BlockOf(w, i, idx));
        AddrIs(v, i, idx);
      }
    }
  }

  lemma NewLowest(v: Disk, w: Disk, i: nat, off: nat, n: nat, logged: set<nat>, a: nat, b: nat, c: nat, d: nat)
    requires Good(v) && Good(w) && Full(v, i) && off <= v.ino[i].size && n <= CHUNK && Tx({}, v, w, i, off / BSIZE, End(off, n), logged)
    requires var f := FirstNew(off); a == Addr(w, i, NDIRECT) && b == BlockOf(w, i, f) && c == BlockOf(w, i, f + 1) && d == BlockOf(w, i, f + 2)
    requires Apart(w.sb, a, b, c, d) && NewBlock(v, w, a) && NewBlock(v, w, b) && NewBlock(v, w, c) && NewBlock(v, w, d)
    ensures LowestFree(v, a, b, c, d)
  {
    NewFree(v, w, a);
    NewFree(v, w, b);
    NewFree(v, w, c);
    NewFree(v, w, d);
    forall x: nat | v.sb.nmeta <= x && Below(a, b, c, d, x) ensures x in v.owner || OneOf(a, b, c, d, x) {
      assert x in w.owner;
      if x !in v.owner { NewAmong({}, v, w, i, off, n, logged, x); }
    }
  }

  /** A position filled since v has a block that was free. */
  lemma FilledFree(v: Disk, w: Disk, i: nat, lo: nat, logged: set<nat>, idx: nat)
    requires Good(v) && Good(w) && i < |v.ino| == |w.ino| && idx <= MAXFILE && Tx({}, v, w, i, lo, lo + 4, logged)
    requires Addr(v, i, idx) == 0 && Addr(w, i, idx) != 0
    ensures Filled(v, w, logged, Addr(w, i, idx))
  {
    var x := Addr(w, i, idx);
    AddrIs(w, i, idx);
    if x in v.owner { OwnIs(v, x); }
    assert NewBlock(v, w, x);
    NewFree(v, w, x);
  }

  /** Block x was free, is no longer, and it and its bitmap block are logged. */
  predicate Filled(v: Disk, w: Disk, logged: set<nat>, x: nat) {
    NewBlock(v, w, x) && v.sb.nmeta <= x && IsFree(v, x) && x in logged && BBlock(v.sb, x) in logged
  }

  lemma FreeIs(v: Disk, b: nat)
    requires Good(v) && IsFree(v, b)
    ensures v.sb.nmeta <= b && b !in v.owner
  {
    assert BitOk(v, b);
  }

  /** The positions lo + 1 to lo + 4, the indirect block's among them, are empty in v. */
  ghost predicate FourEmpty(v: Disk, i: nat, lo: nat) {
    9 <= lo <= 11 && i < |v.ino| && Addr(v, i, lo) != 0 && forall idx: nat :: lo < idx <= lo + 4 ==> Addr(v, i, idx) == 0
  }

  /** A new block is at one of the four empty positions. */
  lemma WentTo(v: Disk, w: Disk, i: nat, lo: nat, logged: set<nat>, x: nat) returns (idx: nat)
    requires Good(w) && FourEmpty(v, i, lo) && Tx({}, v, w, i, lo, lo + 4, logged) && NewBlock(v, w, x)
    ensures lo < idx <= lo + 4 && Addr(w, i, idx) == x > 0
  {
    OwnIs(w, x);
    idx := w.owner[x].idx;
  }

  lemma OneOfFour(lo: nat, a: nat, b: nat, c: nat, d: nat, x: nat)
    requires lo < a <= lo + 4 && lo < b <= lo + 4 && lo < c <= lo + 4 && lo < d <= lo + 4 && lo < x <= lo + 4
    requires a != b && a != c && a != d && b != c && b != d && c != d
    ensures OneOf(a, b, c, d, x)
  {
  }

  /** Once the four lowest free blocks are new, they are at the four positions. */
  lemma FourPlaced(v: Disk, w: Disk, i: nat, lo: nat, logged: set<nat>, p: nat, q: nat, r: nat, n: nat, idx: nat)
    requires Good(w) && FourEmpty(v, i, lo) && Tx({}, v, w, i, lo, lo + 4, logged) && Apart(v.sb, p, q, r, n)
    requires NewBlock(v, w, p) && NewBlock(v, w, q) && NewBlock(v, w, r) && NewBlock(v, w, n) && lo < idx <= lo + 4
    ensures OneOf(p, q, r, n, Addr(w, i, idx)) && Addr(w, i, idx) != 0
  {
    var jp := WentTo(v, w, i, lo, logged, p);
    var jq := WentTo(v, w, i, lo, logged, q);
    var jr := WentTo(v, w, i, lo, logged, r);
    var jn := WentTo(v, w, i, lo, logged, n);
    OneOfFour(lo, jp, jq, jr, jn, idx);
  }

  /** The write takes the lowest free blocks: beyond them it would have taken five. */
  lemma OnlyLowest(v: Disk, w: Disk, i: nat, lo: nat, logged: set<nat>, p: nat, q: nat, r: nat, n: nat, x: nat)
    requires Good(v) && Good(w) && FourEmpty(v, i, lo) && Tx({}, v, w, i, lo, lo + 4, logged) && LowestFree(v, p, q, r, n)
    requires NewBlock(v, w, x)
    ensures OneOf(p, q, r, n, x)
  {
    NewFree(v, w, x);
    if !OneOf(p, q, r, n, x) {
      assert !Below(p, q, r, n, x) && LowTaken(w, x);
      forall y: nat | OneOf(p, q, r, n, y) ensures NewBlock(v, w, y) { FreeIs(v, y); }
      var idx := WentTo(v, w, i, lo, logged, x);
      FourPlaced(v, w, i, lo, logged, p, q, r, n, idx);
    }
  }

  lemma FullTakes(v: Disk, w: Disk, b: nat)
    requires Good(v) && Good(w) && w.sb == v.sb && FullDisk(w) && IsFree(v, b)
    ensures NewBlock(v, w, b)
  {
    FreeIs(v, b);
    assert BitOk(w, b);
  }

  /** The four free blocks are enough for the three data blocks and the indirect block. */
  lemma FourSuffice(v: Disk, w: Disk, i: nat, lo: nat, logged: set<nat>, bn: nat)
    requires Good(v) && Good(w) && FourEmpty(v, i, lo) && Spread(v) && Tx({}, v, w, i, lo, lo + 4, logged) && FullDisk(w) && lo <= bn < lo + 4
    ensures BlockOf(w, i, bn) != 0
  {
    var p: nat, q: nat, r: nat, n: nat :| LowestFree(v, p, q, r, n);
    if bn == lo {
      assert AddrsKept(v, w, i);
    } else {
      FullTakes(v, w, p);
      FullTakes(v, w, q);
      FullTakes(v, w, r);
      FullTakes(v, w, n);
      FourPlaced(v, w, i, lo, logged, p, q, r, n, Idx(bn));
    }
  }

  lemma MapIs(sb: Super, b: nat)
    requires b < sb.size
    ensures sb.bmapstart <= BBlock(sb, b) <= sb.bmapstart + (sb.size - 1) / BPB
  {
  }

  lemma FourFilled(v: Disk, w: Disk, i: nat, lo: nat, logged: set<nat>, idx: nat)
    requires Good(v) && Good(w) && |v.ino| == |w.ino| && Tx({}, v, w, i, lo, lo + 4, logged) && FourEmpty(v, i, lo)
    requires DataLogged(w, i, lo, lo + 4, logged) && lo < idx <= lo + 4
    ensures Filled(v, w, logged, Addr(w, i, idx)) && Addr(w, i, idx) != 0
  {
    assert BlockOf(w, i, lo + 3) == Addr(w, i, lo + 4) != 0;
    if idx != NDIRECT { assert BlockOf(w, i, if idx < NDIRECT then idx else idx - 1) == Addr(w, i, idx); }
    FilledFree(v, w, i, lo, logged, idx);
  }

  lemma FirstLogged(v: Disk, w: Disk, i: nat, lo: nat, logged: set<nat>)
    requires Good(w) && i < |w.ino| && w.sb == v.sb && lo < NDIRECT && DataLogged(w, i, lo, lo + 4, logged)
    ensures Addr(w, i, lo) in logged && v.sb.nmeta <= Addr(w, i, lo) && Addr(w, i, lo) != 0
  {
    assert BlockOf(w, i, lo) == Addr(w, i, lo);
    AddrIs(w, i, lo);
  }

  /** The ten blocks: the inode's, four of data, the indirect block and four of the bitmap. */
  lemma TenAtLeast(v: Disk, w: Disk, i: nat, lo: nat, logged: set<nat>)
    requires Good(v) && Good(w) && FourEmpty(v, i, lo) && Spread(v) && Tx({}, v, w, i, lo, lo + 4, logged) && |w.ino| == |v.ino|
    requires DataLogged(w, i, lo, lo + 4, logged) && IBlock(w.sb, i) in logged
    ensures |logged| >= 10
  {
    forall idx: nat | lo <= idx <= lo + 4 ensures Addr(w, i, idx) != 0 {
      if idx == lo { FirstLogged(v, w, i, lo, logged); } else { FourFilled(v, w, i, lo, logged, idx); }
    }
    FiveApart(w, i, lo);
    TenOf(v, w, i, lo, logged, Addr(w, i, lo), Addr(w, i, lo + 1), Addr(w, i, lo + 2), Addr(w, i, lo + 3), Addr(w, i, lo + 4));
  }

  lemma TenOf(v: Disk, w: Disk, i: nat, lo: nat, logged: set<nat>, o: nat, p: nat, q: nat, r: nat, n: nat)
    requires Good(v) && Good(w) && FourEmpty(v, i, lo) && Spread(v) && Tx({}, v, w, i, lo, lo + 4, logged) && |w.ino| == |v.ino|
    requires DataLogged(w, i, lo, lo + 4, logged) && IBlock(w.sb, i) in logged && AllDiffer(o, p, q, r, n) && o == Addr(w, i, lo)
    requires p == Addr(w, i, lo + 1) && q == Addr(w, i, lo + 2) && r == Addr(w, i, lo + 3) && n == Addr(w, i, lo + 4)
    ensures |logged| >= 10
  {
    FirstLogged(v, w, i, lo, logged);
    FourFilled(v, w, i, lo, logged, lo + 1);
    FourFilled(v, w, i, lo, logged, lo + 2);
    FourFilled(v, w, i, lo, logged, lo + 3);
    FourFilled(v, w, i, lo, logged, lo + 4);
    FourApart(v, w, i, lo, logged, o, p, q, r, n);
    InodeArea(w, i);
    TenCount(v, w, IBlock(w.sb, i), o, p, q, r, n, logged);
  }

  predicate AllDiffer(o: nat, p: nat, q: nat, r: nat, n: nat) {
    o != p && o != q && o != r && o != n && p != q && p != r && p != n && q != r && q != n && r != n
  }

  lemma FourApart(v: Disk, w: Disk, i: nat, lo: nat, logged: set<nat>, o: nat, p: nat, q: nat, r: nat, n: nat)
    requires Good(v) && Good(w) && FourEmpty(v, i, lo) && Spread(v) && Tx({}, v, w, i, lo, lo + 4, logged)
    requires NewBlock(v, w, p) && NewBlock(v, w, q) && NewBlock(v, w, r) && NewBlock(v, w, n)
    requires AllDiffer(o, p, q, r, n)
    ensures Apart(v.sb, p, q, r, n)
  {
    var a: nat, b: nat, c: nat, d: nat :| LowestFree(v, a, b, c, d);
    OnlyLowest(v, w, i, lo, logged, a, b, c, d, p);
    OnlyLowest(v, w, i, lo, logged, a, b, c, d, q);
    OnlyLowest(v, w, i, lo, logged, a, b, c, d, r);
    OnlyLowest(v, w, i, lo, logged, a, b, c, d, n);
  }

  lemma TenCount(v: Disk, w: Disk, y: nat, o: nat, p: nat, q: nat, r: nat, n: nat, logged: set<nat>)
    requires SuperOk(v.sb) && AllDiffer(o, p, q, r, n) && Apart(v.sb, p, q, r, n)
    requires Filled(v, w, logged, p) && Filled(v, w, logged, q) && Filled(v, w, logged, r) && Filled(v, w, logged, n)
    requires v.sb.nmeta <= o && y < v.sb.bmapstart && o in logged && y in logged
    ensures |logged| >= 10
  {
    MapsOfSize(v.sb, p, q, r, n);
    var data, maps := {o, p, q, r, n}, MapsOf(v.sb, p, q, r, n);
    assert data <= logged && maps <= logged && |data| == 5;
    TenSize(data, maps, y, v.sb.bmapstart, v.sb.nmeta, logged);
  }

  function MapsOf(sb: Super, p: nat, q: nat, r: nat, n: nat): set<nat> { {BBlock(sb, p), BBlock(sb, q), BBlock(sb, r), BBlock(sb, n)} }

  lemma MapsOfSize(sb: Super, p: nat, q: nat, r: nat, n: nat)
    requires SuperOk(sb) && Apart(sb, p, q, r, n) && p < sb.size && q < sb.size && r < sb.size && n < sb.size
    ensures |MapsOf(sb, p, q, r, n)| == 4 && forall x :: x in MapsOf(sb, p, q, r, n) ==> sb.bmapstart <= x < sb.nmeta
  {
    MapIs(sb, p);
    MapIs(sb, q);
    MapIs(sb, r);
    MapIs(sb, n);
  }

  lemma TenSize(data: set<nat>, maps: set<nat>, y: nat, low: nat, high: nat, logged: set<nat>)
    requires |data| == 5 && |maps| == 4 && data <= logged && maps <= logged && y in logged
    requires y < low && (forall x :: x in maps ==> low <= x < high) && forall x :: x in data ==> high <= x
    requires low <= high
    ensures |logged| >= 10
  {
    assert data !! maps && y !in data && y !in maps;
    assert |data + maps + {y}| == 10;
    Sets.SubsetSize(data + maps + {y}, logged);
  }

  lemma FiveApart(w: Disk, i: nat, lo: nat)
    requires Good(w) && i < |w.ino| && lo <= 11 && forall idx: nat :: lo <= idx <= lo + 4 ==> Addr(w, i, idx) != 0
    ensures AllDiffer(Addr(w, i, lo), Addr(w, i, lo + 1), Addr(w, i, lo + 2), Addr(w, i, lo + 3), Addr(w, i, lo + 4))
  {
    forall j: nat, k: nat | lo <= j < k <= lo + 4 ensures Addr(w, i, j) != Addr(w, i, k) {
      if Addr(w, i, j) == Addr(w, i, k) { OnePosition(w, i, j, i, k); }
    }
  }

  /** With the four lowest free blocks in four bitmap blocks, such a chunk logs ten blocks, one more
      than the log can promise, and is written whole. */
  lemma TenLogged(v: Disk, w: Disk, i: nat, off: nat, n: nat, r: int, logged: set<nat>)
    requires Good(v) && Full(v, i) && Outcome(v, w, i, off, n, r, logged) && NeedsTen(v, i, off, n)
    ensures |logged| == 10 && r == n
  {
    var lo := off / BSIZE;
    EmptyFour(v, i, off, n);
    if r < n {
      assert lo <= (off + r) / BSIZE < lo + 4;
      FourSuffice(v, w, i, lo, logged, (off + r) / BSIZE);
    }
    TenAtLeast(v, w, i, lo, logged);
    TxAtMost(v, w, i, off, n, logged);
  }

  /** A chunk that writei refuses is none of these. */
  lemma BadNeedsNone(v: Disk, i: nat, off: nat, n: nat)
    requires i < |v.ino| && BadWrite(off, n, v.ino[i].size)
    ensures !NeedsTen(v, i, off, n)
  {
  }

  lemma EmptyFour(v: Disk, i: nat, off: nat, n: nat)
    requires Full(v, i) && NeedsTen(v, i, off, n)
    ensures FourEmpty(v, i, off / BSIZE)
  {
    assert off % BSIZE != 0;
    EntersMapped(v, i, off);
    assert Addr(v, i, NDIRECT) == 0;
    forall idx: nat | NDIRECT < idx ensures Addr(v, i, idx) == 0 { }
  }

  /** What writei of n bytes at off, as one of filewrite's transactions, may leave: r bytes are
      written, fewer than n only on a full disk. */
  ghost predicate Outcome(v: Disk, w: Disk, i: nat, off: nat, n: nat, r: int, logged: set<nat>) {
    && Good(w) && i < |v.ino| == |w.ino| && off <= v.ino[i].size && n <= CHUNK && 0 <= r <= n
    && Tx({}, v, w, i, off / BSIZE, End(off, n), logged) && IBlock(w.sb, i) in logged
    && (r < n ==> FullDisk(w) && BlockOf(w, i, (off + r) / BSIZE) == 0)
    && DataLogged(w, i, off / BSIZE, End(off, r), logged)
  }

  /** What one of filewrite's transactions logs: at most TxBound blocks, and more than nine exactly
      when it finds what it takes for ten. */
  lemma ChunkLogs(v: Disk, w: Disk, i: nat, off: nat, n: nat, r: int, logged: set<nat>)
    requires Good(v) && Full(v, i) && Outcome(v, w, i, off, n, r, logged)
    ensures |logged| <= TxBound(v.sb) && (|logged| > 9 <==> NeedsTen(v, i, off, n))
  {
    TxAtMost(v, w, i, off, n, logged);
    if NeedsTen(v, i, off, n) { TenLogged(v, w, i, off, n, r, logged); }
    if |logged| > 9 { OverNine(v, w, i, off, n, logged); }
  }
}
