/** How much the inodes can hold, and so on which disks one chunk of filewrite can need four bitmap
    blocks (fs.c, mkfs.c). */
module Capacity {
  import opened Blocks
  import opened Files
  import opened Transactions
  import Journal
  import Sets

  const PERFILE := 269   // positions of an inode: direct blocks, the indirect block, its entries

  /** A disk between two operations: every block in use is some file's, and inode 0 is no file. */
  ghost predicate Settled(v: Disk) {
    Good(v) && AllFull(v) && forall b {:trigger v.owner[b]} :: b in v.owner ==> v.owner[b].At? && v.owner[b].inum > 0
  }

  /** The first block whose bit is three bitmap blocks after that of the first data block. */
  function Top(sb: Super): nat { (sb.nmeta / BPB + 3) * BPB }

  /** The disk reaches beyond Top, and the files can hold all but three of the blocks below it while
      one of them has no indirect block. */
  predicate Tight(sb: Super) { Top(sb) < sb.size && Top(sb) - sb.nmeta - 3 <= NDIRECT + PERFILE * (sb.ninodes - 2) }

  // ---------------------------------------------------------------- what the inodes can hold

  function Slot(o: Pos): nat { if o.At? then PERFILE * o.inum + o.idx else 0 }

  lemma SlotIs(v: Disk, i: nat, b: nat)
    requires Settled(v) && b in v.owner && 0 < i < |v.ino| && Addr(v, i, NDIRECT) == 0
    ensures PERFILE <= Slot(v.owner[b]) < PERFILE * v.sb.ninodes
    ensures !(PERFILE * i + NDIRECT <= Slot(v.owner[b]) < PERFILE * i + PERFILE)
  {
    OwnIs(v, b);
  }

  lemma SlotUnique(v: Disk, b: nat, c: nat)
    requires Settled(v) && b in v.owner && c in v.owner && Slot(v.owner[b]) == Slot(v.owner[c])
    ensures b == c
  {
    OwnIs(v, b);
    OwnIs(v, c);
  }

  /** The inodes' positions, without those that file i lacks. */
  function Slots(sb: Super, i: nat): (s: set<nat>)
    requires 0 < i < sb.ninodes
    ensures |s| == NDIRECT + PERFILE * (sb.ninodes - 2)
    ensures forall x: nat :: PERFILE <= x < PERFILE * sb.ninodes && !(PERFILE * i + NDIRECT <= x < PERFILE * i + PERFILE) ==> x in s
  {
    var all, none := Numbers(PERFILE, PERFILE * (sb.ninodes - 1)), Numbers(PERFILE * i + NDIRECT, PERFILE - NDIRECT);
    assert none <= all;
    all - none
  }

  /** Blocks in use are at most as many as the positions there are. */
  lemma UsedFit(v: Disk, i: nat, used: set<nat>)
    requires Settled(v) && 0 < i < |v.ino| && Addr(v, i, NDIRECT) == 0 && forall b :: b in used ==> b in v.owner
    ensures |used| <= NDIRECT + PERFILE * (v.sb.ninodes - 2)
  {
    var at := map b | b in used :: Slot(v.owner[b]);
    forall x, y | x in used && y in used && at[x] == at[y] ensures x == y { SlotUnique(v, x, y); }
    Sets.ImageSize(at);
    assert at.Keys == used;
    forall x | x in at.Values ensures x in Slots(v.sb, i) {
      var b :| b in used && x == at[b];
      SlotIs(v, i, b);
    }
    Sets.SubsetSize(at.Values, Slots(v.sb, i));
  }

  // ---------------------------------------------------------------- spread disks are tight

  /** One of four blocks in different bitmap blocks is beyond Top. */
  lemma BeyondTop(sb: Super, p: nat, q: nat, r: nat, n: nat)
    requires Apart(sb, p, q, r, n) && sb.nmeta <= p && sb.nmeta <= q && sb.nmeta <= r && sb.nmeta <= n
    ensures Top(sb) <= p || Top(sb) <= q || Top(sb) <= r || Top(sb) <= n
  {
    var g := sb.nmeta / BPB;
    assert g <= p / BPB && g <= q / BPB && g <= r / BPB && g <= n / BPB;
  }

  lemma ThreeLess(s: set<nat>, p: nat, q: nat, r: nat, n: nat)
    requires p !in s || q !in s || r !in s || n !in s
    ensures |s - {p, q, r, n}| >= |s| - 3
  {
    var gone := s * {p, q, r, n};
    if p !in s { Sets.SubsetSize(gone, {q, r, n}); }
    else if q !in s { Sets.SubsetSize(gone, {p, r, n}); }
    else if r !in s { Sets.SubsetSize(gone, {p, q, n}); }
    else { Sets.SubsetSize(gone, {p, q, r}); }
    Sets.SplitSize(s, s - {p, q, r, n}, gone);
  }

  /** When the four lowest free blocks are in four bitmap blocks and file i has no indirect block,
      the disk is tight. */
  lemma SpreadTight(v: Disk, i: nat)
    requires Settled(v) && 0 < i < |v.ino| && Addr(v, i, NDIRECT) == 0 && Spread(v)
    ensures Tight(v.sb)
  {
    var p: nat, q: nat, r: nat, n: nat :| LowestFree(v, p, q, r, n);
    FreeIs(v, p);
    FreeIs(v, q);
    FreeIs(v, r);
    FreeIs(v, n);
    BeyondTop(v.sb, p, q, r, n);
    var used := UsedBelow(v, p, q, r, n);
    UsedFit(v, i, used);
  }

  /** Up to Top, all but three blocks are in use. */
  lemma UsedBelow(v: Disk, p: nat, q: nat, r: nat, n: nat) returns (used: set<nat>)
    requires LowestFree(v, p, q, r, n) && (Top(v.sb) <= p || Top(v.sb) <= q || Top(v.sb) <= r || Top(v.sb) <= n)
    ensures |used| >= Top(v.sb) - v.sb.nmeta - 3 && forall x :: x in used ==> x in v.owner
  {
    var below := Numbers(v.sb.nmeta, Top(v.sb) - v.sb.nmeta);
    ThreeLess(below, p, q, r, n);
    used := below - {p, q, r, n};
    forall x | x in used ensures x in v.owner { assert Below(p, q, r, n, x); }
  }

  /** Unless the disk is tight, no chunk of any file logs more than the log can promise. */
  lemma NineAtMost(v: Disk, w: Disk, i: nat, off: nat, n: nat, logged: set<nat>)
    requires Settled(v) && Good(w) && 0 < i < |v.ino| && off <= v.ino[i].size && n <= CHUNK && !Tight(v.sb)
    requires Tx({}, v, w, i, off / BSIZE, End(off, n), logged)
    ensures |logged| <= Journal.MAXOPBLOCKS - 1
  {
    assert Full(v, i);
    if |logged| > 9 {
      OverNine(v, w, i, off, n, logged);
      assert Addr(v, i, NDIRECT) == 0;
      SpreadTight(v, i);
    }
  }

  /** No transaction logs more than TxBound blocks; and from a settled disk to a settled disk, unless
      it is tight, none logs more than the log can promise. */
  ghost predicate InBounds(v: Disk, w: Disk, i: nat, txs: seq<set<nat>>) {
    && w.sb == v.sb && AllAtMost(txs, TxBound(v.sb))
    && (Settled(v) && i > 0 ==> Settled(w) && (Tight(v.sb) || AllAtMost(txs, Journal.MAXOPBLOCKS - 1)))
  }

  lemma ChunkInBounds(v: Disk, w: Disk, i: nat, off: nat, n: nat, r: int, logged: set<nat>)
    requires Good(v) && Full(v, i) && AllFull(w) && Outcome(v, w, i, off, n, r, logged)
    ensures InBounds(v, w, i, [logged])
  {
    TxAtMost(v, w, i, off, n, logged);
    if Settled(v) && i > 0 {
      forall b | b in w.owner ensures w.owner[b].At? && w.owner[b].inum > 0 { if b !in v.owner { assert NewBlock(v, w, b); } }
      if !Tight(v.sb) { NineAtMost(v, w, i, off, n, logged); }
    }
  }

  lemma InBoundsNext(v: Disk, w: Disk, x: Disk, i: nat, txs: seq<set<nat>>, tx: set<nat>)
    requires InBounds(v, w, i, txs) && InBounds(w, x, i, [tx])
    ensures InBounds(v, x, i, txs + [tx])
  {
    assert [tx][0] == tx;
  }
}
