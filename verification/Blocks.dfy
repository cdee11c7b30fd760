/** What is on the disk below the inode layer: bitmap bits, little-endian block addresses,
    and which position of which inode each block belongs to (fs.c).  Blocks are the logical
    contents that the buffer cache and the log present. */
module Blocks {
  type Byte = x: int | 0 <= x < 256

  const BSIZE := 1024
  const BPB := 8192           // bitmap bits per block
  const NDIRECT := 12
  const NINDIRECT := 256
  const MAXFILE := 268        // NDIRECT + NINDIRECT
  const IPB := 16             // inodes per block
  const WORD := 0x1_0000_0000

  type Block = b: seq<Byte> | |b| == BSIZE witness seq(BSIZE, _ => 0)

  function Zero(): (b: Block)
    ensures forall i :: 0 <= i < BSIZE ==> b[i] == 0
  {
    seq(BSIZE, _ => 0)
  }

  // ---------------------------------------------------------------- bits

  /** Bit k of x. */
  predicate Bit(x: nat, k: nat) { if k == 0 then x % 2 == 1 else Bit(x / 2, k - 1) }

  /** x with bit k set or cleared. */
  function WithBit(x: nat, k: nat, on: bool): nat {
    if k == 0 then x - x % 2 + (if on then 1 else 0) else 2 * WithBit(x / 2, k - 1, on) + x % 2
  }

  lemma {:induction false} BitWith(x: nat, k: nat, on: bool, j: nat)
    ensures Bit(WithBit(x, k, on), j) == if j == k then on else Bit(x, j)
  {
    if k > 0 && j > 0 { BitWith(x / 2, k - 1, on, j - 1); }
  }

  function Two(m: nat): nat { if m == 0 then 1 else 2 * Two(m - 1) }

  /** Bit k weighs 1 << k: setting a clear bit adds it, clearing a set one takes it away. */
  lemma {:induction false} BitWeight(x: nat, k: nat)
    ensures !Bit(x, k) ==> WithBit(x, k, true) == x + Two(k) && WithBit(x, k, false) == x
    ensures Bit(x, k) ==> WithBit(x, k, false) == x - Two(k) && WithBit(x, k, true) == x
  {
    assert x == 2 * (x / 2) + x % 2;
    if k > 0 { BitWeight(x / 2, k - 1); }
  }

  lemma {:induction false} WithBitRange(x: nat, k: nat, on: bool, m: nat)
    requires k < m && x < Two(m)
    ensures WithBit(x, k, on) < Two(m)
  {
    var h := x / 2;
    assert x == 2 * h + x % 2 && h < Two(m - 1);
    if k > 0 { WithBitRange(h, k - 1, on, m - 1); }
  }

  /** The same on one byte of the bitmap. */
  function PutBit(x: Byte, k: nat, on: bool): Byte
    requires k < 8
  {
    assert Two(8) == 256 by { assert Two(4) == 16; }
    WithBitRange(x, k, on, 8);
    WithBit(x, k, on)
  }

  // ---------------------------------------------------------------- words

  /** The number that bytes s stand for, least significant first; and the bytes of a number. */
  function Decode(s: seq<Byte>): nat { if s == [] then 0 else s[0] as nat + 256 * Decode(s[1..]) }

  function Encode(w: nat, n: nat): (s: seq<Byte>)
    ensures |s| == n
  {
    if n == 0 then [] else [w % 256] + Encode(w / 256, n - 1)
  }

  function Range(n: nat): nat { if n == 0 then 1 else 256 * Range(n - 1) }

  lemma {:induction false} DecodeEncode(w: nat, n: nat)
    requires w < Range(n)
    ensures Decode(Encode(w, n)) == w
  {
    if n > 0 {
      DecodeEncode(w / 256, n - 1);
      assert Encode(w, n)[1..] == Encode(w / 256, n - 1);
    }
  }

  /** Word j of a block. */
  function Word(b: Block, j: nat): nat
    requires j < NINDIRECT
  {
    Decode(b[4 * j..4 * j + 4])
  }

  function PutWord(b: Block, j: nat, w: nat): Block
    requires j < NINDIRECT
  {
    b[..4 * j] + Encode(w, 4) + b[4 * j + 4..]
  }

  /** An address is stored as four bytes, the least significant first. */
  lemma WordBytes(b: Block, j: nat)
    requires j < NINDIRECT
    ensures Word(b, j) == b[4 * j] as int + 0x100 * b[4 * j + 1] as int + 0x1_0000 * b[4 * j + 2] as int + 0x100_0000 * b[4 * j + 3] as int
  {
    var s := b[4 * j..4 * j + 4];
    assert s[3..][1..] == [] && s[2..][1..] == s[3..] && s[1..][1..] == s[2..];
    assert Decode(s[3..]) == s[3] as int;
    assert Decode(s[2..]) == s[2] as int + 0x100 * s[3] as int;
    assert Decode(s[1..]) == s[1] as int + 0x100 * s[2] as int + 0x1_0000 * s[3] as int;
  }

  /** Storing a word reads back, and leaves the other words alone. */
  lemma WordPut(b: Block, j: nat, w: nat, k: nat)
    requires j < NINDIRECT && w < WORD && k < NINDIRECT
    ensures Word(PutWord(b, j, w), k) == if k == j then w else Word(b, k)
  {
    var c := PutWord(b, j, w);
    if k == j {
      assert Range(4) == WORD by { assert Range(2) == 0x1_0000; }
      DecodeEncode(w, 4);
      assert c[4 * k..4 * k + 4] == Encode(w, 4);
    } else {
      assert c[4 * k..4 * k + 4] == b[4 * k..4 * k + 4];
    }
  }

  lemma {:induction false} DecodeZero(s: seq<Byte>)
    requires forall i :: 0 <= i < |s| ==> s[i] == 0
    ensures Decode(s) == 0
  {
    if s != [] { DecodeZero(s[1..]); }
  }

  lemma WordZero(j: nat)
    requires j < NINDIRECT
    ensures Word(Zero(), j) == 0
  {
    DecodeZero(Zero()[4 * j..4 * j + 4]);
  }

  // ---------------------------------------------------------------- the disk and its owners

  /** The superblock: blocks below nmeta (boot, log, inodes, bitmap) are never allocated. */
  datatype Super = Super(size: nat, nmeta: nat, bmapstart: nat, inodestart: nat, ninodes: nat)

  /** mkfs's layout: the inode blocks, then the bitmap, then the data. */
  predicate SuperOk(sb: Super) {
    && 0 < sb.nmeta <= sb.size < WORD && sb.bmapstart + (sb.size - 1) / BPB < sb.nmeta
    && sb.inodestart + sb.ninodes / IPB < sb.bmapstart
  }

  /** addrs[0..12) are direct blocks, addrs[12] the indirect block. */
  datatype Inode = Inode(addrs: seq<nat>, size: nat)

  /** What an allocated block is for: nothing yet, or position idx of an inode.  Positions
      0..12 are addrs, position 13 + j is entry j of the indirect block. */
  datatype Pos = Held | At(inum: nat, idx: nat)

  datatype Disk = Disk(sb: Super, blocks: seq<Block>, ino: seq<Inode>, owner: map<nat, Pos>)

  predicate Shape(v: Disk) {
    && SuperOk(v.sb) && |v.blocks| == v.sb.size && |v.ino| <= v.sb.ninodes
    && forall i :: 0 <= i < |v.ino| ==> |v.ino[i].addrs| == NDIRECT + 1
  }

  function BBlock(sb: Super, b: nat): nat { b / BPB + sb.bmapstart }

  /** Bitmap block k holds the bits of BPB consecutive blocks, and each block's bit is in one. */
  lemma BitmapSlots(sb: Super, b: nat, k: nat)
    ensures BBlock(sb, b) == sb.bmapstart + k <==> k * BPB <= b < k * BPB + BPB
  {
  }

  /** The bitmap has b in use. */
  predicate Marked(v: Disk, b: nat) {
    Shape(v) && b < v.sb.size && Bit(v.blocks[BBlock(v.sb, b)][b % BPB / 8], b % 8)
  }

  /** The address stored at a position, 0 if none. */
  function Addr(v: Disk, i: nat, idx: nat): nat {
    if !Shape(v) || i >= |v.ino| then 0
    else if idx <= NDIRECT then v.ino[i].addrs[idx]
    else if idx <= MAXFILE && 0 < v.ino[i].addrs[NDIRECT] < v.sb.size
    then Word(v.blocks[v.ino[i].addrs[NDIRECT]], idx - NDIRECT - 1) else 0
  }

  /** b is in use exactly when it is metadata or allocated. */
  predicate BitOk(v: Disk, b: nat) { Marked(v, b) <==> b < v.sb.nmeta || b in v.owner }

  /** A stored address is a block that belongs to just this position. */
  predicate AddrOk(v: Disk, i: nat, idx: nat) {
    Addr(v, i, idx) != 0 ==> Addr(v, i, idx) in v.owner && v.owner[Addr(v, i, idx)] == At(i, idx)
  }

  predicate OwnOk(v: Disk, b: nat) {
    && b in v.owner && v.sb.nmeta <= b < v.sb.size
    && (v.owner[b].At? ==> v.owner[b].inum < |v.ino| && v.owner[b].idx <= MAXFILE && Addr(v, v.owner[b].inum, v.owner[b].idx) == b)
  }

  ghost predicate Good(v: Disk) {
    && Shape(v)
    && (forall b {:trigger BitOk(v, b)} :: 0 <= b < v.sb.size ==> BitOk(v, b))
    && (forall i, idx {:trigger AddrOk(v, i, idx)} :: 0 <= i < |v.ino| && 0 <= idx <= MAXFILE ==> AddrOk(v, i, idx))
    && (forall b {:trigger OwnOk(v, b)} :: b in v.owner ==> OwnOk(v, b))
  }

  lemma OwnIs(v: Disk, b: nat)
    requires Good(v) && b in v.owner
    ensures OwnOk(v, b)
  {
  }

  lemma AddrIs(v: Disk, i: nat, idx: nat)
    requires Good(v) && i < |v.ino| && idx <= MAXFILE
    ensures AddrOk(v, i, idx) && (Addr(v, i, idx) != 0 ==> OwnOk(v, Addr(v, i, idx)))
  {
    assert AddrOk(v, i, idx);
  }

  /** No block serves two positions. */
  lemma OnePosition(v: Disk, i: nat, idx: nat, j: nat, jdx: nat)
    requires Good(v) && i < |v.ino| && j < |v.ino| && idx <= MAXFILE && jdx <= MAXFILE
    requires Addr(v, i, idx) == Addr(v, j, jdx) != 0
    ensures i == j && idx == jdx
  {
    assert AddrOk(v, i, idx) && AddrOk(v, j, jdx);
  }

  // ---------------------------------------------------------------- bitmap steps

  /** The bitmap block with the bit of b set or cleared. */
  function Flipped(v: Disk, b: nat, on: bool): Block
    requires Shape(v) && b < v.sb.size
  {
    var bits := v.blocks[BBlock(v.sb, b)];
    bits[b % BPB / 8 := PutBit(bits[b % BPB / 8], b % 8, on)]
  }

  lemma SameByte(a: nat, b: nat)
    requires a / BPB == b / BPB && a % BPB / 8 == b % BPB / 8 && a % 8 == b % 8
    ensures a == b
  {
    assert a % 8 == a % BPB % 8 && b % 8 == b % BPB % 8;
  }

  /** Writing the bitmap block changes one bit. */
  lemma MarkedFlip(v: Disk, b: nat, on: bool, c: nat)
    requires Shape(v) && b < v.sb.size && c < v.sb.size
    ensures Marked(v.(blocks := v.blocks[BBlock(v.sb, b) := Flipped(v, b, on)]), c) == if c == b then on else Marked(v, c)
  {
    var byte := v.blocks[BBlock(v.sb, b)][b % BPB / 8];
    BitWith(byte, b % 8, on, c % 8);
    if c / BPB == b / BPB && c % BPB / 8 == b % BPB / 8 && c % 8 == b % 8 { SameByte(b, c); }
  }

  /** Writing a block that is not part of the bitmap changes no bit. */
  lemma MarkedElsewhere(v: Disk, p: nat, x: Block, c: nat)
    requires Shape(v) && v.sb.nmeta <= p < v.sb.size && c < v.sb.size
    ensures Marked(v.(blocks := v.blocks[p := x]), c) == Marked(v, c)
  {
  }

  /** Writing a block that is no indirect block changes no address. */
  lemma AddrElsewhere(v: Disk, p: nat, x: Block, i: nat, idx: nat)
    requires Shape(v) && p < v.sb.size && (i < |v.ino| ==> v.ino[i].addrs[NDIRECT] != p || p == 0)
    ensures Addr(v.(blocks := v.blocks[p := x]), i, idx) == Addr(v, i, idx)
  {
  }

  /** balloc: a free block is marked and zeroed. */
  function Claimed(v: Disk, b: nat): Disk
    requires Shape(v) && b < v.sb.size
  {
    v.(blocks := v.blocks[BBlock(v.sb, b) := Flipped(v, b, true)][b := Zero()], owner := v.owner[b := Held])
  }

  lemma ClaimedGood(v: Disk, b: nat)
    requires Good(v) && b < v.sb.size && !Marked(v, b)
    ensures Good(Claimed(v, b)) && b !in v.owner && v.sb.nmeta <= b
    ensures forall i: nat, idx: nat :: Addr(Claimed(v, b), i, idx) == Addr(v, i, idx)
  {
    var w, m := Claimed(v, b), v.(blocks := v.blocks[BBlock(v.sb, b) := Flipped(v, b, true)]);
    assert BitOk(v, b);
    forall i: nat, idx: nat ensures Addr(w, i, idx) == Addr(v, i, idx) {
      if i < |v.ino| { AddrIs(v, i, NDIRECT); }
      AddrElsewhere(v, BBlock(v.sb, b), Flipped(v, b, true), i, idx);
      AddrElsewhere(m, b, Zero(), i, idx);
    }
    forall c | 0 <= c < v.sb.size ensures BitOk(w, c) {
      assert BitOk(v, c);
      MarkedFlip(v, b, true, c);
      MarkedElsewhere(m, b, Zero(), c);
    }
    forall i, idx | 0 <= i < |w.ino| && 0 <= idx <= MAXFILE ensures AddrOk(w, i, idx) { assert AddrOk(v, i, idx); }
    forall c | c in w.owner ensures OwnOk(w, c) { if c != b { assert OwnOk(v, c); } }
  }

  /** bfree: a block that no position holds any more is unmarked. */
  function Dropped(v: Disk, b: nat): Disk
    requires Shape(v) && b < v.sb.size
  {
    v.(blocks := v.blocks[BBlock(v.sb, b) := Flipped(v, b, false)], owner := v.owner - {b})
  }

  lemma DroppedGood(v: Disk, b: nat)
    requires Good(v) && b in v.owner && v.owner[b] == Held && b < v.sb.size
    ensures Good(Dropped(v, b)) && Marked(v, b)
    ensures forall i: nat, idx: nat :: Addr(Dropped(v, b), i, idx) == Addr(v, i, idx)
  {
    var w := Dropped(v, b);
    assert OwnOk(v, b) && BitOk(v, b);
    forall i: nat, idx: nat ensures Addr(w, i, idx) == Addr(v, i, idx) {
      if i < |v.ino| { AddrIs(v, i, NDIRECT); }
      AddrElsewhere(v, BBlock(v.sb, b), Flipped(v, b, false), i, idx);
    }
    forall c | 0 <= c < v.sb.size ensures BitOk(w, c) { assert BitOk(v, c); MarkedFlip(v, b, false, c); }
    forall i, idx | 0 <= i < |w.ino| && 0 <= idx <= MAXFILE ensures AddrOk(w, i, idx) { assert AddrOk(v, i, idx); }
    forall c | c in w.owner ensures OwnOk(w, c) { assert OwnOk(v, c); }
  }

  // ---------------------------------------------------------------- inode steps

  function WithAddr(v: Disk, i: nat, idx: nat, b: nat): Disk
    requires i < |v.ino| && idx < |v.ino[i].addrs|
  {
    v.(ino := v.ino[i := v.ino[i].(addrs := v.ino[i].addrs[idx := b])])
  }

  /** A held block is stored in an empty entry of addrs; a new indirect block is zeroed. */
  function Placed(v: Disk, i: nat, idx: nat, b: nat): Disk
    requires i < |v.ino| && idx < |v.ino[i].addrs|
  {
    WithAddr(v, i, idx, b).(owner := v.owner[b := At(i, idx)])
  }

  lemma PlacedAddr(v: Disk, i: nat, idx: nat, b: nat, j: nat, jdx: nat)
    requires Good(v) && i < |v.ino| && idx <= NDIRECT && Addr(v, i, idx) == 0 && 0 < b < v.sb.size
    requires idx == NDIRECT ==> v.blocks[b] == Zero()
    ensures Addr(Placed(v, i, idx, b), j, jdx) == if j == i && jdx == idx then b else Addr(v, j, jdx)
  {
    if j == i && idx == NDIRECT < jdx <= MAXFILE { WordZero(jdx - NDIRECT - 1); }
  }

  lemma PlacedGood(v: Disk, i: nat, idx: nat, b: nat)
    requires Good(v) && i < |v.ino| && idx <= NDIRECT && Addr(v, i, idx) == 0 && b in v.owner && v.owner[b] == Held
    requires 0 < b < v.sb.size && (idx == NDIRECT ==> v.blocks[b] == Zero())
    ensures Good(Placed(v, i, idx, b))
    ensures forall j: nat, jdx: nat :: Addr(Placed(v, i, idx, b), j, jdx) == if j == i && jdx == idx then b else Addr(v, j, jdx)
  {
    var w := Placed(v, i, idx, b);
    forall j: nat, jdx: nat ensures Addr(w, j, jdx) == if j == i && jdx == idx then b else Addr(v, j, jdx) {
      PlacedAddr(v, i, idx, b, j, jdx);
    }
    assert OwnOk(v, b);
    forall c | 0 <= c < v.sb.size ensures BitOk(w, c) { assert BitOk(v, c); }
    forall j, jdx | 0 <= j < |w.ino| && 0 <= jdx <= MAXFILE ensures AddrOk(w, j, jdx) { assert AddrOk(v, j, jdx); }
    forall c | c in w.owner ensures OwnOk(w, c) { assert OwnOk(v, c); }
  }

  /** A held block is stored in an empty entry of the indirect block. */
  function Entered(v: Disk, i: nat, k: nat, b: nat): Disk
    requires Shape(v) && i < |v.ino| && k < NINDIRECT && v.ino[i].addrs[NDIRECT] < v.sb.size && b < WORD
  {
    var p := v.ino[i].addrs[NDIRECT];
    v.(blocks := v.blocks[p := PutWord(v.blocks[p], k, b)], owner := v.owner[b := At(i, NDIRECT + 1 + k)])
  }

  lemma EnteredAddr(v: Disk, i: nat, k: nat, b: nat, j: nat, jdx: nat)
    requires Good(v) && i < |v.ino| && k < NINDIRECT && 0 < v.ino[i].addrs[NDIRECT] < v.sb.size && b < WORD
    ensures Addr(Entered(v, i, k, b), j, jdx) == if j == i && jdx == NDIRECT + 1 + k then b else Addr(v, j, jdx)
  {
    var p := v.ino[i].addrs[NDIRECT];
    if j < |v.ino| && NDIRECT < jdx <= MAXFILE {
      if j == i { WordPut(v.blocks[p], k, b, jdx - NDIRECT - 1); }
      else if v.ino[j].addrs[NDIRECT] == p { OnePosition(v, i, NDIRECT, j, NDIRECT); }
    }
  }

  lemma EnteredGood(v: Disk, i: nat, k: nat, b: nat)
    requires Good(v) && i < |v.ino| && k < NINDIRECT && 0 < v.ino[i].addrs[NDIRECT] < v.sb.size
    requires Addr(v, i, NDIRECT + 1 + k) == 0 && b in v.owner && v.owner[b] == Held && 0 < b < WORD
    ensures Good(Entered(v, i, k, b))
    ensures forall j: nat, jdx: nat ::
              Addr(Entered(v, i, k, b), j, jdx) == if j == i && jdx == NDIRECT + 1 + k then b else Addr(v, j, jdx)
  {
    var w, p := Entered(v, i, k, b), v.ino[i].addrs[NDIRECT];
    AddrIs(v, i, NDIRECT);
    assert OwnOk(v, b);
    forall j: nat, jdx: nat ensures Addr(w, j, jdx) == if j == i && jdx == NDIRECT + 1 + k then b else Addr(v, j, jdx) {
      EnteredAddr(v, i, k, b, j, jdx);
    }
    forall c | 0 <= c < v.sb.size ensures BitOk(w, c) { assert BitOk(v, c); MarkedElsewhere(v, p, PutWord(v.blocks[p], k, b), c); }
    forall j, jdx | 0 <= j < |w.ino| && 0 <= jdx <= MAXFILE ensures AddrOk(w, j, jdx) { assert AddrOk(v, j, jdx); }
    forall c | c in w.owner ensures OwnOk(w, c) { assert OwnOk(v, c); }
  }

  /** A direct block is taken out of addrs. */
  function Lifted(v: Disk, i: nat, idx: nat): Disk
    requires i < |v.ino| && idx < |v.ino[i].addrs|
  {
    WithAddr(v, i, idx, 0).(owner := v.owner[v.ino[i].addrs[idx] := Held])
  }

  lemma LiftedGood(v: Disk, i: nat, idx: nat)
    requires Good(v) && i < |v.ino| && idx < NDIRECT && v.ino[i].addrs[idx] != 0
    ensures Good(Lifted(v, i, idx)) && v.ino[i].addrs[idx] in v.owner
    ensures forall j: nat, jdx: nat :: Addr(Lifted(v, i, idx), j, jdx) == if j == i && jdx == idx then 0 else Addr(v, j, jdx)
  {
    var w, b := Lifted(v, i, idx), v.ino[i].addrs[idx];
    AddrIs(v, i, idx);
    forall j: nat, jdx: nat ensures Addr(w, j, jdx) == if j == i && jdx == idx then 0 else Addr(v, j, jdx) { }
    forall c | 0 <= c < v.sb.size ensures BitOk(w, c) { assert BitOk(v, c); }
    forall j, jdx | 0 <= j < |w.ino| && 0 <= jdx <= MAXFILE ensures AddrOk(w, j, jdx) { assert AddrOk(v, j, jdx); }
    forall c | c in w.owner ensures OwnOk(w, c) { assert OwnOk(v, c); }
  }

  /** The indirect block is taken out of addrs; it and its entries are held until freed. */
  function Detached(v: Disk, i: nat): Disk
    requires i < |v.ino| && NDIRECT < |v.ino[i].addrs|
  {
    WithAddr(v, i, NDIRECT, 0)
      .(owner := map b | b in v.owner :: if v.owner[b].At? && v.owner[b].inum == i && v.owner[b].idx >= NDIRECT then Held else v.owner[b])
  }

  lemma DetachedGood(v: Disk, i: nat)
    requires Good(v) && i < |v.ino|
    ensures Good(Detached(v, i))
    ensures forall j: nat, jdx: nat :: Addr(Detached(v, i), j, jdx) == if j == i && jdx >= NDIRECT then 0 else Addr(v, j, jdx)
  {
    var w := Detached(v, i);
    forall j: nat, jdx: nat ensures Addr(w, j, jdx) == if j == i && jdx >= NDIRECT then 0 else Addr(v, j, jdx) { }
    forall c | 0 <= c < v.sb.size ensures BitOk(w, c) { assert BitOk(v, c); }
    forall j, jdx | 0 <= j < |w.ino| && 0 <= jdx <= MAXFILE ensures AddrOk(w, j, jdx) { assert AddrOk(v, j, jdx); }
    forall c | c in w.owner ensures OwnOk(w, c) { assert OwnOk(v, c); }
  }

  /** New contents for a data block, or a new size: no address changes. */
  lemma StoredGood(v: Disk, b: nat, x: Block)
    requires Good(v) && b in v.owner && v.owner[b].At? && v.owner[b].idx != NDIRECT && b < v.sb.size
    ensures Good(v.(blocks := v.blocks[b := x]))
    ensures forall j: nat, jdx: nat :: Addr(v.(blocks := v.blocks[b := x]), j, jdx) == Addr(v, j, jdx)
  {
    var w := v.(blocks := v.blocks[b := x]);
    assert OwnOk(v, b);
    forall j: nat, jdx: nat ensures Addr(w, j, jdx) == Addr(v, j, jdx) {
      if j < |v.ino| { AddrIs(v, j, NDIRECT); }
      AddrElsewhere(v, b, x, j, jdx);
    }
    forall c | 0 <= c < v.sb.size ensures BitOk(w, c) { assert BitOk(v, c); MarkedElsewhere(v, b, x, c); }
    forall j, jdx | 0 <= j < |w.ino| && 0 <= jdx <= MAXFILE ensures AddrOk(w, j, jdx) { assert AddrOk(v, j, jdx); }
    forall c | c in w.owner ensures OwnOk(w, c) { assert OwnOk(v, c); }
  }

  function Sized(v: Disk, i: nat, n: nat): Disk
    requires i < |v.ino|
  {
    v.(ino := v.ino[i := v.ino[i].(size := n)])
  }

  lemma SizedGood(v: Disk, i: nat, n: nat)
    requires Good(v) && i < |v.ino|
    ensures Good(Sized(v, i, n)) && forall j: nat, jdx: nat :: Addr(Sized(v, i, n), j, jdx) == Addr(v, j, jdx)
  {
    SizesGood(v, Sized(v, i, n));
  }

  lemma SizesGood(v: Disk, w: Disk)
    requires Good(v) && w.sb == v.sb && w.blocks == v.blocks && w.owner == v.owner && |w.ino| == |v.ino|
    requires forall j :: 0 <= j < |v.ino| ==> w.ino[j].addrs == v.ino[j].addrs
    ensures Good(w) && forall j: nat, jdx: nat :: Addr(w, j, jdx) == Addr(v, j, jdx)
  {
    forall j: nat, jdx: nat ensures Addr(w, j, jdx) == Addr(v, j, jdx) { }
    forall c | 0 <= c < v.sb.size ensures BitOk(w, c) { assert BitOk(v, c); }
    forall j, jdx | 0 <= j < |w.ino| && 0 <= jdx <= MAXFILE ensures AddrOk(w, j, jdx) { assert AddrOk(v, j, jdx); }
    forall c | c in w.owner ensures OwnOk(w, c) { assert OwnOk(v, c); }
  }

  // ---------------------------------------------------------------- a new disk

  lemma ZeroBit(k: nat)
    ensures !Bit(0, k)
    decreases k
  {
    if k > 0 { ZeroBit(k - 1); }
  }

  /** mkfs's balloc: the bitmap block in which the first `used` blocks are taken. */
  method NewBitmap(used: nat) returns (bits: Block)
    requires used < BPB
    ensures forall k: nat :: k < BPB ==> (Bit(bits[k / 8], k % 8) <==> k < used)
  {
    bits := Zero();
    forall k: nat | k < BPB ensures !Bit(bits[k / 8], k % 8) { ZeroBit(k % 8); }
    var n := 0;
    while n < used
      invariant 0 <= n <= used && forall k: nat :: k < BPB ==> (Bit(bits[k / 8], k % 8) <==> k < n)
    {
      ghost var was := bits;
      bits := bits[n / 8 := PutBit(bits[n / 8], n % 8, true)];
      forall k: nat | k < BPB ensures Bit(bits[k / 8], k % 8) <==> k < n + 1 {
        BitWith(was[n / 8], n % 8, true, k % 8);
        if k / 8 == n / 8 && k % 8 == n % 8 { assert k == n; }
      }
      n := n + 1;
    }
  }

  /** The image that mkfs writes before it adds files: the metadata is taken, the rest is free, and
      no inode has a block. */
  lemma FreshGood(v: Disk)
    requires Shape(v) && v.sb.nmeta < BPB && v.owner == map[]
    requires forall k: nat :: k < BPB ==> (Bit(v.blocks[v.sb.bmapstart][k / 8], k % 8) <==> k < v.sb.nmeta)
    requires forall x :: v.sb.bmapstart < x <= v.sb.bmapstart + (v.sb.size - 1) / BPB ==> v.blocks[x] == Zero()
    requires forall i, k :: 0 <= i < |v.ino| && 0 <= k <= NDIRECT ==> v.ino[i].addrs[k] == 0
    ensures Good(v)
  {
    forall b: nat | b < v.sb.size ensures Marked(v, b) <==> b < v.sb.nmeta {
      if b < BPB {
        assert b / BPB == 0 && b % BPB == b;
      } else {
        assert v.blocks[v.sb.bmapstart + b / BPB] == Zero();
        ZeroBit(b % 8);
      }
    }
    EmptyGood(v);
  }

  lemma EmptyGood(v: Disk)
    requires Shape(v) && v.owner == map[] && forall b: nat :: b < v.sb.size ==> (Marked(v, b) <==> b < v.sb.nmeta)
    requires forall i, k :: 0 <= i < |v.ino| && 0 <= k <= NDIRECT ==> v.ino[i].addrs[k] == 0
    ensures Good(v)
  {
    forall b | 0 <= b < v.sb.size ensures BitOk(v, b) { }
    forall i, idx | 0 <= i < |v.ino| && 0 <= idx <= MAXFILE ensures AddrOk(v, i, idx) { assert Addr(v, i, idx) == 0; }
  }
}
