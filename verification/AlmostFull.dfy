/** A disk on which a chunk of filewrite logs one block more than the log can promise, and the exact
    condition on the superblock for there to be one. */
module AlmostFull {
  import opened Blocks
  import opened Files
  import opened Transactions
  import opened Capacity
  import LogSpace

  const TIGHT := 11265   // one byte into file block 11, the last direct one

  lemma TightRange()
    ensures TIGHT / BSIZE == 11 && TIGHT % BSIZE != 0 && End(TIGHT, CHUNK) == 15
  {
  }

  // ---------------------------------------------------------------- an empty disk

  ghost function Blank(sb: Super): Disk {
    Disk(sb, seq(sb.size, _ => Zero()), seq(sb.ninodes, _ => Inode(seq(NDIRECT + 1, _ => 0), 0)), map[])
  }

  /** The first k blocks are marked. */
  ghost predicate MarkedTo(v: Disk, sb: Super, k: nat) {
    && Shape(v) && v.sb == sb && v.owner == map[] && v.ino == Blank(sb).ino
    && forall c: nat :: c < sb.size ==> (Marked(v, c) <==> c < k)
  }

  /** mkfs's balloc, a block at a time. */
  lemma {:induction false} MarkFirst(sb: Super, k: nat) returns (v: Disk)
    requires SuperOk(sb) && k <= sb.nmeta
    ensures MarkedTo(v, sb, k)
  {
    if k == 0 {
      v := Blank(sb);
      forall c: nat | c < sb.size ensures !Marked(v, c) { ZeroBit(c % 8); }
    } else {
      var u := MarkFirst(sb, k - 1);
      v := u.(blocks := u.blocks[BBlock(sb, k - 1) := Flipped(u, k - 1, true)]);
      forall c: nat | c < sb.size ensures Marked(v, c) <==> c < k { MarkedFlip(u, k - 1, true, c); }
    }
  }

  // ---------------------------------------------------------------- filling it

  // Every block below Top goes to a file, except three that are left for later, the last one of each
  // bitmap block.  The last inode gets the first twelve, the others the rest, file by file.

  predicate Hole(sb: Super, b: nat) { b == Top(sb) - 1 || b == Top(sb) - 1 - BPB || b == Top(sb) - 1 - 2 * BPB }

  /** How many blocks from nmeta up to b the files get. */
  function Rank(sb: Super, b: nat): nat
    requires sb.nmeta <= b <= Top(sb)
  {
    b - sb.nmeta - (if b >= Top(sb) then 3 else if b >= Top(sb) - BPB then 2 else if b >= Top(sb) - 2 * BPB then 1 else 0)
  }

  function Writer(sb: Super): nat
    requires sb.ninodes > 2
  {
    sb.ninodes - 1
  }

  /** The position that gets block number n, counted from 0; and whether a position is one of the first n. */
  function Place(sb: Super, n: nat): Pos
    requires sb.ninodes > 2
  {
    if n < NDIRECT then At(Writer(sb), n) else At((n - NDIRECT) / PERFILE + 1, (n - NDIRECT) % PERFILE)
  }

  predicate Given(sb: Super, n: nat, j: nat, idx: nat)
    requires sb.ninodes > 2
  {
    if j == Writer(sb) then idx < NDIRECT && idx < n else j > 0 && NDIRECT + PERFILE * (j - 1) + idx < n
  }

  lemma NextGiven(sb: Super, n: nat, j: nat, idx: nat)
    requires sb.ninodes > 2 && n < NDIRECT + PERFILE * (sb.ninodes - 2) && j < sb.ninodes && idx <= MAXFILE
    ensures Place(sb, n).inum < sb.ninodes && Place(sb, n).idx <= MAXFILE && Place(sb, n).inum > 0
    ensures Given(sb, n + 1, j, idx) <==> Given(sb, n, j, idx) || At(j, idx) == Place(sb, n)
    ensures At(j, idx) == Place(sb, n) ==> !Given(sb, n, j, idx) && (idx > NDIRECT ==> Given(sb, n, j, NDIRECT))
  {
  }

  lemma TightIs(sb: Super)
    requires SuperOk(sb) && Tight(sb)
    ensures sb.ninodes > 2 && sb.nmeta < Top(sb) - 2 * BPB && Top(sb) < sb.size
    ensures Rank(sb, Top(sb)) == Top(sb) - sb.nmeta - 3 <= NDIRECT + PERFILE * (sb.ninodes - 2)
  {
  }

  predicate IsGiven(v: Disk, n: nat, j: nat, idx: nat)
    requires v.sb.ninodes > 2
  {
    Addr(v, j, idx) != 0 <==> Given(v.sb, n, j, idx)
  }

  /** The files have exactly the first n positions. */
  ghost predicate HaveFirst(v: Disk, n: nat)
    requires v.sb.ninodes > 2
  {
    forall j: nat, idx: nat {:trigger IsGiven(v, n, j, idx)} :: j < v.sb.ninodes && idx <= MAXFILE ==> IsGiven(v, n, j, idx)
  }

  /** The blocks from nmeta up to b are in use, the holes held and the others with the files. */
  ghost predicate FilledTo(v: Disk, sb: Super, b: nat)
    requires sb.ninodes > 2 && sb.nmeta <= b <= Top(sb)
  {
    && Good(v) && v.sb == sb && |v.ino| == sb.ninodes && (forall c :: c in v.owner <==> sb.nmeta <= c < b)
    && (forall c :: c in v.owner ==> if Hole(sb, c) then v.owner[c] == Held else v.owner[c].At? && v.owner[c].inum > 0)
    && HaveFirst(v, Rank(sb, b))
  }

  /** Block b is free, and there is room for it at an empty position. */
  predicate CanPut(v: Disk, b: nat, j: nat, idx: nat) {
    && Shape(v) && 0 < b < v.sb.size && !Marked(v, b) && j < |v.ino| && idx <= MAXFILE && Addr(v, j, idx) == 0
    && (idx > NDIRECT ==> 0 < v.ino[j].addrs[NDIRECT] < v.sb.size)
  }

  /** balloc for an empty position. */
  ghost function Put(v: Disk, b: nat, j: nat, idx: nat): Disk
    requires CanPut(v, b, j, idx)
  {
    if idx <= NDIRECT then Placed(Claimed(v, b), j, idx, b) else Entered(Claimed(v, b), j, idx - NDIRECT - 1, b)
  }

  ghost predicate IsPut(v: Disk, b: nat, j: nat, idx: nat, w: Disk) {
    && Good(w) && w.sb == v.sb && |w.ino| == |v.ino| && w.owner == v.owner[b := At(j, idx)]
    && forall k: nat, kdx: nat :: Addr(w, k, kdx) == if k == j && kdx == idx then b else Addr(v, k, kdx)
  }

  lemma PutDirect(v: Disk, b: nat, j: nat, idx: nat)
    requires Good(v) && CanPut(v, b, j, idx) && idx <= NDIRECT
    ensures IsPut(v, b, j, idx, Put(v, b, j, idx))
  {
    ClaimedGood(v, b);
    PlacedGood(Claimed(v, b), j, idx, b);
  }

  lemma PutEntry(v: Disk, b: nat, j: nat, idx: nat)
    requires Good(v) && CanPut(v, b, j, idx) && idx > NDIRECT
    ensures IsPut(v, b, j, idx, Put(v, b, j, idx))
  {
    ClaimedGood(v, b);
    EnteredGood(Claimed(v, b), j, idx - NDIRECT - 1, b);
  }

  lemma PutGood(v: Disk, b: nat, j: nat, idx: nat)
    requires Good(v) && CanPut(v, b, j, idx)
    ensures IsPut(v, b, j, idx, Put(v, b, j, idx))
  {
    if idx <= NDIRECT { PutDirect(v, b, j, idx); } else { PutEntry(v, b, j, idx); }
  }

  lemma FreeMark(v: Disk, b: nat)
    requires Good(v) && v.sb.nmeta <= b < v.sb.size && b !in v.owner
    ensures !Marked(v, b)
  {
    assert BitOk(v, b);
  }

  lemma FillHole(v: Disk, sb: Super, b: nat) returns (w: Disk)
    requires SuperOk(sb) && Tight(sb) && sb.ninodes > 2 && sb.nmeta <= b < Top(sb) && FilledTo(v, sb, b) && Hole(sb, b)
    ensures FilledTo(w, sb, b + 1)
  {
    FreeMark(v, b);
    ClaimedGood(v, b);
    w := Claimed(v, b);
    assert Rank(sb, b + 1) == Rank(sb, b);
    SameFirst(v, w, Rank(sb, b));
  }

  lemma SameFirst(v: Disk, w: Disk, n: nat)
    requires w.sb == v.sb && v.sb.ninodes > 2 && HaveFirst(v, n) && forall j: nat, idx: nat :: Addr(w, j, idx) == Addr(v, j, idx)
    ensures HaveFirst(w, n)
  {
    forall j: nat, idx: nat | j < w.sb.ninodes && idx <= MAXFILE ensures IsGiven(w, n, j, idx) { assert IsGiven(v, n, j, idx); }
  }

  /** The next block goes to the next position. */
  lemma GiveNext(v: Disk, n: nat, b: nat, w: Disk)
    requires v.sb.ninodes > 2 && n < NDIRECT + PERFILE * (v.sb.ninodes - 2) && b > 0 && HaveFirst(v, n)
    requires IsPut(v, b, Place(v.sb, n).inum, Place(v.sb, n).idx, w)
    ensures HaveFirst(w, n + 1)
  {
    var m := n + 1;
    forall j: nat, idx: nat | j < w.sb.ninodes && idx <= MAXFILE ensures IsGiven(w, m, j, idx) {
      assert IsGiven(v, n, j, idx);
      NextGiven(v.sb, n, j, idx);
    }
  }

  lemma HasRoom(v: Disk, n: nat, b: nat)
    requires Good(v) && v.sb.ninodes == |v.ino| > 2 && n < NDIRECT + PERFILE * (v.sb.ninodes - 2) && HaveFirst(v, n)
    requires 0 < b < v.sb.size && !Marked(v, b)
    ensures Place(v.sb, n).inum > 0 && CanPut(v, b, Place(v.sb, n).inum, Place(v.sb, n).idx)
  {
    NextGiven(v.sb, n, 0, 0);
    var j, idx := Place(v.sb, n).inum, Place(v.sb, n).idx;
    NextGiven(v.sb, n, j, idx);
    assert IsGiven(v, n, j, idx) && IsGiven(v, n, j, NDIRECT);
    AddrIs(v, j, NDIRECT);
  }

  lemma FillFile(v: Disk, sb: Super, b: nat) returns (w: Disk)
    requires SuperOk(sb) && Tight(sb) && sb.ninodes > 2 && sb.nmeta <= b < Top(sb) && FilledTo(v, sb, b) && !Hole(sb, b)
    ensures FilledTo(w, sb, b + 1)
  {
    var n := Rank(sb, b);
    var j, idx := Place(sb, n).inum, Place(sb, n).idx;
    FreeMark(v, b);
    RankNext(sb, b);
    HasRoom(v, n, b);
    PutGood(v, b, j, idx);
    w := Put(v, b, j, idx);
    GiveNext(v, n, b, w);
  }

  lemma RankNext(sb: Super, b: nat)
    requires SuperOk(sb) && Tight(sb) && sb.nmeta <= b < Top(sb) && !Hole(sb, b)
    ensures Rank(sb, b + 1) == Rank(sb, b) + 1 <= NDIRECT + PERFILE * (sb.ninodes - 2)
  {
  }

  lemma FillNone(sb: Super) returns (v: Disk)
    requires SuperOk(sb) && sb.ninodes > 2 && sb.nmeta <= Top(sb)
    ensures FilledTo(v, sb, sb.nmeta)
  {
    v := MarkFirst(sb, sb.nmeta);
    EmptyGood(v);
  }

  lemma {:induction false} Fill(sb: Super, b: nat) returns (v: Disk)
    requires SuperOk(sb) && Tight(sb) && sb.ninodes > 2 && sb.nmeta <= b <= Top(sb)
    ensures FilledTo(v, sb, b)
  {
    if b == sb.nmeta {
      v := FillNone(sb);
    } else {
      var c := b - 1;
      var u := Fill(sb, c);
      if Hole(sb, c) { v := FillHole(u, sb, c); } else { v := FillFile(u, sb, c); }
    }
  }

  // ---------------------------------------------------------------- the holes freed, the sizes set

  lemma Free(v: Disk, n: nat, b: nat) returns (w: Disk)
    requires Good(v) && b in v.owner && v.owner[b] == Held && v.sb.ninodes > 2 && HaveFirst(v, n)
    ensures Good(w) && w.sb == v.sb && |w.ino| == |v.ino| && w.owner == v.owner - {b} && HaveFirst(w, n)
  {
    OwnIs(v, b);
    DroppedGood(v, b);
    w := Dropped(v, b);
    SameFirst(v, w, n);
  }

  /** The bytes of file j once the files have n blocks. */
  function SizeOf(sb: Super, n: nat, j: nat): nat
    requires sb.ninodes > 2
  {
    if j == Writer(sb) then TIGHT
    else if j == 0 || n <= NDIRECT + PERFILE * (j - 1) then 0
    else
      var m := Min(n - NDIRECT - PERFILE * (j - 1), PERFILE);
      BSIZE * if m <= NDIRECT then m else m - 1
  }

  lemma SizeGiven(sb: Super, n: nat, j: nat, o: nat)
    requires sb.ninodes > 2 && n >= NDIRECT && o < SizeOf(sb, n, j)
    ensures o / BSIZE < MAXFILE && Given(sb, n, j, Idx(o / BSIZE))
  {
  }

  lemma SizeMax(sb: Super, n: nat, j: nat)
    requires sb.ninodes > 2
    ensures SizeOf(sb, n, j) <= MAXFILE * BSIZE
  {
  }

  /** The files' blocks are all in use up to Top, and nothing else is. */
  ghost predicate Emptied(v: Disk, sb: Super)
    requires SuperOk(sb) && Tight(sb) && sb.ninodes > 2
  {
    TightIs(sb);
    && Good(v) && v.sb == sb && |v.ino| == sb.ninodes && (forall c :: c in v.owner <==> sb.nmeta <= c < Top(sb) && !Hole(sb, c))
    && (forall c {:trigger v.owner[c]} :: c in v.owner ==> v.owner[c].At? && v.owner[c].inum > 0)
    && HaveFirst(v, Rank(sb, Top(sb)))
  }

  lemma EmptyHoles(sb: Super) returns (v: Disk)
    requires SuperOk(sb) && Tight(sb) && sb.ninodes > 2
    ensures Emptied(v, sb)
  {
    TightIs(sb);
    var n := Rank(sb, Top(sb));
    v := Fill(sb, Top(sb));
    v := Free(v, n, Top(sb) - 1);
    v := Free(v, n, Top(sb) - 1 - BPB);
    v := Free(v, n, Top(sb) - 1 - 2 * BPB);
  }

  lemma SetSizes(v: Disk, sb: Super) returns (w: Disk)
    requires SuperOk(sb) && Tight(sb) && sb.ninodes > 2 && Emptied(v, sb)
    ensures Emptied(w, sb) && AllFull(w) && w.ino[Writer(sb)].size == TIGHT
  {
    TightIs(sb);
    var n := Rank(sb, Top(sb));
    w := v.(ino := seq(|v.ino|, j requires 0 <= j < |v.ino| => v.ino[j].(size := SizeOf(sb, n, j))));
    SizesGood(v, w);
    SameFirst(v, w, n);
    forall j | 0 <= j < |w.ino| ensures Full(w, j) {
      SizeMax(sb, n, j);
      forall o: nat | o < w.ino[j].size ensures Mapped(w, j, o) {
        SizeGiven(sb, n, j, o);
        assert IsGiven(w, n, j, Idx(o / BSIZE));
        AddrIs(w, j, Idx(o / BSIZE));
      }
    }
  }

  /** The four lowest free blocks in their order, each in a bitmap block of its own. */
  ghost predicate LowFour(v: Disk, s: seq<nat>) {
    |s| == 4 && s[0] < s[1] < s[2] < s[3] && LowestFree(v, s[0], s[1], s[2], s[3])
  }

  /** The holes and the block at Top are the four lowest free blocks. */
  lemma HolesLowest(v: Disk, sb: Super) returns (s: seq<nat>)
    requires SuperOk(sb) && Tight(sb) && sb.ninodes > 2 && Emptied(v, sb)
    ensures LowFour(v, s)
  {
    TightIs(sb);
    var p, q, r, n := Top(sb) - 1 - 2 * BPB, Top(sb) - 1 - BPB, Top(sb) - 1, Top(sb);
    FreeMark(v, p);
    FreeMark(v, q);
    FreeMark(v, r);
    FreeMark(v, n);
    HolesApart(sb);
    s := [p, q, r, n];
  }

  lemma HolesApart(sb: Super)
    requires Top(sb) > 2 * BPB
    ensures Apart(sb, Top(sb) - 1 - 2 * BPB, Top(sb) - 1 - BPB, Top(sb) - 1, Top(sb))
  {
  }

  /** For every tight superblock there is a disk between operations, one of whose files ends one byte
      into its last direct block, while the four lowest free blocks are in four bitmap blocks. */
  lemma TenReached(sb: Super) returns (v: Disk, i: nat, s: seq<nat>)
    requires SuperOk(sb) && Tight(sb)
    ensures v.sb == sb && Settled(v) && 0 < i && NeedsTen(v, i, TIGHT, CHUNK) && LowFour(v, s)
  {
    TightIs(sb);
    var u := EmptyHoles(sb);
    v := SetSizes(u, sb);
    i := Writer(sb);
    s := HolesLowest(v, sb);
    TightRange();
    assert IsGiven(v, Rank(sb, Top(sb)), i, NDIRECT);
  }

  // ---------------------------------------------------------------- the chunk that logs ten

  /** balloc for one of the chunk's positions, logging what it takes. */
  lemma TakeNext(L: set<nat>, v: Disk, i: nat, b: nat, idx: nat, mid: set<nat>, u: Disk) returns (w: Disk, logged: set<nat>)
    requires Good(u) && CanPut(u, b, i, idx) && 12 <= idx <= 15 && MarkedBelow(u, b) && Tx(L, v, u, i, 11, 15, mid)
    ensures IsPut(u, b, i, idx, w) && Tx(L, v, w, i, 11, 15, logged) && mid <= logged && b in logged
  {
    w := Put(u, b, i, idx);
    PutGood(u, b, i, idx);
    if idx <= NDIRECT {
      PlacedTx(mid, u, i, idx, b, 11, 15);
      logged := mid + {BBlock(u.sb, b), b};
    } else {
      EnteredTx(mid, u, i, idx - NDIRECT - 1, b, 11, 15);
      logged := mid + {BBlock(u.sb, b), b, u.ino[i].addrs[NDIRECT]};
    }
    TxTwice(L, v, u, w, i, 11, 15, 11, 15, mid, logged);
  }

  lemma UsedMarked(v: Disk, b: nat)
    requires Good(v) && b <= v.sb.size && LowTaken(v, b)
    ensures MarkedBelow(v, b)
  {
    forall c | 0 <= c < b ensures Marked(v, c) { assert BitOk(v, c); }
  }

  /** The first k of the four blocks have gone to the indirect block and its entries. */
  ghost predicate Took(v: Disk, i: nat, s: seq<nat>, k: nat, u: Disk, logged: set<nat>) {
    && |s| == 4 && k <= 4 && Good(u) && u.sb == v.sb && i < |v.ino| == |u.ino| && Tx({}, v, u, i, 11, 15, logged)
    && (forall b :: b in u.owner <==> b in v.owner || b in s[..k])
    && forall t {:trigger TookAt(i, s, k, u, logged, t)} :: 0 <= t < 4 ==> TookAt(i, s, k, u, logged, t)
  }

  predicate TookAt(i: nat, s: seq<nat>, k: nat, u: Disk, logged: set<nat>, t: nat)
    requires t < |s|
  {
    Addr(u, i, 12 + t) == (if t < k then s[t] else 0) && (t < k ==> s[t] in logged)
  }

  lemma LowNext(v: Disk, s: seq<nat>, k: nat, u: Disk)
    requires Good(v) && LowFour(v, s) && u.sb == v.sb && k < 4 && forall b :: b in u.owner <==> b in v.owner || b in s[..k]
    ensures u.sb.nmeta <= s[k] < u.sb.size && s[k] !in u.owner && LowTaken(u, s[k])
  {
    FreeIs(v, s[k]);
    forall c: nat | u.sb.nmeta <= c < s[k] ensures c in u.owner {
      assert Below(s[0], s[1], s[2], s[3], c);
      if c !in v.owner { BeforeNext(s, k, c); }
    }
  }

  lemma BeforeNext(s: seq<nat>, k: nat, c: nat)
    requires |s| == 4 && s[0] < s[1] < s[2] < s[3] && k < 4 && c < s[k] && OneOf(s[0], s[1], s[2], s[3], c)
    ensures c in s[..k]
  {
    var t := if c == s[0] then 0 else if c == s[1] then 1 else 2;
    assert s[..k][t] == c;
  }

  lemma RoomNext(v: Disk, i: nat, s: seq<nat>, k: nat, u: Disk, logged: set<nat>)
    requires Good(v) && LowFour(v, s) && Took(v, i, s, k, u, logged) && k < 4
    ensures CanPut(u, s[k], i, 12 + k) && MarkedBelow(u, s[k])
  {
    LowNext(v, s, k, u);
    FreeMark(u, s[k]);
    UsedMarked(u, s[k]);
    assert TookAt(i, s, k, u, logged, k) && TookAt(i, s, k, u, logged, 0);
    AddrIs(u, i, NDIRECT);
    FreeIs(v, s[0]);
  }

  lemma TakeOne(v: Disk, i: nat, s: seq<nat>, k: nat, u: Disk, mid: set<nat>) returns (w: Disk, logged: set<nat>)
    requires Good(v) && LowFour(v, s) && Took(v, i, s, k, u, mid) && k < 4
    ensures Took(v, i, s, k + 1, w, logged)
  {
    RoomNext(v, i, s, k, u, mid);
    w, logged := TakeNext({}, v, i, s[k], 12 + k, mid, u);
    assert s[..k + 1] == s[..k] + [s[k]];
    var m := k + 1;
    forall t | 0 <= t < 4 ensures TookAt(i, s, m, w, logged, t) { assert TookAt(i, s, k, u, mid, t); }
  }

  lemma TookNone(v: Disk, i: nat, s: seq<nat>)
    requires Good(v) && i < |v.ino| && Addr(v, i, NDIRECT) == 0 && |s| == 4
    ensures Took(v, i, s, 0, v, {})
  {
    TxSelf({}, v, i, 11, 15);
    forall t | 0 <= t < 4 ensures TookAt(i, s, 0, v, {}, t) { }
  }

  /** The chunk's transaction. */
  lemma TakeFour(v: Disk, i: nat, s: seq<nat>) returns (w: Disk, logged: set<nat>)
    requires Good(v) && Full(v, i) && NeedsTen(v, i, TIGHT, CHUNK) && LowFour(v, s)
    ensures Outcome(v, w, i, TIGHT, CHUNK, CHUNK, logged)
  {
    TookNone(v, i, s);
    var mid;
    w, logged := v, {};
    w, mid := TakeOne(v, i, s, 0, w, logged);
    w, logged := TakeOne(v, i, s, 1, w, mid);
    w, mid := TakeOne(v, i, s, 2, w, logged);
    w, logged := TakeOne(v, i, s, 3, w, mid);
    logged := LogRest(v, i, s, w, logged);
  }

  lemma LogRest(v: Disk, i: nat, s: seq<nat>, w: Disk, mid: set<nat>) returns (logged: set<nat>)
    requires Good(v) && Full(v, i) && NeedsTen(v, i, TIGHT, CHUNK) && LowFour(v, s) && Took(v, i, s, 4, w, mid)
    ensures Outcome(v, w, i, TIGHT, CHUNK, CHUNK, logged)
  {
    TightRange();
    EntersMapped(v, i, TIGHT);
    var o := BlockOf(w, i, 11);
    assert InTx(v, w, i, 11, 15, o) && InTx(v, w, i, 11, 15, IBlock(w.sb, i));
    TxMore({}, v, w, w, i, 11, 15, mid, o);
    TxMore({}, v, w, w, i, 11, 15, mid + {o}, IBlock(w.sb, i));
    logged := mid + {o} + {IBlock(w.sb, i)};
    forall bn | 11 <= bn < 15 ensures BlockOf(w, i, bn) != 0 && BlockOf(w, i, bn) in logged {
      if bn > 11 {
        var t := bn - 11;
        assert TookAt(i, s, 4, w, mid, t);
        FreeIs(v, s[t]);
      }
    }
  }

  // ---------------------------------------------------------------- the exact condition

  /** Some chunk of some file logs more blocks than the log can promise every operation. */
  ghost predicate Overflows(sb: Super) {
    exists v: Disk, w: Disk, i: nat, off: nat, n: nat, r: int, logged: set<nat> ::
      v.sb == sb && Settled(v) && 0 < i && Outcome(v, w, i, off, n, r, logged) && !LogSpace.SafeBudget(|logged|)
  }

  /** A chunk can exceed what the log can promise exactly on the tight disks. */
  lemma ChunkExact(sb: Super)
    requires SuperOk(sb)
    ensures Overflows(sb) <==> Tight(sb)
  {
    if Tight(sb) {
      var v, i, s := TenReached(sb);
      assert Full(v, i);
      var w, logged := TakeFour(v, i, s);
      ChunkLogs(v, w, i, TIGHT, CHUNK, CHUNK, logged);
      LogSpace.BudgetExact(|logged|);
    } else if v: Disk, w: Disk, i: nat, off: nat, n: nat, r: int, logged: set<nat> :|
        v.sb == sb && Settled(v) && 0 < i && Outcome(v, w, i, off, n, r, logged) && !LogSpace.SafeBudget(|logged|) {
      NineAtMost(v, w, i, off, n, logged);
      LogSpace.BudgetExact(|logged|);
    }
  }

  /** Of the disks that mkfs makes with 200 inodes, the one of 200000 blocks, for the file-system lab,
      has such a chunk; those of 10000 and of 2000 blocks have none. */
  lemma LargeDisk()
    ensures SuperOk(Super(200000, 70, 45, 32, 200)) && Overflows(Super(200000, 70, 45, 32, 200))
    ensures SuperOk(Super(10000, 47, 45, 32, 200)) && !Overflows(Super(10000, 47, 45, 32, 200))
    ensures SuperOk(Super(2000, 46, 45, 32, 200)) && !Overflows(Super(2000, 46, 45, 32, 200))
  {
    ChunkExact(Super(200000, 70, 45, 32, 200));
    ChunkExact(Super(10000, 47, 45, 32, 200));
    ChunkExact(Super(2000, 46, 45, 32, 200));
  }
}
