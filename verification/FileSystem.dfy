/** The inode layer as it changes blocks and inodes in place: block allocation, block maps,
    truncation, byte-range reads and writes, up to filewrite's transactions (fs.c, file.c). */
module FileSystem {
  import opened Blocks
  import opened Files
  import opened Transactions
  import opened Capacity
  import Journal

  class Fs {
    const sb: Super
    const blocks: array<Block>
    const ino: array<Inode>      // in-memory inodes, by number
    const dino: array<Inode>     // their copies in the inode blocks
    ghost var owner: map<nat, Pos>
    ghost var logged: set<nat>   // blocks passed to log_write in this transaction

    ghost function View(): Disk
      reads this, blocks, ino
    {
      Disk(sb, blocks[..], ino[..], owner)
    }

    ghost predicate Valid()
      reads this, blocks, ino
    {
      Good(View()) && ino != dino && ino.Length == dino.Length
    }

    /** bwrite through the log. */
    method LogWrite(b: nat, x: Block)
      requires b < blocks.Length
      modifies this`logged, blocks
      ensures blocks[..] == old(blocks[..])[b := x] && logged == old(logged) + {b}
    {
      blocks[b] := x;
      logged := logged + {b};
    }

    /** balloc's marking and zeroing of the block it has found. */
    method Claim(b: nat)
      requires Valid() && b < sb.size && !Marked(View(), b)
      modifies this, blocks
      ensures Valid() && b >= sb.nmeta && View() == Claimed(old(View()), b) && logged == old(logged) + {BBlock(sb, b), b}
    {
      ghost var v := View();
      ClaimedGood(v, b);
      var bp := blocks[BBlock(sb, b)];
      LogWrite(BBlock(sb, b), bp[b % BPB / 8 := PutBit(bp[b % BPB / 8], b % 8, true)]);
      LogWrite(b, Zero());
      owner := owner[b := Held];
      assert View() == Claimed(v, b);
    }

    /** balloc's inner loop: the first free block from b on whose bit is in the same bitmap block. */
    method FreeBit(b: nat) returns (bi: nat)
      requires Valid() && b % BPB == 0 && b < sb.size && MarkedBelow(View(), b)
      ensures bi <= BPB && b + bi <= sb.size && MarkedBelow(View(), b + bi)
      ensures if bi < BPB && b + bi < sb.size then !Marked(View(), b + bi) else MarkedBelow(View(), b + BPB)
    {
      bi := 0;
      while bi < BPB && b + bi < sb.size
        invariant bi <= BPB && b + bi <= sb.size && MarkedBelow(View(), b + bi)
      {
        BitIs(View(), b, bi);
        var bp := blocks[BBlock(sb, b)];
        if !Bit(bp[bi / 8], bi % 8) { return; }
        bi := bi + 1;
      }
    }

    /** balloc: the first free block, zeroed; 0 exactly when every bit is set. */
    method Balloc() returns (addr: nat)
      requires Valid()
      modifies this, blocks
      ensures Valid() && addr < sb.size
      ensures addr == 0 ==> View() == old(View()) && logged == old(logged) && FullDisk(View())
      ensures addr != 0 ==> !Marked(old(View()), addr) && View() == Claimed(old(View()), addr)
      ensures addr != 0 ==> logged == old(logged) + {BBlock(sb, addr), addr} && MarkedBelow(old(View()), addr)
    {
      var b := 0;
      while b < sb.size
        invariant 0 <= b && b % BPB == 0 && View() == old(View()) && logged == old(logged) && MarkedBelow(View(), b)
      {
        var bi := FreeBit(b);
        if bi < BPB && b + bi < sb.size {
          addr := b + bi;
          Claim(addr);
          return;
        }
        b := b + BPB;
      }
      return 0;
    }

    /** bfree of a block that, in g, no file holds any more: its panic is not reached. */
    method Bfree(b: nat, ghost g: Disk)
      requires Good(g) && g.sb == sb && g.blocks == blocks[..] && b in g.owner && g.owner[b] == Held
      modifies this`logged, blocks
      ensures b < sb.size && blocks[..] == Dropped(g, b).blocks && logged == old(logged) + {BBlock(sb, b)}
    {
      OwnIs(g, b);
      DroppedGood(g, b);
      var bi := b % BPB;
      var bp := blocks[BBlock(sb, b)];
      ModMod(b);
      assert Bit(bp[bi / 8], bi % 8);   // "freeing free block" is not reached
      LogWrite(BBlock(sb, b), bp[bi / 8 := PutBit(bp[bi / 8], bi % 8, false)]);
    }

    /** iupdate: the on-disk copy follows the in-memory inode. */
    method IUpdate(i: nat)
      requires i < ino.Length == dino.Length <= sb.ninodes && ino != dino && SuperOk(sb)
      modifies this`logged, dino
      ensures dino[..] == old(dino[..])[i := ino[i]] && logged == old(logged) + {IBlock(sb, i)}
      ensures sb.inodestart <= IBlock(sb, i) < sb.bmapstart
    {
      dino[i] := ino[i];
      logged := logged + {IBlock(sb, i)};
    }

    /** bmap's allocation for an empty entry of addrs. */
    method Place(i: nat, idx: nat) returns (addr: nat)
      requires Valid() && i < ino.Length && idx <= NDIRECT && Addr(View(), i, idx) == 0
      modifies this, blocks, ino
      ensures Valid() && Extends(old(View()), View(), i) && addr < sb.size && addr == Addr(View(), i, idx)
      ensures addr == 0 ==> View() == old(View()) && logged == old(logged) && FullDisk(View())
      ensures addr != 0 ==> blocks[addr] == Zero() && logged == old(logged) + {BBlock(sb, addr), addr}
      ensures addr != 0 ==> !Marked(old(View()), addr) && View() == Placed(Claimed(old(View()), addr), i, idx, addr)
      ensures addr != 0 ==> MarkedBelow(old(View()), addr)
      ensures forall jdx: nat :: jdx != idx ==> Addr(View(), i, jdx) == old(Addr(View(), i, jdx))
    {
      ghost var v := View();
      ExtendsSelf(v, i);
      addr := Balloc();
      if addr == 0 { return; }
      ghost var w := View();
      ClaimedGood(v, addr);
      ClaimedExtends(v, addr, i);
      PlacedGood(w, i, idx, addr);
      PlacedExtends(w, i, idx, addr);
      ino[i] := ino[i].(addrs := ino[i].addrs[idx := addr]);
      owner := owner[addr := At(i, idx)];
      assert View() == Placed(w, i, idx, addr);
      ExtendsTwice(v, w, View(), i);
    }

    /** bmap's allocation for an empty entry of the indirect block. */
    method Enter(i: nat, k: nat) returns (addr: nat)
      requires Valid() && i < ino.Length && k < NINDIRECT && ino[i].addrs[NDIRECT] != 0 && Addr(View(), i, NDIRECT + 1 + k) == 0
      modifies this, blocks, ino
      ensures Valid() && Extends(old(View()), View(), i) && addr < sb.size && addr == Addr(View(), i, NDIRECT + 1 + k)
      ensures addr == 0 ==> View() == old(View()) && logged == old(logged) && FullDisk(View())
      ensures addr != 0 ==> blocks[addr] == Zero() && logged == old(logged) + {BBlock(sb, addr), addr, old(ino[i].addrs[NDIRECT])}
      ensures addr != 0 ==> !Marked(old(View()), addr) && old(ino[i].addrs[NDIRECT]) < sb.size
      ensures addr != 0 ==> View() == Entered(Claimed(old(View()), addr), i, k, addr)
      ensures addr != 0 ==> MarkedBelow(old(View()), addr)
    {
      ghost var v := View();
      ExtendsSelf(v, i);
      AddrIs(v, i, NDIRECT);
      addr := Balloc();
      if addr == 0 { return; }
      ghost var w := View();
      ClaimedGood(v, addr);
      ClaimedExtends(v, addr, i);
      EnteredGood(w, i, k, addr);
      EnteredExtends(w, i, k, addr);
      var p := ino[i].addrs[NDIRECT];
      LogWrite(p, PutWord(blocks[p], k, addr));
      owner := owner[addr := At(i, NDIRECT + 1 + k)];
      assert View() == Entered(w, i, k, addr);
      ExtendsTwice(v, w, View(), i);
    }

    /** bmap beyond the direct blocks. */
    method BmapIndirect(i: nat, k: nat) returns (addr: nat)
      requires Valid() && i < ino.Length && k < NINDIRECT
      modifies this, blocks, ino
      ensures Valid() && Extends(old(View()), View(), i) && addr < sb.size && addr == Addr(View(), i, NDIRECT + 1 + k)
      ensures addr == 0 ==> FullDisk(View())
      ensures old(Addr(View(), i, NDIRECT + 1 + k)) != 0 ==> View() == old(View()) && logged == old(logged)
      ensures old(Addr(View(), i, NDIRECT + 1 + k)) == 0 && addr != 0 ==> blocks[addr] == Zero()
      ensures Tx(old(logged), old(View()), View(), i, NDIRECT + k, NDIRECT + k + 1, logged)
    {
      ghost var v := View();
      ExtendsSelf(v, i);
      TxSelf(logged, v, i, NDIRECT + k, NDIRECT + k + 1);
      AddrIs(v, i, NDIRECT);
      AddrIs(v, i, NDIRECT + 1 + k);
      var p := ino[i].addrs[NDIRECT];
      if p == 0 {
        p := Place(i, NDIRECT);
        if p == 0 { return 0; }
        PlacedTx(old(logged), v, i, NDIRECT, p, NDIRECT + k, NDIRECT + k + 1);
      }
      ghost var w, l := View(), logged;
      addr := Word(blocks[p], k);
      assert addr == Addr(w, i, NDIRECT + 1 + k);
      if addr == 0 {
        addr := Enter(i, k);
        ExtendsTwice(v, w, View(), i);
        if addr != 0 {
          EnteredTx(l, w, i, k, addr, NDIRECT + k, NDIRECT + k + 1);
          TxTwice(old(logged), v, w, View(), i, NDIRECT + k, NDIRECT + k + 1, NDIRECT + k, NDIRECT + k + 1, l, logged);
        }
      }
    }

    /** bmap: the block of file block bn, allocated if there is none; 0 only on a full disk. */
    method Bmap(i: nat, bn: nat) returns (addr: nat)
      requires Valid() && i < ino.Length && bn < MAXFILE
      modifies this, blocks, ino
      ensures Valid() && Extends(old(View()), View(), i) && addr < sb.size && addr == BlockOf(View(), i, bn)
      ensures addr == 0 ==> FullDisk(View())
      ensures old(BlockOf(View(), i, bn)) != 0 ==> View() == old(View()) && logged == old(logged)
      ensures old(BlockOf(View(), i, bn)) == 0 && addr != 0 ==> blocks[addr] == Zero()
      ensures Tx(old(logged), old(View()), View(), i, bn, bn + 1, logged)
    {
      ghost var v := View();
      ExtendsSelf(v, i);
      TxSelf(logged, v, i, bn, bn + 1);
      AddrIs(v, i, Idx(bn));
      if bn < NDIRECT {
        addr := ino[i].addrs[bn];
        if addr == 0 {
          addr := Place(i, bn);
          if addr != 0 { PlacedTx(old(logged), v, i, bn, addr, bn, bn + 1); }
        }
      } else {
        addr := BmapIndirect(i, bn - NDIRECT);
      }
      assert addr == BlockOf(View(), i, bn);
    }

    /** One turn of itrunc's loop over the direct blocks. */
    method FreeOne(ghost v: Disk, i: nat, k: nat, ghost s: set<nat>) returns (ghost S: set<nat>)
      requires Valid() && Good(v) && i < ino.Length && k < NDIRECT && Freeing(v, View(), i, s) && SameOwners(v, View())
      modifies this, blocks, ino
      ensures Valid() && Freeing(v, View(), i, S) && SameOwners(v, View())
      ensures ino[i] == old(ino[i].(addrs := ino[i].addrs[k := 0]))
    {
      S := s;
      if ino[i].addrs[k] != 0 {
        ghost var g := View();
        var b := ino[i].addrs[k];
        FreeDirect(v, g, i, s, k);
        Bfree(b, Lifted(g, i, k));
        ino[i] := ino[i].(addrs := ino[i].addrs[k := 0]);
        owner, S := owner - {b}, s + {b};
        assert View() == Dropped(Lifted(g, i, k), b);
      }
    }

    /** itrunc's loop over the direct blocks. */
    method TruncDirect(i: nat) returns (ghost S: set<nat>)
      requires Valid() && i < ino.Length
      modifies this, blocks, ino
      ensures Valid() && Freeing(old(View()), View(), i, S) && ino[i].size == old(ino[i].size)
      ensures ino[i].addrs[NDIRECT] == old(ino[i].addrs[NDIRECT]) && forall k :: 0 <= k < NDIRECT ==> ino[i].addrs[k] == 0
      ensures SameOwners(old(View()), View())
    {
      ghost var v := View();
      S := {};
      var k := 0;
      while k < NDIRECT
        invariant 0 <= k <= NDIRECT && Valid() && Freeing(v, View(), i, S) && ino[i].size == old(ino[i].size)
        invariant ino[i].addrs[NDIRECT] == old(ino[i].addrs[NDIRECT]) && forall j :: 0 <= j < k ==> ino[i].addrs[j] == 0
        invariant SameOwners(v, View())
      {
        S := FreeOne(v, i, k, S);
        k := k + 1;
      }
    }

    /** itrunc's loop over the entries of the indirect block p; g is the disk without p. */
    method TruncIndirect(ghost v: Disk, ghost w: Disk, i: nat, p: nat, ghost s: set<nat>) returns (ghost g: Disk, ghost S: set<nat>)
      requires Good(v) && Good(w) && w == View() && Freeing(v, w, i, s) && i < ino.Length && p == ino[i].addrs[NDIRECT] != 0
      modifies this`logged, blocks
      ensures Freeing(v, g, i, S) && g.blocks == blocks[..] && g.ino == Detached(w, i).ino && g.sb == sb
      ensures EntriesHeld(w, g, p, NINDIRECT, S) && s <= S
    {
      AddrIs(w, i, NDIRECT);
      FreeDetach(v, w, i, s);
      g, S := Detached(w, i), s;
      Detaching(w, i, p, S);
      var a := blocks[p];
      var j := 0;
      while j < NINDIRECT
        invariant 0 <= j <= NINDIRECT && Freeing(v, g, i, S) && g.blocks == blocks[..] && g.ino == Detached(w, i).ino && g.sb == sb
        invariant EntriesHeld(w, g, p, j, S) && s <= S && a == w.blocks[p]
      {
        EntryFreed(w, g, i, p, j, S);
        if Word(a, j) != 0 {
          ghost var b := Word(a, j);
          EntryMine(v, w, i, s, p, j);
          OwnIs(g, b);
          FreeHeld(v, g, i, S, b);
          Bfree(Word(a, j), g);
          g, S := Dropped(g, b), S + {b};
        }
        j := j + 1;
      }
    }

    /** itrunc's indirect block, with its entries. */
    method FreeIndirect(ghost v: Disk, i: nat, ghost s: set<nat>) returns (ghost S: set<nat>)
      requires Valid() && Good(v) && i < ino.Length && Freeing(v, View(), i, s) && SameOwners(v, View())
      requires ino[i].addrs[NDIRECT] != 0 && forall k :: 0 <= k < NDIRECT ==> ino[i].addrs[k] == 0
      modifies this, blocks, ino
      ensures Valid() && Freeing(v, View(), i, S) && SameOwners(v, View())
      ensures ino[i] == old(ino[i].(addrs := ino[i].addrs[NDIRECT := 0]))
    {
      ghost var w := View();
      var p := ino[i].addrs[NDIRECT];
      AddrIs(w, i, NDIRECT);
      ghost var g;
      g, S := TruncIndirect(v, w, i, p, s);
      IndirectFreed(v, w, g, i, p, s, S);
      FreeHeld(v, g, i, S, p);
      Bfree(p, g);
      ino[i] := ino[i].(addrs := ino[i].addrs[NDIRECT := 0]);
      owner, S := Dropped(g, p).owner, S + {p};
      assert View() == Dropped(g, p);
    }

    /** itrunc: exactly the file's blocks are freed, whether or not they lie below its size. */
    method Itrunc(i: nat)
      requires Valid() && i < ino.Length
      modifies this, blocks, ino, dino
      ensures Valid() && owner == Without(old(owner), i) && SameData(old(View()), View())
      ensures ino[i].size == 0 && (forall k :: 0 <= k <= NDIRECT ==> ino[i].addrs[k] == 0) && dino[i] == ino[i]
      ensures forall j :: 0 <= j < ino.Length && j != i ==> ino[j] == old(ino[j]) && dino[j] == old(dino[j])
    {
      ghost var v := View();
      ghost var S := TruncDirect(i);
      if ino[i].addrs[NDIRECT] != 0 { S := FreeIndirect(v, i, S); }
      FreedAll(v, View(), i, S);
      SizedGood(View(), i, 0);
      ino[i] := ino[i].(size := 0);
      IUpdate(i);
    }

    /** The copy into a buffer and its log_write. */
    method Store(i: nat, at: nat, piece: seq<Byte>, addr: nat)
      requires Valid() && i < ino.Length && at / BSIZE < MAXFILE && at % BSIZE + |piece| <= BSIZE
      requires Mapped(View(), i, at) && addr == BlockOf(View(), i, at / BSIZE)
      modifies this`logged, blocks
      ensures Valid() && Wrote(old(View()), View(), i, at, piece, |piece|) && logged == old(logged) + {addr} && owner == old(owner)
      ensures forall j: nat, jdx: nat :: Addr(View(), j, jdx) == old(Addr(View(), j, jdx))
    {
      ghost var v := View();
      PatchWrote(v, i, at, piece);
      LogWrite(addr, Patch(blocks[addr], at % BSIZE, piece));
      assert View() == v.(blocks := v.blocks[addr := Patch(v.blocks[addr], at % BSIZE, piece)]);
    }

    /** One turn of writei's loop: a piece inside one file block. */
    method WritePiece(i: nat, at: nat, piece: seq<Byte>) returns (ok: bool)
      requires Valid() && i < ino.Length && at / BSIZE < MAXFILE && at % BSIZE + |piece| <= BSIZE
      modifies this, blocks, ino
      ensures Valid() && Wrote(old(View()), View(), i, at, piece, if ok then |piece| else 0)
      ensures !ok ==> FullDisk(View()) && BlockOf(View(), i, at / BSIZE) == 0
      ensures ok ==> BlockOf(View(), i, at / BSIZE) != 0 && BlockOf(View(), i, at / BSIZE) in logged
      ensures Tx(old(logged), old(View()), View(), i, at / BSIZE, at / BSIZE + 1, logged)
    {
      ghost var v := View();
      var bn := at / BSIZE;
      var addr := Bmap(i, bn);
      ghost var w, l := View(), logged;
      ExtendsWrote(v, w, i, at, piece);
      if addr == 0 { return false; }
      Store(i, at, piece, addr);
      ghost var x := View();
      assert BlockOf(x, i, bn) == addr;
      assert InTx(v, x, i, bn, bn + 1, addr);
      TxMore(old(logged), v, w, x, i, bn, bn + 1, l, addr);
      WholePiece(v, w, x, i, at, piece);
      return true;
    }

    /** writei's loop. */
    method WriteBytes(i: nat, off: nat, src: seq<Byte>) returns (tot: nat)
      requires Valid() && i < ino.Length && off + |src| <= MAXFILE * BSIZE
      modifies this, blocks, ino
      ensures Valid() && tot <= |src| && Wrote(old(View()), View(), i, off, src, tot)
      ensures tot < |src| ==> FullDisk(View()) && BlockOf(View(), i, (off + tot) / BSIZE) == 0
      ensures Tx(old(logged), old(View()), View(), i, off / BSIZE, End(off, |src|), logged)
      ensures DataLogged(View(), i, off / BSIZE, End(off, tot), logged)
    {
      ghost var v := View();
      ExtendsSelf(v, i);
      ExtendsWrote(v, v, i, off, src);
      TxSelf(logged, v, i, off / BSIZE, End(off, |src|));
      tot := 0;
      while tot < |src|
        invariant Valid() && Progress(old(logged), v, View(), i, off, src, tot, logged)
      {
        ghost var w, l := View(), logged;
        var at := off + tot;
        var m := Min(|src| - tot, BSIZE - at % BSIZE);
        PieceRange(off, |src|, tot, at, m);
        var piece := src[tot..tot + m];
        var ok := WritePiece(i, at, piece);
        PieceDone(old(logged), v, w, View(), i, off, src, tot, at, piece, l, logged, ok);
        if !ok { break; }
        tot := tot + m;
      }
    }

    /** writei: bytes [off, off + rc) of the file are now src's and the size is at least off + rc;
        fewer than asked for only on a full disk. */
    method Writei(i: nat, off: nat, src: seq<Byte>) returns (rc: int)
      requires Valid() && AllFull(View()) && i < ino.Length && off < WORD && |src| < WORD
      modifies this, blocks, ino, dino
      ensures Valid() && AllFull(View()) && (rc == -1 <==> BadWrite(off, |src|, old(ino[i].size)))
      ensures rc == -1 ==> View() == old(View()) && logged == old(logged) && dino[..] == old(dino[..])
      ensures rc != -1 ==> 0 <= rc <= |src| && FilesAfter(old(View()), View(), i, off, src, rc) && dino[..] == old(dino[..])[i := ino[i]]
      ensures 0 <= rc < |src| ==> FullDisk(View()) && BlockOf(View(), i, (off + rc) / BSIZE) == 0
      ensures Tx(old(logged), old(View()), View(), i, off / BSIZE, End(off, |src|), logged)
      ensures rc != -1 ==> IBlock(sb, i) in logged && DataLogged(View(), i, off / BSIZE, End(off, rc), logged)
    {
      ghost var v := View();
      var n := |src|;
      Wraps(off, n);
      TxSelf(logged, v, i, off / BSIZE, End(off, n));
      if off > ino[i].size || (off + n) % WORD < off { return -1; }
      if (off + n) % WORD > MAXFILE * BSIZE { return -1; }
      var tot := WriteBytes(i, off, src);
      ghost var w, l := View(), logged;
      SetSize(v, i, off, src, tot);
      TxInode(old(logged), v, w, View(), i, off, n, tot, l);
      rc := tot;
    }

    /** The end of writei: the new size, then iupdate. */
    method SetSize(ghost v: Disk, i: nat, off: nat, src: seq<Byte>, tot: nat)
      requires Valid() && AllFull(v) && Wrote(v, View(), i, off, src, tot) && i < |v.ino| && off <= v.ino[i].size
      requires off + |src| <= MAXFILE * BSIZE && tot <= |src|
      modifies this`logged, ino, dino
      ensures Valid() && AllFull(View()) && FilesAfter(v, View(), i, off, src, tot) && logged == old(logged) + {IBlock(sb, i)}
      ensures dino[..] == old(dino[..])[i := ino[i]] && (old(FullDisk(View())) ==> FullDisk(View()))
      ensures forall jdx: nat :: Addr(View(), i, jdx) == old(Addr(View(), i, jdx))
    {
      ghost var w := View();
      ghost var size := if off + tot > ino[i].size then off + tot else ino[i].size;
      WroteFiles(v, w, i, off, src, tot, size);
      SizedGood(w, i, size);
      if FullDisk(w) { SizedFull(w, i, size); }
      if off + tot > ino[i].size { ino[i] := ino[i].(size := off + tot); }
      assert View() == Sized(w, i, size);
      IUpdate(i);
    }

    /** One turn of readi's loop. */
    method ReadSome(i: nat, at: nat, m: nat) returns (bytes: seq<Byte>)
      requires Valid() && i < ino.Length && Full(View(), i) && at % BSIZE + m <= BSIZE && at + m <= ino[i].size && at < ino[i].size
      modifies this, blocks, ino
      ensures Valid() && View() == old(View()) && logged == old(logged) && bytes == Content(View(), i)[at..at + m]
    {
      ghost var v := View();
      assert Mapped(v, i, at);
      BelowMax(at);
      var addr := Bmap(i, at / BSIZE);
      ReadPiece(v, i, at, m);
      bytes := blocks[addr][at % BSIZE..at % BSIZE + m];
    }

    /** readi's loop. */
    method ReadBytes(i: nat, off: nat, n: nat) returns (dst: seq<Byte>)
      requires Valid() && i < ino.Length && Full(View(), i) && off + n <= ino[i].size
      modifies this, blocks, ino
      ensures Valid() && View() == old(View()) && logged == old(logged) && dst == Content(View(), i)[off..off + n]
    {
      ghost var v := View();
      dst := [];
      var tot := 0;
      while tot < n
        invariant 0 <= tot <= n && View() == v && logged == old(logged) && Valid() && dst == Content(v, i)[off..off + tot]
      {
        var at := off + tot;
        var m := Min(n - tot, BSIZE - at % BSIZE);
        var piece := ReadSome(i, at, m);
        Joined(Content(v, i), off, tot, m);
        dst := dst + piece;
        tot := tot + m;
      }
    }

    /** readi: exactly the requested bytes, clipped to the size; it allocates nothing. */
    method Readi(i: nat, off: nat, count: nat) returns (dst: seq<Byte>)
      requires Valid() && AllFull(View()) && i < ino.Length && off < WORD && count < WORD
      modifies this, blocks, ino
      ensures Valid() && View() == old(View()) && logged == old(logged)
      ensures dst == ReadOf(View(), i, off, count)
    {
      var n := count;
      Wraps(off, n);
      if off > ino[i].size || (off + n) % WORD < off { return []; }
      if (off + n) % WORD > ino[i].size { n := ino[i].size - off; }
      assert Full(View(), i);
      dst := ReadBytes(i, off, n);
    }

    /** One of filewrite's transactions: begin_op, writei, end_op. */
    method WriteChunk(i: nat, off: nat, piece: seq<Byte>) returns (r: int, ghost tx: set<nat>)
      requires Valid() && AllFull(View()) && i < ino.Length && off < WORD && |piece| <= CHUNK
      modifies this, blocks, ino, dino
      ensures Valid() && AllFull(View()) && ChunkDone(old(View()), View(), i, off, piece, r)
      ensures |tx| > Journal.MAXOPBLOCKS - 1 <==> NeedsTen(old(View()), i, off, |piece|)
      ensures if r == -1 then tx == {} else Outcome(old(View()), View(), i, off, |piece|, r, tx)
      ensures InBounds(old(View()), View(), i, [tx])
    {
      ghost var v := View();
      logged := {};
      r := Writei(i, off, piece);
      tx := logged;
      if r == -1 {
        BadNeedsNone(v, i, off, |piece|);
        return;
      }
      assert Full(v, i);
      ChunkLogs(v, View(), i, off, |piece|, r, tx);
      ChunkInBounds(v, View(), i, off, |piece|, r, tx);
    }

    /** filewrite on an inode: a transaction per chunk, each within its bounds; k bytes
        get written, and the call succeeds exactly when these are all. */
    method FileWrite(i: nat, off0: nat, src: seq<Byte>) returns (ret: int, off: nat, ghost k: nat, ghost txs: seq<set<nat>>)
      requires Valid() && AllFull(View()) && i < ino.Length && off0 < WORD && |src| < 0x8000_0000
      modifies this, blocks, ino, dino
      ensures Valid() && AllFull(View()) && k <= |src| && off == off0 + k && ret == (if k == |src| then |src| else -1)
      ensures FileEffect(old(View()), View(), i, off0, src, k) && InBounds(old(View()), View(), i, txs)
    {
      ghost var v := View();
      if off0 <= ino[i].size { FilesSame(v, i, off0, src); }
      var done, n := 0, |src|;
      off, k, txs := off0, 0, [];
      while done < n
        invariant 0 <= done <= n == |src| && off == off0 + done && k == done && Valid() && AllFull(View()) && off < WORD
        invariant FileEffect(v, View(), i, off0, src, k) && InBounds(v, View(), i, txs)
      {
        ghost var w := View();
        var n1 := Min(n - done, CHUNK);
        var r;
        ghost var tx;
        var piece := src[done..done + n1];
        ghost var at := off;
        r, tx := WriteChunk(i, off, piece);
        InBoundsNext(v, w, View(), i, txs, tx);
        txs := txs + [tx];
        if r > 0 { off := off + r; }
        k := off - off0;
        EffectNext(v, w, View(), i, off0, src, done, n1, at, piece, r, k);
        if r != n1 { break; }
        done := done + r;
      }
      ret := if done == n then n else -1;
    }
  }
}
