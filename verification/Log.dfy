/** log.c as it runs: the in-memory header, the loops that copy, install and replay the
    transaction, and every image the disk goes through on the way. */
module Log {
  import opened Journal
  import LogSpace

  ghost function Home(disk: Disk): set<nat> { set b | b in disk && !InLog(b) }

  /** A reboot from this disk recovers exactly `contents`. */
  ghost predicate Recovers(disk: Disk, contents: Disk) {
    && GoodDisk(disk) && contents.Keys == Home(disk)
    && forall b :: b in contents ==> DurableAt(disk, b) == contents[b]
  }

  /** `before` with the logged blocks replaced by their cached contents. */
  ghost function Updated(before: Disk, lh: seq<nat>, cache: map<nat, Block>): Disk
    requires forall b :: b in lh ==> b in cache
  {
    map b | b in before :: if b in lh then cache[b] else before[b]
  }

  ghost function HomeOf(disk: Disk): Disk { map b | b in Home(disk) :: disk[b] }

  /** Installing entries 0..i of the log. */
  ghost predicate InstalledTo(disk: Disk, lh: seq<nat>, i: nat) {
    && GoodDisk(disk) && GetHead(disk[LOGSTART]) == lh && i <= |lh|
    && forall b :: b in lh && SlotOf(lh, b) < i ==> disk[b] == disk[LogBlock(lh, b)]
  }

  lemma InstallOne(disk: Disk, lh: seq<nat>, i: nat, contents: Disk)
    requires InstalledTo(disk, lh, i) && i < |lh| && Recovers(disk, contents)
    ensures var t := disk[lh[i] := disk[LOGSTART + 1 + i]];
            InstalledTo(t, lh, i + 1) && Recovers(t, contents)
  {
    var t := disk[lh[i] := disk[LOGSTART + 1 + i]];
    SlotOfEntry(lh, i);
    InstallKeepsDurable(disk, i, LOGSTART);
    forall b | b in contents ensures DurableAt(t, b) == contents[b] { InstallKeepsDurable(disk, i, b); }
    forall b | b in lh && SlotOf(lh, b) < i + 1 ensures t[b] == t[LogBlock(lh, b)] { }
  }

  ghost predicate StagedTo(disk: Disk, lh: seq<nat>, cache: map<nat, Block>, i: nat) {
    && GoodDisk(disk) && GetHead(disk[LOGSTART]) == [] && GoodHead(disk, lh) && i <= |lh|
    && forall b :: b in lh ==> b in cache && (SlotOf(lh, b) < i ==> disk[LogBlock(lh, b)] == cache[b])
  }

  lemma StageOne(disk: Disk, lh: seq<nat>, cache: map<nat, Block>, i: nat, contents: Disk)
    requires StagedTo(disk, lh, cache, i) && i < |lh| && Recovers(disk, contents)
    ensures var t := disk[LOGSTART + 1 + i := cache[lh[i]]];
            StagedTo(t, lh, cache, i + 1) && Recovers(t, contents)
  {
    var t := disk[LOGSTART + 1 + i := cache[lh[i]]];
    SlotOfEntry(lh, i);
    assert Home(t) == Home(disk);
  }

  /** The header write switches every logged block at once. */
  lemma HeadSwitches(disk: Disk, lh: seq<nat>, cache: map<nat, Block>, before: Disk)
    requires Recovers(disk, before) && GetHead(disk[LOGSTART]) == [] && GoodHead(disk, lh)
    requires forall b :: b in lh ==> b in cache && disk[LogBlock(lh, b)] == cache[b]
    ensures Recovers(disk[LOGSTART := PutHead(disk[LOGSTART], lh)], Updated(before, lh, cache))
  {
    var t := disk[LOGSTART := PutHead(disk[LOGSTART], lh)];
    assert Home(t) == Home(disk);
  }

  /** The cached changes left when the first k logged blocks have been unpinned. */
  function Unpinned(cache: map<nat, Block>, lh: seq<nat>, k: nat): map<nat, Block>
    requires k <= |lh|
  {
    cache - (set b | b in lh[..k])
  }

  lemma UnpinNext(cache: map<nat, Block>, lh: seq<nat>, k: nat)
    requires k < |lh|
    ensures Unpinned(cache, lh, k) - {lh[k]} == Unpinned(cache, lh, k + 1)
  {
    assert lh[..k + 1] == lh[..k] + [lh[k]];
  }

  /** Erasing an installed transaction changes nothing a reboot recovers. */
  lemma EraseKeeps(disk: Disk, lh: seq<nat>, contents: Disk)
    requires InstalledTo(disk, lh, |lh|) && Recovers(disk, contents)
    ensures Recovers(disk[LOGSTART := PutHead(disk[LOGSTART], [])], contents)
    ensures HomeOf(disk[LOGSTART := PutHead(disk[LOGSTART], [])]) == contents
  {
    var t := disk[LOGSTART := PutHead(disk[LOGSTART], [])];
    assert Home(t) == Home(disk);
    forall b | b in contents ensures DurableAt(t, b) == contents[b] && t[b] == contents[b] {
      if b in lh { assert SlotOf(lh, b) < |lh|; }
    }
  }

  class Driver {
    var disk: Disk                  // the platter
    var cache: map<nat, Block>      // contents of the pinned buffers
    var n: nat                      // log.lh.n
    const block: array<nat>         // log.lh.block
    var outstanding: nat            // operations between begin_op and end_op
    var committing: bool
    ghost var added: map<Op, nat>   // blocks each of them has added to the log
    ghost var images: seq<Disk>     // every image the platter has held, oldest first

    constructor (disk: Disk)
      ensures this.disk == disk && n == 0 && cache == map[] && images == [disk]
      ensures outstanding == 0 && !committing && added == map[]
      ensures fresh(block) && block.Length == LOGSIZE
    {
      this.disk, n, cache := disk, 0, map[];
      outstanding, committing, added := 0, false, map[];
      block := new nat[LOGSIZE](i => 0);
      images := [disk];
    }

    ghost function Lh(): seq<nat>
      reads this`n, block
      requires n <= block.Length
    {
      block[..n]
    }

    ghost predicate Valid()
      reads this`disk, this`n, this`outstanding, this`added, this`images, block
    {
      && block.Length == LOGSIZE && n < NLOG && outstanding == |added|
      && GoodDisk(disk) && GoodHead(disk, Lh())
      && images != [] && images[|images| - 1] == disk
    }

    /** bwrite: one block, one atomic disk write, one more image. */
    method Bwrite(b: nat, data: Block)
      modifies this`disk, this`images
      ensures disk == old(disk)[b := data] && images == old(images) + [disk]
    {
      disk := disk[b := data];
      images := images + [disk];
    }

    /** write_head: the entries are copied into the header block one by one. */
    method WriteHead()
      requires block.Length == LOGSIZE && n < NLOG && LOGSTART in disk
      modifies this`disk, this`images
      ensures disk == old(disk)[LOGSTART := PutHead(old(disk)[LOGSTART], Lh())]
      ensures images == old(images) + [disk]
    {
      var hb: seq<nat> := disk[LOGSTART][0 := n];
      for i := 0 to n
        invariant |hb| == BWORDS && hb[0] == n
        invariant hb[1..1 + i] == block[..i]
        invariant hb[1 + i..] == disk[LOGSTART][1 + i..]
      {
        hb := hb[1 + i := block[i]];
      }
      assert hb == PutHead(disk[LOGSTART], Lh());
      Bwrite(LOGSTART, hb);
    }

    /** read_head */
    method ReadHead()
      requires block.Length == LOGSIZE && GoodDisk(disk)
      modifies this`n, block
      ensures n < NLOG && Lh() == GetHead(disk[LOGSTART])
    {
      var lh := disk[LOGSTART];
      n := lh[0];
      for i := 0 to n
        invariant n == lh[0] && block[..i] == lh[1..1 + i]
      {
        block[i] := lh[1 + i];
      }
    }

    /** Every image since number `from` recovers `contents`. */
    ghost predicate AllRecover(from: nat, contents: Disk)
      reads this`images
    {
      forall k :: from <= k < |images| ==> Recovers(images[k], contents)
    }

    /** Since `was`, the images recover `before` up to number cut and `after` from there on, and
        `after` is in place. */
    ghost predicate Switched(was: seq<Disk>, cut: nat, before: Disk, after: Disk)
      reads this`images, this`disk
    {
      && was <= images && |was| <= cut <= |images| && HomeOf(disk) == after
      && (forall k :: |was| <= k < cut ==> Recovers(images[k], before)) && AllRecover(cut, after)
    }

    /** write_log: no image before the header write recovers anything new. */
    method WriteLog(ghost contents: Disk)
      requires Valid() && StagedTo(disk, Lh(), cache, 0) && Recovers(disk, contents)
      modifies this`disk, this`images
      ensures Valid() && StagedTo(disk, Lh(), cache, n) && Recovers(disk, contents)
      ensures old(images) <= images && AllRecover(|old(images)|, contents)
    {
      ghost var lh := Lh();
      for tail := 0 to n
        invariant Valid() && StagedTo(disk, lh, cache, tail) && Recovers(disk, contents)
        invariant old(images) <= images && AllRecover(|old(images)|, contents)
      {
        WriteOne(tail, contents, |old(images)|);
      }
    }

    /** One turn of write_log's loop. */
    method WriteOne(tail: nat, ghost contents: Disk, ghost k: nat)
      requires Valid() && tail < n && StagedTo(disk, Lh(), cache, tail) && Recovers(disk, contents)
      requires k <= |images| && AllRecover(k, contents)
      modifies this`disk, this`images
      ensures Valid() && StagedTo(disk, Lh(), cache, tail + 1) && Recovers(disk, contents)
      ensures old(images) <= images && AllRecover(k, contents)
    {
      StageOne(disk, Lh(), cache, tail, contents);
      Bwrite(LOGSTART + 1 + tail, cache[block[tail]]);
    }

    /** install_trans: every image it produces recovers the same contents. */
    method InstallTrans(recovering: bool, ghost contents: Disk)
      requires Valid() && GetHead(disk[LOGSTART]) == Lh() && Recovers(disk, contents)
      modifies this`disk, this`images, this`cache
      ensures Valid() && InstalledTo(disk, Lh(), n) && Recovers(disk, contents)
      ensures old(images) <= images && AllRecover(|old(images)|, contents)
      ensures cache == if recovering then old(cache) else old(cache) - (set b | b in Lh())
    {
      ghost var lh := Lh();
      for tail := 0 to n
        invariant Valid() && InstalledTo(disk, lh, tail) && Recovers(disk, contents)
        invariant old(images) <= images && AllRecover(|old(images)|, contents)
        invariant cache == if recovering then old(cache) else Unpinned(old(cache), lh, tail)
      {
        InstallOne(disk, lh, tail, contents);
        Bwrite(block[tail], disk[LOGSTART + 1 + tail]);
        if !recovering {
          UnpinNext(old(cache), lh, tail);
          cache := cache - {block[tail]};   // bunpin
        }
      }
      assert lh[..n] == lh;
    }

    /** The tail that commit and recovery share: install, then erase the header. */
    method InstallAndErase(recovering: bool, ghost contents: Disk)
      requires Valid() && GetHead(disk[LOGSTART]) == Lh() && Recovers(disk, contents)
      modifies this`disk, this`images, this`cache, this`n
      ensures Valid() && Lh() == [] && GetHead(disk[LOGSTART]) == []
      ensures old(images) <= images && AllRecover(|old(images)|, contents)
      ensures HomeOf(disk) == contents
      ensures cache == if recovering then old(cache) else old(cache) - (set b | b in old(Lh()))
    {
      InstallTrans(recovering, contents);
      EraseKeeps(disk, Lh(), contents);
      n := 0;
      WriteHead();
    }

    /** commit: the images it goes through recover the old contents up to one point and the
        new contents from there on, and at the end the new contents are in place. */
    method Commit(ghost before: Disk) returns (ghost cut: nat)
      requires Valid() && GetHead(disk[LOGSTART]) == []
      requires forall b :: b in Lh() ==> b in cache
      requires before == HomeOf(disk)
      modifies this`disk, this`images, this`cache, this`n
      ensures Valid() && Lh() == [] && GetHead(disk[LOGSTART]) == []
      ensures Switched(old(images), cut, before, Updated(before, old(Lh()), old(cache)))
      ensures cache == old(cache) - (set b | b in old(Lh()))
    {
      ghost var lh, after := Lh(), Updated(before, Lh(), cache);
      assert Recovers(disk, before);
      cut := |images|;
      if n > 0 {
        WriteLog(before);
        cut := |images|;
        HeadSwitches(disk, lh, cache, before);
        WriteHead();
        InstallAndErase(false, after);
      }
    }

    /** recover_from_log: however often it is cut short and restarted, each image it
        leaves recovers the contents the first one did; once it completes they are in place. */
    method RecoverFromLog(ghost contents: Disk)
      requires block.Length == LOGSIZE && images != [] && images[|images| - 1] == disk
      requires outstanding == |added| && Recovers(disk, contents)
      modifies this`disk, this`images, this`cache, this`n, block
      ensures Valid() && Lh() == [] && GetHead(disk[LOGSTART]) == []
      ensures old(images) <= images && AllRecover(|old(images)|, contents)
      ensures HomeOf(disk) == contents
    {
      ReadHead();
      InstallAndErase(true, contents);
    }

    ghost function Space(): LogSpace.Space
      reads this, block
      requires n <= block.Length
    {
      LogSpace.Space(Lh(), added)
    }

    /** One turn of begin_op's loop, under log.lock; false means it sleeps and retries. */
    method BeginOp(op: Op) returns (entered: bool)
      requires Valid() && op !in added
      modifies this`outstanding, this`added
      ensures Valid()
      ensures entered <==> !committing && LogSpace.Perform(old(Space()), LogSpace.Begin(op)).Done?
      ensures Space() == if entered then LogSpace.Perform(old(Space()), LogSpace.Begin(op)).s else old(Space())
    {
      if committing || n + (outstanding + 1) * MAXOPBLOCKS > LOGSIZE {
        entered := false;
      } else {
        outstanding := outstanding + 1;
        added := added[op := 0];
        entered := true;
      }
    }

    /** The part of end_op before the commit; the last operation out closes the log. */
    method EndOp(op: Op) returns (doCommit: bool)
      requires Valid() && op in added && !committing
      modifies this`outstanding, this`added, this`committing
      ensures Valid() && added == old(added) - {op}
      ensures doCommit <==> added == map[]
      ensures committing == doCommit
    {
      outstanding := outstanding - 1;
      added := added - {op};
      assert added == map[] <==> |added| == 0;
      doCommit := outstanding == 0;
      if doCommit { committing := true; }
    }

    /** end_op from call to return: the last operation commits everything logged and reopens the log,
        any other leaves log and disk alone. */
    method EndTransaction(op: Op, ghost before: Disk) returns (ghost cut: nat)
      requires Valid() && op in added && !committing && GetHead(disk[LOGSTART]) == []
      requires (forall b :: b in Lh() ==> b in cache) && before == HomeOf(disk)
      modifies this`outstanding, this`added, this`committing, this`disk, this`images, this`cache, this`n
      ensures Valid() && !committing && added == old(added) - {op} && GetHead(disk[LOGSTART]) == []
      ensures added != map[] ==> disk == old(disk) && images == old(images) && Lh() == old(Lh()) && cache == old(cache)
      ensures added == map[] ==> Lh() == [] && Switched(old(images), cut, before, Updated(before, old(Lh()), old(cache)))
    {
      cut := 0;
      var doCommit := EndOp(op);
      if doCommit {
        cut := Commit(before);
        committing := false;
      }
    }

    /** log_write's absorption loop: the place of b in the log, or the end of it. */
    method Absorb(b: nat) returns (i: nat)
      requires n <= block.Length
      ensures i <= n && b !in block[..i] && (i < n ==> block[i] == b)
    {
      i := 0;
      while i < n && block[i] != b
        invariant 0 <= i <= n
        invariant b !in block[..i]
      {
        i := i + 1;
      }
    }

    /** log_write: absorption or append, and the outcome the reservation argument is about. */
    method LogWrite(op: Op, b: nat, data: Block) returns (ok: bool)
      requires Valid() && b in disk && !InLog(b) && (added != map[] ==> op in added)
      modifies this`n, this`cache, this`added, block
      ensures ok <==> LogSpace.Perform(old(Space()), LogSpace.Call.Write(op, b)).Done?
      ensures n <= block.Length
      ensures !ok ==> Space() == old(Space()) && cache == old(cache)
      ensures ok ==> Valid() && cache == old(cache)[b := data]
      ensures ok ==> Space() == LogSpace.Perform(old(Space()), LogSpace.Call.Write(op, b)).s
    {
      if n >= LOGSIZE || n >= NLOG - 1 || outstanding < 1 { return false; }   // panic
      assert added != map[];
      var i := Absorb(b);
      ghost var lh := Lh();
      block[i] := b;
      cache := cache[b := data];
      if i == n {
        assert lh == block[..i];
        AppendDistinct(lh, b);
        n := n + 1;
        added := added[op := added[op] + 1];
        assert Lh() == lh + [b];
      } else {
        assert lh[i] == b;
        assert Lh() == lh;
      }
      ok := true;
    }
  }
}
