/** walk, mappages, the uvm operations, freewalk and fork's use of memory, as they change
    physical pages in place (vm.c, kalloc.c, proc.c, sysproc.c). */
module VirtualMemory {
  import opened PageTable

  class Vm {
    const pages: array<Page>
    var free: seq<nat>
    ghost var owner: map<nat, Owner>
    ghost var at: map<Tab, nat>
    ghost var hole: Option<Tab>

    ghost function View(): Mem
      reads this, pages
    {
      Mem(pages[..], free, owner, at, hole)
    }

    ghost predicate Valid()
      reads this, pages
    {
      Good(View()) && hole == None
    }

    /** kinit: freerange puts every page of [lo, hi) on the free list. */
    constructor (lo: nat, hi: nat)
      requires 0 < lo <= hi
      ensures Valid() && fresh(pages) && at == map[] && |free| == hi - lo
      ensures forall p :: p in owner <==> lo <= p < hi
      ensures forall p :: p in owner ==> owner[p] == Free
    {
      pages := new Page[hi](_ => Junk);
      free, owner, at, hole := [], map[], map[], None;
      new;
      var p := lo;
      while p < hi
        invariant lo <= p <= hi && |free| == p - lo && at == map[] && hole == None && fresh(pages) && pages.Length == hi
        invariant forall x :: x in owner <==> lo <= x < p
        invariant forall x :: x in owner ==> owner[x] == Free && x in free
        invariant FreeOk(View()) && forall k :: 0 <= k < |free| ==> lo <= free[k] < p
      {
        pages[p] := Junk;
        free := [p] + free;
        owner := owner[p := Free];
        p := p + 1;
      }
      AllFreeGood(View());
    }

    /** kalloc: the first page of the free list, or 0. */
    method Kalloc() returns (p: nat)
      requires Valid()
      modifies this, pages
      ensures Valid() && (p == 0 <==> old(free) == [])
      ensures p == 0 ==> View() == old(View())
      ensures p != 0 ==> p == old(free[0]) && p < pages.Length && View() == Taken(old(View())) && owner[p] == Held
    {
      ghost var m := View();
      if free == [] { return 0; }
      assert free[0] in m.free && PageOk(m, free[0]);
      TakenGood(m);
      p := free[0];
      free := free[1..];
      pages[p] := Junk;
      owner := owner[p := Held];
      assert View() == Taken(m);
    }

    /** kfree of a page that nothing refers to any more. */
    method Kfree(p: nat)
      requires Valid() && p in owner && owner[p] == Held
      modifies this, pages
      ensures p < pages.Length && Valid() && View() == Released(old(View()), p)
    {
      ghost var m := View();
      assert PageOk(m, p);
      ReleasedGood(m, p);
      pages[p] := Junk;
      free := [p] + free;
      owner := owner[p := Free];
      assert View() == Released(m, p);
    }

    /** One level of walk: the table below `page` for entry i, made if it is missing and alloc is set. */
    method Descend(page: nat, i: nat, alloc: bool, ghost t: Tab) returns (next: nat)
      requires Valid() && t in at && at[t] == page && !t.Low? && i < ENTRIES && Child(t, i).i2 < 256
      modifies this, pages
      ensures Valid() && SameMaps(old(View()), View()) && Changed(old(View()), View(), t.r, 0, 0)
      ensures next != 0 ==> Child(t, i) in at && at[Child(t, i)] == next
      ensures next == 0 ==> View() == old(View()) && Child(t, i) !in at && (alloc ==> free == [])
      ensures !alloc ==> View() == old(View())
      ensures forall s :: s in at ==> s in old(at) || s == Child(t, i)
    {
      ghost var m, c := View(), Child(t, i);
      ChangedSelf(m, t.r, 0, 0);
      TabIs(m, t);
      EntryIs(m, t, i);
      var pte := pages[page].ptes[i];
      if pte.v {
        TabIs(m, c);
        PageIs(m, pte.ppn);
        return pte.ppn;
      }
      if !alloc { return 0; }
      next := Kalloc();
      if next == 0 { return 0; }
      ghost var k := View();
      TabIs(k, t);
      TableAddedGood(k, c, next);
      TableAddedChanged(m, c, next);
      TakenGood(m);
      pages[next] := Table(Blank());
      pages[page] := Table(pages[page].ptes[i := Pte(true, next, NOFLAGS)]);
      owner, at := owner[next := Tables(c)], at[c := next];
      assert View() == TableAdded(k, c, next);
    }

    /** walk: the level-0 table for vpn.  Making tables on the way changes no map. */
    method Walk(r: nat, vpn: nat, alloc: bool) returns (ok: bool, page: nat)
      requires Valid() && Root(r) in at && vpn < MAXVPN
      modifies this, pages
      ensures Valid() && SameMaps(old(View()), View()) && Changed(old(View()), View(), r, 0, 0)
      ensures ok ==> LowOf(r, vpn) in at && at[LowOf(r, vpn)] == page
      ensures !ok ==> LowOf(r, vpn) !in at && (alloc ==> free == [])
      ensures !alloc ==> View() == old(View())
      ensures forall t :: t in at ==> t in old(at) || t == Mid(r, I2(vpn)) || t == LowOf(r, vpn)
    {
      ghost var m := View();
      ChangedSelf(m, r, 0, 0);
      TabIs(m, Root(r));
      page := r;
      var level := 2;
      while level > 0
        invariant 0 <= level <= 2 && OnPath(r, vpn, level) in at && at[OnPath(r, vpn, level)] == page
        invariant Valid() && SameMaps(m, View()) && Changed(m, View(), r, 0, 0) && (!alloc ==> View() == m)
        invariant forall t :: t in at ==> t in m.at || t == Mid(r, I2(vpn)) || t == LowOf(r, vpn)
      {
        ghost var v := View();
        var next := Descend(page, Px(level, vpn), alloc, OnPath(r, vpn, level));
        ChangedTwice(m, v, View(), r, 0, 0);
        if next == 0 {
          NoLow(View(), r, vpn);
          return false, 0;
        }
        page := next;
        level := level - 1;
      }
      return true, page;
    }

    /** Store through the pointer that walk returned. */
    method SetEntry(page: nat, r: nat, vpn: nat, e: Pte)
      requires Valid() && vpn < MAXVPN && LowOf(r, vpn) in at && at[LowOf(r, vpn)] == page && (e == ZERO || (e.v && IsLeaf(e.flags)))
      requires forall p :: p in owner ==> owner[p] != User(r, vpn)
      modifies this, pages
      ensures Valid() && MapPut(old(View()), r, vpn, e, View()) && Changed(old(View()), View(), r, 0, 0)
      ensures owner == old(owner) && at == old(at) && free == old(free)
      ensures IsTable(old(View()), page) && View() == LeafPut(old(View()), r, vpn, e)
    {
      ghost var m := View();
      TabIs(m, LowOf(r, vpn));
      LeafPutGood(m, r, vpn, e);
      LeafPutChanged(m, r, vpn, e);
      pages[page] := Table(pages[page].ptes[I0(vpn) := e]);
      assert View() == LeafPut(m, r, vpn, e);
    }

    /** One turn of mappages' loop. */
    method MapOne(r: nat, a: nat, pa: nat, perm: Flags) returns (ok: bool)
      requires Valid() && Root(r) in at && a < MAXVPN && IsLeaf(perm) && !Leaf(View(), r, a).v
      modifies this, pages
      ensures Valid() && Root(r) in at && Changed(old(View()), View(), r, 0, 0)
      ensures if ok then MapPut(old(View()), r, a, Pte(true, pa, perm), View()) else SameMaps(old(View()), View())
      ensures if ok then LowOf(r, a) in at else LowOf(r, a) !in at && free == []
      ensures forall t :: t in at ==> t in old(at) || t == Mid(r, I2(a)) || t == LowOf(r, a)
    {
      ghost var v := View();
      var page;
      ok, page := Walk(r, a, true);
      if !ok { return; }
      ghost var w := View();
      NotUser(w, r, a);
      SetEntry(page, r, a, Pte(true, pa, perm));
      ChangedTwice(v, w, View(), r, 0, 0);
    }

    /** mappages: exactly the range is mapped on success; on failure a prefix of it, of k
        pages, stays mapped.  It succeeds exactly when the free list has a page for every missing
        table, and k is the longest prefix for which it has. */
    method MapPages(r: nat, vpn: nat, n: nat, ppn: nat, perm: Flags) returns (rc: int, ghost k: nat)
      requires Valid() && Root(r) in at && n > 0 && vpn + n <= MAXVPN && IsLeaf(perm)
      requires forall u :: vpn <= u < vpn + n ==> !Leaf(View(), r, u).v
      modifies this, pages
      ensures Valid() && Changed(old(View()), View(), r, 0, 0)
      ensures k <= n && Mapped(old(View()), r, vpn, k, ppn, perm, View())
      ensures (rc == 0 && k == n) || (rc == -1 && k < n && free == [])
      ensures rc == 0 <==> Fits(old(View()), r, vpn, n)
      ensures forall j: nat :: j <= n ==> (Fits(old(View()), r, vpn, j) <==> j <= k)
      ensures SameOutside(old(View()), r, 0, 0, View()) <==> !Fits(old(View()), r, vpn, 1)
    {
      ghost var m := View();
      ChangedSelf(m, r, 0, 0);
      assert !Leaf(m, r, vpn).v;
      var a, pa, last := vpn, ppn, vpn + n - 1;
      k := 0;
      while true
        invariant Valid() && Root(r) in at && Changed(m, View(), r, 0, 0)
        invariant k < n && a == vpn + k && pa == ppn + k && Mapped(m, r, vpn, k, ppn, perm, View())
        invariant Made(m, View(), r, vpn, k)
        decreases n - k
      {
        ghost var v := View();
        var ok := MapOne(r, a, pa, perm);
        if !ok {
          TurnFails(m, v, View(), r, vpn, k, n, ppn, perm);
          return -1, k;
        }
        TurnMaps(m, v, View(), r, vpn, k, ppn, perm, a, pa);
        k := k + 1;
        if a == last { break; }
        a, pa := a + 1, pa + 1;
      }
      assert k == n;
      AllMapped(m, View(), r, vpn, k, ppn, perm);
      return 0, k;
    }

    /** One turn of uvmunmap's loop. */
    method UnmapOne(r: nat, vpn: nat, doFree: bool)
      requires Valid() && Root(r) in at && vpn < MAXVPN && Leaf(View(), r, vpn).v
      requires doFree ==> Leaf(View(), r, vpn).ppn in owner && owner[Leaf(View(), r, vpn).ppn] == User(r, vpn)
      requires !doFree ==> forall p :: p in owner ==> owner[p] != User(r, vpn)
      modifies this, pages
      ensures Valid() && Unmapped(old(View()), r, vpn, vpn + 1, View()) && Freed(old(View()), View(), r, vpn, vpn + 1)
    {
      ghost var m := View();
      var ok, page := Walk(r, vpn, false);
      TabIs(m, LowOf(r, vpn));
      EntryIs(m, LowOf(r, vpn), I0(vpn));
      var pte := pages[page].ptes[I0(vpn)];
      assert ok && pte.v && IsLeaf(pte.flags);   // none of the three panics
      if doFree {
        PageIs(m, pte.ppn);
        ghost var k := LeafPut(m.(owner := m.owner[pte.ppn := Held]), r, vpn, ZERO);
        UnmapFreed(m, r, vpn, pte.ppn, k, Released(k, pte.ppn));
        pages[pte.ppn] := Junk;
        free := [pte.ppn] + free;
        owner := owner[pte.ppn := Free];
        pages[page] := Table(pages[page].ptes[I0(vpn) := ZERO]);
        assert View() == Released(k, pte.ppn);
      } else {
        KeptFreed(m, r, vpn);
        SetEntry(page, r, vpn, ZERO);
      }
    }

    /** uvmunmap removes exactly its range, freeing the pages if asked to. */
    method UvmUnmap(r: nat, vpn: nat, npages: nat, doFree: bool)
      requires Valid() && Root(r) in at && vpn + npages <= MAXVPN
      requires !doFree ==> forall u :: vpn <= u < vpn + npages ==> Leaf(View(), r, u).v
      requires doFree ==> forall u :: vpn <= u < vpn + npages ==> Owned(View(), r, u)
      requires !doFree ==> forall p :: p in owner && owner[p].User? && owner[p].r == r ==> !(vpn <= owner[p].vpn < vpn + npages)
      modifies this, pages
      ensures Valid() && Unmapped(old(View()), r, vpn, vpn + npages, View())
      ensures Freed(old(View()), View(), r, vpn, vpn + npages)
    {
      ghost var m := View();
      FreedSelf(m, r, vpn);
      var a := vpn;
      while a < vpn + npages
        invariant vpn <= a <= vpn + npages && Valid() && Root(r) in at
        invariant Unmapped(m, r, vpn, a, View()) && Freed(m, View(), r, vpn, a)
      {
        ghost var v := View();
        assert doFree ==> Owned(m, r, a);
        FreedOther(m, v, r, vpn, a, doFree);
        UnmapOne(r, a, doFree);
        FreedTwice(m, v, View(), r, vpn, a, a + 1);
        a := a + 1;
      }
    }

    /** kalloc, fill, mappages; and kfree again if mappages fails. */
    method MapNew(r: nat, vpn: nat, bytes: seq<Byte>, perm: Flags) returns (ok: bool)
      requires Valid() && Root(r) in at && vpn < MAXVPN && IsLeaf(perm) && !Leaf(View(), r, vpn).v && |bytes| == PGSIZE
      modifies this, pages
      ensures Valid() && Root(r) in at && SameOutside(old(View()), r, vpn, vpn + 1, View())
      ensures ok ==> Holds(View(), r, vpn, bytes, perm) && Changed(old(View()), View(), r, vpn, vpn + 1)
      ensures !ok ==> Leaf(View(), r, vpn) == old(Leaf(View(), r, vpn)) && Changed(old(View()), View(), r, 0, 0)
    {
      ghost var m := View();
      ChangedSelf(m, r, 0, 0);
      var mem := Kalloc();
      if mem == 0 { return false; }
      TakenGood(m);
      FilledGood(View(), mem, Data(bytes));
      pages[mem] := Data(bytes);
      ghost var f := View();
      assert f == PutPage(Taken(m), mem, Data(bytes));
      assert Leaf(f, r, vpn) == Leaf(m, r, vpn);
      var rc, k := MapPages(r, vpn, 1, mem, perm);
      ghost var g := View();
      assert Moved(f, mem, g, r, 0, 0);
      if rc != 0 {
        TakenBack(m, mem, Data(bytes), g, r);
        ReleasedGood(g, mem);
        Kfree(mem);
        return false;
      }
      TakenOver(m, mem, Data(bytes), g, r, vpn);
      assert Leaf(g, r, vpn) == Pte(true, mem, perm);
      AdoptedGood(g, mem, r, vpn);
      owner := owner[mem := User(r, vpn)];
      SameLeaves(g, View());
      return true;
    }

    /** uvmdealloc: the pages between the two sizes go, and the bytes below the smaller one stay. */
    method UvmDealloc(r: nat, oldsz: nat, newsz: nat) returns (sz: nat)
      requires Valid() && Root(r) in at && Up(oldsz) <= MAXVPN
      requires forall u :: Up(newsz) <= u < Up(oldsz) ==> Owned(View(), r, u)
      modifies this, pages
      ensures Valid() && sz == if newsz >= oldsz then oldsz else newsz
      ensures Unmapped(old(View()), r, Up(newsz), Up(oldsz), View()) && Freed(old(View()), View(), r, Up(newsz), Up(oldsz))
      ensures NoBytes(View(), r, Up(newsz) * PGSIZE, oldsz)
      ensures OwnsAll(old(View()), r, sz) ==> SameBytes(old(View()), r, View(), r, sz)
    {
      ghost var m := View();
      if Up(oldsz) <= Up(newsz) { FreedEmpty(m, r, Up(newsz), Up(oldsz)); }
      if newsz >= oldsz {
        sz := oldsz;
      } else {
        if Up(newsz) < Up(oldsz) {
          var npages := Up(oldsz) - Up(newsz);
          UvmUnmap(r, Up(newsz), npages, true);
        }
        sz := newsz;
      }
      GoneBytes(m, View(), r, oldsz, newsz);
      UpMonotone(sz, newsz);
      UpMonotone(sz, oldsz);
      if OwnsAll(m, r, sz) { LeftBytes(m, View(), r, oldsz, newsz, sz); }
    }

    /** uvmalloc: zeroed pages up to the new size, or no change of map and no page kept but tables. */
    method UvmAlloc(r: nat, oldsz: nat, newsz: nat, w: bool, x: bool) returns (sz: nat, ghost ok: bool)
      requires Valid() && Root(r) in at && Up(newsz) <= MAXVPN
      requires forall u :: Up(oldsz) <= u < Up(newsz) ==> !Leaf(View(), r, u).v
      modifies this, pages
      ensures Valid() && Root(r) in at && (ok ==> sz == if newsz < oldsz then oldsz else newsz) && (!ok ==> sz == 0)
      ensures ok ==> Zeroed(View(), r, Up(oldsz), Up(newsz), Flags(true, w, x, true))
      ensures ok ==> SameOutside(old(View()), r, Up(oldsz), Up(newsz), View()) && Changed(old(View()), View(), r, Up(oldsz), Up(newsz))
      ensures !ok ==> SameOutside(old(View()), r, 0, 0, View()) && Changed(old(View()), View(), r, 0, 0)
      ensures ok ==> FreshBytes(View(), r, w, Up(oldsz) * PGSIZE, newsz)
      ensures OwnsAll(old(View()), r, oldsz) ==> SameBytes(old(View()), r, View(), r, oldsz)
    {
      ghost var m := View();
      ghost var perm := Flags(true, w, x, true);
      ChangedSelf(m, r, Up(oldsz), Up(newsz));
      if newsz < oldsz {
        UpMonotone(newsz, oldsz);
        GrownBytes(m, m, r, oldsz, newsz, w, x);
        return oldsz, true;
      }
      UpMonotone(oldsz, newsz);
      var lo := Up(oldsz);
      var a := lo;
      forall u: nat | lo <= u < Up(newsz) ensures Leaf(m, r, u) == ZERO { LeafIs(m, r, u); }
      ChangedSelf(m, r, lo, lo);
      while a < Up(newsz)
        invariant lo <= a <= Up(newsz) && Valid() && Root(r) in at
        invariant Changed(m, View(), r, lo, a) && SameOutside(m, r, lo, a, View()) && Zeroed(View(), r, lo, a, perm)
      {
        ghost var v := View();
        var got := MapNew(r, a, Zeroes(), Flags(true, w, x, true));
        ghost var g := View();
        if !got {
          AllocFails(m, v, g, r, lo, a, perm);
          var _ := UvmDealloc(r, a * PGSIZE, lo * PGSIZE);
          RolledBack(m, g, View(), r, lo, a);
          if OwnsAll(m, r, oldsz) { KeptBytes(m, View(), r, 0, 0, r, oldsz); }
          return 0, false;
        }
        AllocNext(m, v, g, r, lo, a, perm);
        a := a + 1;
      }
      GrownBytes(m, View(), r, oldsz, newsz, w, x);
      return newsz, true;
    }

    /** One turn of uvmcopy's loop. */
    method CopyOne(r: nat, q: nat, i: nat) returns (ok: bool)
      requires Valid() && Root(r) in at && Root(q) in at && i < MAXVPN && Owned(View(), r, i) && !Leaf(View(), q, i).v
      modifies this, pages
      ensures Valid() && Root(q) in at && Root(r) in at && SameOutside(old(View()), q, i, i + 1, View())
      ensures ok ==> CopyOf(old(View()), r, View(), q, i) && Changed(old(View()), View(), q, i, i + 1)
      ensures !ok ==> Leaf(View(), q, i) == old(Leaf(View(), q, i)) && Changed(old(View()), View(), q, 0, 0)
    {
      ghost var v := View();
      var found, page := Walk(r, i, false);
      OwnedIs(v, r, i);
      TabIs(v, LowOf(r, i));
      var pte := pages[page].ptes[I0(i)];
      assert found && pte.v;   // neither panic
      ok := MapNew(q, i, pages[pte.ppn].bytes, pte.flags);
    }

    /** uvmcopy: the child gets equal bytes and flags on pages of its own; on failure its map
        is as before and no page is kept but tables. */
    method UvmCopy(r: nat, q: nat, sz: nat) returns (rc: int)
      requires Valid() && Root(r) in at && Root(q) in at && r != q && Up(sz) <= MAXVPN
      requires forall u :: 0 <= u < Up(sz) ==> Owned(View(), r, u) && !Leaf(View(), q, u).v
      modifies this, pages
      ensures Valid() && Root(q) in at && (rc == 0 || rc == -1)
      ensures rc == 0 ==> Copied(old(View()), r, View(), q, Up(sz))
      ensures rc == -1 ==> SameOutside(old(View()), q, 0, 0, View()) && Changed(old(View()), View(), q, 0, 0)
      ensures SameBytes(old(View()), r, View(), r, sz) && (rc == 0 ==> SameBytes(old(View()), r, View(), q, sz))
    {
      ghost var m := View();
      ChangedSelf(m, q, 0, 0);
      LeavesAre(m, q, Up(sz));
      var i := 0;
      while i < Up(sz)
        invariant 0 <= i <= Up(sz) && Valid() && Root(q) in at && Root(r) in at && Copied(m, r, View(), q, i)
      {
        ghost var v := View();
        OwnedKept(m, v, r, q, i);
        var got := CopyOne(r, q, i);
        ghost var g := View();
        if !got {
          CopyFails(m, r, v, g, q, i);
          UvmUnmap(q, 0, i, true);
          RolledBack(m, g, View(), q, 0, i);
          KeptBytes(m, View(), q, 0, 0, r, sz);
          return -1;
        }
        CopyNext(m, r, v, g, q, i);
        i := i + 1;
      }
      CopiedBytes(m, r, View(), q, sz);
      return 0;
    }

    /** freewalk: the tables at and below t are freed, each once; the parent still links to t. */
    method FreeWalk(p: nat, ghost t: Tab)
      requires Valid() && t in at && at[t] == p && NoLeaves(View(), t)
      modifies this, pages
      ensures Good(View()) && hole == (if t.Root? then None else Some(t))
      ensures Cut(old(View()), View(), t) && SameMaps(old(View()), View())
      decreases if t.Root? then 2 else if t.Mid? then 1 else 0
    {
      ghost var m := View();
      PrunedSelf(m, t);
      var i := 0;
      while i < ENTRIES
        invariant 0 <= i <= ENTRIES && Valid() && t in at && at[t] == p && Pruned(m, View(), t, i) && SameMaps(m, View())
        invariant forall j :: 0 <= j < i ==> Entry(View(), t, j) == ZERO
        invariant t.Low? ==> View() == m
      {
        ghost var v := View();
        TabIs(v, t);
        EntryIs(v, t, i);
        var pte := pages[p].ptes[i];
        assert pte == Entry(v, t, i);
        if pte.v && !IsLeaf(pte.flags) {
          ghost var c := Child(t, i);
          NoLeavesBelow(m, v, t, i);
          FreeWalk(pte.ppn, c);
          ghost var w := View();
          CutStep(m, v, w, t, i);
          pages[p] := Table(pages[p].ptes[i := ZERO]);
          hole := None;
          assert View() == PutEntry(w, t, i, ZERO).(hole := None);
        } else {
          assert !pte.v;   // "freewalk: leaf" is not reached
          PrunedSkip(m, v, t, i);
        }
        i := i + 1;
      }
      PrunedCut(m, View(), t);
      DropTable(p, t);
    }

    /** The kfree at the end of freewalk. */
    method DropTable(p: nat, ghost t: Tab)
      requires Valid() && t in at && at[t] == p && Emptied(View(), t)
      modifies this, pages
      ensures p < pages.Length && View() == TableDropped(old(View()), t) && Good(View()) && SameMaps(old(View()), View())
    {
      ghost var v := View();
      TabIs(v, t);
      TableDroppedGood(v, t);
      pages[p] := Junk;
      free := [p] + free;
      owner, at, hole := owner[p := Free], at - {t}, if t.Root? then None else Some(t);
      assert View() == TableDropped(v, t);
    }

    /** uvmcreate: a root that maps nothing. */
    method UvmCreate() returns (r: nat)
      requires Valid()
      modifies this, pages
      ensures Valid() && (r == 0 ==> View() == old(View()))
      ensures r != 0 ==> Root(r) in at && Absent(old(View()), r) && SameMaps(old(View()), View())
      ensures r != 0 ==> Changed(old(View()), View(), r, 0, 0) && r in old(owner) && old(owner[r]) == Free
    {
      ghost var m := View();
      r := Kalloc();
      if r == 0 { return; }
      ghost var k := View();
      TakenGood(m);
      RootAddedGood(k, r);
      CreatedAbsent(m, k, r);
      pages[r] := Table(Blank());
      owner, at := owner[r := Tables(Root(r))], at[Root(r) := r];
      assert View() == RootAdded(k, r);
    }

    /** uvmfree: every page of the address space is free again. */
    method UvmFree(r: nat, sz: nat)
      requires Valid() && Root(r) in at && Up(sz) <= MAXVPN
      requires forall u :: 0 <= u < Up(sz) ==> Owned(View(), r, u)
      requires forall u: nat :: Up(sz) <= u < MAXVPN ==> Leaf(View(), r, u) == ZERO
      modifies this, pages
      ensures Valid() && Reclaimed(old(View()), View(), r)
    {
      ghost var m := View();
      FreedSelf(m, r, 0);
      if sz > 0 { UvmUnmap(r, 0, Up(sz), true); }
      ghost var g := View();
      EmptyNoLeaves(g, r);
      TabIs(g, Root(r));
      FreeWalk(r, Root(r));
      CutReclaims(m, g, View(), r, Up(sz));
    }

    /** proc_pagetable's second way out. */
    method Abandon(r: nat)
      requires Valid() && Root(r) in at && Leaf(View(), r, TRAMPOLINE).v
      requires forall u: nat :: u < TRAMPOLINE ==> Leaf(View(), r, u) == ZERO
      requires forall p :: p in owner ==> !(owner[p].User? && owner[p].r == r)
      modifies this, pages
      ensures Valid() && Reclaimed(old(View()), View(), r)
    {
      ghost var m := View();
      UvmUnmap(r, TRAMPOLINE, 1, false);
      ghost var g := View();
      UvmFree(r, 0);
      UnmapReclaims(m, g, View(), r, TRAMPOLINE, TRAMPOLINE + 1);
    }

    /** proc_pagetable: only the trampoline and the trapframe are mapped; or no change at all. */
    method ProcPagetable(tramp: nat, trapframe: nat) returns (r: nat)
      requires Valid()
      modifies this, pages
      ensures Valid() && (r == 0 ==> Restored(old(View()), View()))
      ensures r != 0 ==> Root(r) in at && Absent(old(View()), r) && NewSpace(old(View()), View(), r, tramp, trapframe)
    {
      ghost var m := View();
      r := UvmCreate();
      if r == 0 { return; }
      ghost var c := View();
      assert forall u: nat :: Leaf(c, r, u) == ZERO by { NothingMapped(m, c, r); }
      var rc, k := MapPages(r, TRAMPOLINE, 1, tramp, Flags(true, false, true, false));
      ghost var g := View();
      ChangedTwice(m, c, g, r, 0, 0);
      if rc != 0 {
        UvmFree(r, 0);
        ReclaimRestores(m, g, View(), r, 0, 0);
        return 0;
      }
      rc, k := MapPages(r, TRAPFRAME, 1, trapframe, Flags(true, true, false, false));
      ghost var h := View();
      ChangedTwice(m, g, h, r, 0, 0);
      if rc != 0 {
        NoUsers(m, h, r, 0, 0);
        OnlyTrampoline(c, g, h, r, tramp, trapframe);
        Abandon(r);
        ReclaimRestores(m, h, View(), r, 0, 0);
        return 0;
      }
      NewSpaceIs(m, c, g, h, r, tramp, trapframe);
    }

    /** proc_freepagetable: the two system pages are unmapped, everything else is freed. */
    method ProcFreePagetable(r: nat, sz: nat)
      requires Valid() && Root(r) in at && Up(sz) <= TRAPFRAME && Leaf(View(), r, TRAMPOLINE).v && Leaf(View(), r, TRAPFRAME).v
      requires forall p :: p in owner && owner[p].User? && owner[p].r == r ==> owner[p].vpn < TRAPFRAME
      requires forall u :: 0 <= u < Up(sz) ==> Owned(View(), r, u)
      requires forall u: nat :: Up(sz) <= u < TRAPFRAME ==> Leaf(View(), r, u) == ZERO
      modifies this, pages
      ensures Valid() && Reclaimed(old(View()), View(), r)
    {
      ghost var m := View();
      UvmUnmap(r, TRAMPOLINE, 1, false);
      ghost var g := View();
      UsersKept(m, g, r, TRAMPOLINE, TRAMPOLINE + 1, Up(sz));
      UvmUnmap(r, TRAPFRAME, 1, false);
      ghost var h := View();
      UsersKept(g, h, r, TRAPFRAME, TRAPFRAME + 1, Up(sz));
      UvmFree(r, sz);
      UnmapReclaims(g, h, View(), r, TRAPFRAME, TRAPFRAME + 1);
      UnmapReclaims(m, g, View(), r, TRAMPOLINE, TRAMPOLINE + 1);
    }

    /** sys_meminfo: free pages in the upper half, all others in the lower. */
    method MemInfo(total: nat) returns (packed: nat)
      requires Valid() && |owner| == total < 0x1_0000_0000
      ensures packed == |free| * 0x1_0000_0000 + (total - |free|) && |free| <= total
    {
      var n := 0;
      while n < |free|
        invariant 0 <= n <= |free|
      {
        n := n + 1;
      }
      FreeWithin(View());
      packed := n * 0x1_0000_0000 + (total - n);
    }

    /** fork's use of memory: a trapframe, a page table and a copy of the parent's memory for
        the child; or, when any of these fails, exactly the same free pages as before. */
    method ForkMemory(r: nat, sz: nat, tramp: nat) returns (q: nat, trapframe: nat)
      requires Valid() && Root(r) in at && Up(sz) <= TRAPFRAME && forall u :: 0 <= u < Up(sz) ==> Owned(View(), r, u)
      modifies this, pages
      ensures Valid() && (q == 0 ==> Restored(old(View()), View()))
      ensures q != 0 ==> forall u: nat :: u < Up(sz) ==> CopyOf(old(View()), r, View(), q, u)
      ensures q != 0 ==> SameBytes(old(View()), r, View(), q, sz)
      ensures SameBytes(old(View()), r, View(), r, sz)
      ensures UserOwned(old(View())) ==> UserOwned(View())
      ensures q != 0 ==> Absent(old(View()), q) && forall k: nat, u: nat :: u < MAXVPN && k != q ==> Leaf(View(), k, u) == old(Leaf(View(), k, u))
    {
      ghost var m := View();
      trapframe := Kalloc();
      if trapframe == 0 {
        RestoredBytes(m, m, r, sz);
        return 0, 0;
      }
      ghost var m1 := View();
      TakenGood(m);
      q := ProcPagetable(tramp, trapframe);
      ghost var m2 := View();
      if q == 0 {
        assert m1.owner[trapframe] == Held;
        ReleasedGood(m2, trapframe);
        Kfree(trapframe);
        TakenRestored(m, trapframe, m1, m2);
        RestoredBytes(m, View(), r, sz);
        if UserOwned(m) { RestoredUserOwned(m, View()); }
        return 0, 0;
      }
      ParentKept(m, m1, m2, r, q, Up(sz), tramp, trapframe);
      var rc := UvmCopy(r, q, sz);
      ghost var m3 := View();
      if rc < 0 {
        ForkFails(m1, m2, m3, q, tramp, trapframe);
        ReleasedGood(m3, trapframe);
        Kfree(trapframe);
        ghost var m4 := View();
        SpaceReady(m1, m3, m4, q, tramp, trapframe);
        ProcFreePagetable(q, 0);
        ForkUndone(m, trapframe, m1, m3, m4, View(), q);
        RestoredBytes(m, View(), r, sz);
        if UserOwned(m) { RestoredUserOwned(m, View()); }
        return 0, 0;
      }
      ForkBytes(m, m2, m3, r, q, sz);
      ForkCopied(m, m1, m2, m3, r, q, Up(sz), tramp, trapframe);
      if UserOwned(m) { ForkUserOwned(m, m2, m3, r, q, Up(sz), tramp, trapframe); }
    }
  }
}
