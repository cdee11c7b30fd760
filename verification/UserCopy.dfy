/** Copies between kernel and user memory, page by page, against byte-by-byte access to the
    virtual range (vm.c). */
module UserCopy {
  import opened PageTable
  import opened VirtualMemory

  ghost predicate AllWritable(m: Mem, r: nat, va: nat, n: nat) {
    forall x: nat {:trigger Writable(m, r, x)} :: va <= x < va + n ==> Writable(m, r, x)
  }

  /** Inside one page, addresses and offsets advance together. */
  lemma SamePageAddress(va: nat, i: nat)
    requires va % PGSIZE + i < PGSIZE
    ensures (va + i) / PGSIZE == va / PGSIZE && (va + i) % PGSIZE == va % PGSIZE + i
  {
  }

  lemma NextPage(va: nat, n: nat)
    requires n == PGSIZE - va % PGSIZE
    ensures (va / PGSIZE) * PGSIZE + PGSIZE == va + n && (va + n) % PGSIZE == 0
  {
  }

  lemma UserPage(m: Mem, r: nat, va: nat)
    requires Good(m) && UserOwned(m) && Readable(m, r, va)
    ensures var p := Leaf(m, r, va / PGSIZE).ppn;
            && p in m.owner && m.owner[p] == User(r, va / PGSIZE) && 0 < p < |m.pages|
            && m.pages[p].Data? && |m.pages[p].bytes| == PGSIZE
  {
    OwnedIs(m, r, va / PGSIZE);
    PageIs(m, Leaf(m, r, va / PGSIZE).ppn);
  }

  /** dst holds the bytes from va on. */
  ghost predicate Reads(m: Mem, r: nat, va: nat, dst: seq<Byte>) {
    forall i: nat {:trigger ReadAt(m, r, va, dst, i)} :: i < |dst| ==> ReadAt(m, r, va, dst, i)
  }

  predicate ReadAt(m: Mem, r: nat, va: nat, dst: seq<Byte>, i: nat) {
    i < |dst| && Readable(m, r, va + i) && dst[i] == ByteAt(m, r, va + i)
  }

  /** The bytes after a readable one, up to the end of its page. */
  lemma PageByte(m: Mem, r: nat, at: nat, k: nat)
    requires Good(m) && UserOwned(m) && Readable(m, r, at) && at % PGSIZE + k < PGSIZE
    ensures var p := Leaf(m, r, at / PGSIZE).ppn;
            && p < |m.pages| && m.pages[p].Data? && |m.pages[p].bytes| == PGSIZE
            && Readable(m, r, at + k) && ByteAt(m, r, at + k) == m.pages[p].bytes[at % PGSIZE + k]
  {
    UserPage(m, r, at);
    SamePageAddress(at, k);
  }

  /** A piece of one page extends what has been read. */
  lemma ReadsPage(m: Mem, r: nat, va: nat, dst: seq<Byte>, n: nat)
    requires Good(m) && UserOwned(m) && Reads(m, r, va, dst) && Readable(m, r, va + |dst|)
    requires (va + |dst|) % PGSIZE + n <= PGSIZE
    ensures var at, p := va + |dst|, Leaf(m, r, (va + |dst|) / PGSIZE).ppn;
            && p < |m.pages| && m.pages[p].Data? && |m.pages[p].bytes| == PGSIZE
            && Reads(m, r, va, dst + m.pages[p].bytes[at % PGSIZE..at % PGSIZE + n])
  {
    var at := va + |dst|;
    UserPage(m, r, at);
    var off, bytes := at % PGSIZE, m.pages[Leaf(m, r, at / PGSIZE).ppn].bytes;
    var longer := dst + bytes[off..off + n];
    forall i: nat | i < |longer| ensures ReadAt(m, r, va, longer, i) {
      if i < |dst| {
        assert ReadAt(m, r, va, dst, i) && longer[i] == dst[i];
      } else {
        assert longer[i] == bytes[off + (i - |dst|)];
        PageByte(m, r, at, i - |dst|);
      }
    }
  }

  /** walkaddr: the page behind a user address, or 0. */
  method WalkAddr(vm: Vm, r: nat, vpn: nat) returns (pa: nat)
    requires vm.Valid() && Root(r) in vm.at && UserOwned(vm.View())
    modifies vm, vm.pages
    ensures vm.Valid() && vm.View() == old(vm.View())
    ensures pa != 0 <==> Readable(vm.View(), r, vpn * PGSIZE)
    ensures pa != 0 ==> pa == Leaf(vm.View(), r, vpn).ppn
  {
    ghost var m := vm.View();
    assert vpn * PGSIZE / PGSIZE == vpn;
    if vpn >= MAXVPN { return 0; }
    var ok, page := vm.Walk(r, vpn, false);
    if !ok { return 0; }
    TabIs(m, LowOf(r, vpn));
    var pte := vm.pages[page].ptes[I0(vpn)];
    assert pte == Leaf(m, r, vpn);
    if !pte.v || !pte.flags.u { return 0; }
    UserPage(m, r, vpn * PGSIZE);
    return pte.ppn;
  }

  /** copyin: all the bytes of the range, exactly when all of them are readable; else those
      before the first page that is not. */
  method CopyIn(vm: Vm, r: nat, srcva: nat, len: nat) returns (rc: int, dst: seq<Byte>)
    requires vm.Valid() && Root(r) in vm.at && UserOwned(vm.View())
    modifies vm, vm.pages
    ensures vm.Valid() && vm.View() == old(vm.View()) && Reads(vm.View(), r, srcva, dst)
    ensures (rc == 0 && |dst| == len) || (rc == -1 && |dst| < len && !Readable(vm.View(), r, srcva + |dst|))
  {
    ghost var m := vm.View();
    var va, left := srcva, len;
    dst := [];
    while left > 0
      invariant 0 <= left && |dst| + left == len && Reads(m, r, srcva, dst) && (left > 0 ==> va == srcva + |dst|)
      invariant vm.Valid() && vm.View() == m
    {
      var vpn := va / PGSIZE;
      var pa := WalkAddr(vm, r, vpn);
      SamePageRead(m, r, va);
      if pa == 0 { return -1, dst; }
      var n := PGSIZE - va % PGSIZE;
      NextPage(va, n);
      if n > left { n := left; }
      ReadsPage(m, r, srcva, dst, n);
      dst := dst + vm.pages[pa].bytes[va % PGSIZE..va % PGSIZE + n];
      left := left - n;
      va := vpn * PGSIZE + PGSIZE;
    }
    return 0, dst;
  }

  lemma SamePageRead(m: Mem, r: nat, va: nat)
    ensures Readable(m, r, va / PGSIZE * PGSIZE) <==> Readable(m, r, va)
  {
    assert va / PGSIZE * PGSIZE / PGSIZE == va / PGSIZE;
  }

  // ---------------------------------------------------------------- copyout

  /** Bytes [va, va + n) of root r hold src; every other byte, of every root, is as it was. */
  ghost predicate Wrote(m: Mem, r: nat, va: nat, src: seq<Byte>, n: nat, g: Mem) {
    && n <= |src| && g.owner == m.owner && g.at == m.at && SameMaps(m, g)
    && (forall q: nat, x: nat {:trigger ByteAt(g, q, x)} :: Readable(m, q, x) ==>
          ByteAt(g, q, x) == if q == r && va <= x < va + n then src[x - va] else ByteAt(m, q, x))
  }

  function Patched(bytes: seq<Byte>, off: nat, part: seq<Byte>): (out: seq<Byte>)
    requires off + |part| <= |bytes|
    ensures |out| == |bytes|
  {
    bytes[..off] + part + bytes[off + |part|..]
  }

  /** New contents for a page of user memory disturb nothing else. */
  lemma PageWritten(m: Mem, p: nat, bytes: seq<Byte>)
    requires Good(m) && p in m.owner && m.owner[p].User? && p < |m.pages| && |bytes| == PGSIZE
    ensures Good(PutPage(m, p, Data(bytes))) && SameMaps(m, PutPage(m, p, Data(bytes)))
  {
    var g := PutPage(m, p, Data(bytes));
    SameEntries(m, p, Data(bytes), g);
    forall t | t in g.at ensures TabOk(g, t) { TabIs(m, t); }
    forall q | q in g.owner ensures PageOk(g, q) { PageIs(m, q); }
  }

  lemma WroteByte(m: Mem, r: nat, at: nat, part: seq<Byte>, q: nat, x: nat)
    requires Good(m) && UserOwned(m) && Readable(m, r, at) && Readable(m, q, x) && at % PGSIZE + |part| <= PGSIZE
    ensures var p := Leaf(m, r, at / PGSIZE).ppn;
            && p < |m.pages| && m.pages[p].Data? && |m.pages[p].bytes| == PGSIZE
            && var g := PutPage(m, p, Data(Patched(m.pages[p].bytes, at % PGSIZE, part)));
               SameMaps(m, g) ==> ByteAt(g, q, x) == if q == r && at <= x < at + |part| then part[x - at] else ByteAt(m, q, x)
  {
    UserPage(m, r, at);
    UserPage(m, q, x);
    if at <= x < at + |part| { SamePageAddress(at, x - at); }
    var p := Leaf(m, r, at / PGSIZE).ppn;
    var g := PutPage(m, p, Data(Patched(m.pages[p].bytes, at % PGSIZE, part)));
    if SameMaps(m, g) { assert Leaf(g, q, x / PGSIZE) == Leaf(m, q, x / PGSIZE); }
  }

  /** One page's part of the copy. */
  lemma WroteNext(m: Mem, r: nat, va: nat, src: seq<Byte>, k: nat, v: Mem, n: nat, p: nat, g: Mem)
    requires Good(v) && UserOwned(v) && Wrote(m, r, va, src, k, v) && k + n <= |src|
    requires Readable(v, r, va + k) && (va + k) % PGSIZE + n <= PGSIZE && p == Leaf(v, r, (va + k) / PGSIZE).ppn
    requires p < |v.pages| && v.pages[p].Data? && |v.pages[p].bytes| == PGSIZE
    requires g == PutPage(v, p, Data(Patched(v.pages[p].bytes, (va + k) % PGSIZE, src[k..k + n])))
    ensures Good(g) && UserOwned(g) && Wrote(m, r, va, src, k + n, g)
  {
    UserPage(v, r, va + k);
    PageWritten(v, p, Patched(v.pages[p].bytes, (va + k) % PGSIZE, src[k..k + n]));
    forall q: nat, x: nat | Readable(m, q, x)
      ensures ByteAt(g, q, x) == if q == r && va <= x < va + k + n then src[x - va] else ByteAt(m, q, x)
    {
      assert Leaf(v, q, x / PGSIZE) == Leaf(m, q, x / PGSIZE);
      WroteByte(v, r, va + k, src[k..k + n], q, x);
      assert ByteAt(v, q, x) == if q == r && va <= x < va + k then src[x - va] else ByteAt(m, q, x);
    }
    OwnedSame(v, g);
  }

  lemma OwnedSame(m: Mem, g: Mem)
    requires UserOwned(m) && SameMaps(m, g) && g.owner == m.owner
    ensures UserOwned(g)
  {
    forall r: nat, u: nat | u < MAXVPN && Leaf(g, r, u).v && Leaf(g, r, u).flags.u ensures Owned(g, r, u) {
      assert Leaf(g, r, u) == Leaf(m, r, u);
    }
  }

  lemma WritablePage(m: Mem, r: nat, va: nat, n: nat)
    requires Writable(m, r, va) && va % PGSIZE + n <= PGSIZE
    ensures AllWritable(m, r, va, n)
  {
    forall x: nat | va <= x < va + n ensures Writable(m, r, x) { SamePageAddress(va, x - va); }
  }

  /** copyout: src is in place exactly when the whole range is writable; otherwise the part
      before the first page that is not. */
  method CopyOut(vm: Vm, r: nat, dstva: nat, src: seq<Byte>) returns (rc: int, ghost k: nat)
    requires vm.Valid() && Root(r) in vm.at && UserOwned(vm.View())
    modifies vm, vm.pages
    ensures vm.Valid() && UserOwned(vm.View()) && Wrote(old(vm.View()), r, dstva, src, k, vm.View())
    ensures AllWritable(old(vm.View()), r, dstva, k)
    ensures (rc == 0 && k == |src|) || (rc == -1 && k < |src| && !Writable(old(vm.View()), r, dstva + k))
  {
    ghost var m := vm.View();
    var va, left := dstva, |src|;
    k := 0;
    while left > 0
      invariant 0 <= left && k + left == |src| && (left > 0 ==> va == dstva + k)
      invariant vm.Valid() && UserOwned(vm.View()) && Root(r) in vm.at && Wrote(m, r, dstva, src, k, vm.View())
      invariant AllWritable(m, r, dstva, k)
    {
      ghost var v := vm.View();
      var vpn := va / PGSIZE;
      assert Leaf(v, r, vpn) == Leaf(m, r, vpn);
      if vpn >= MAXVPN { return -1, k; }
      var ok, page := vm.Walk(r, vpn, false);
      if !ok { return -1, k; }
      TabIs(v, LowOf(r, vpn));
      var pte := vm.pages[page].ptes[I0(vpn)];
      assert pte == Leaf(v, r, vpn);
      if !pte.v || !pte.flags.u || !pte.flags.w { return -1, k; }
      var off := va % PGSIZE;
      var n := PGSIZE - off;
      NextPage(va, n);
      if n > left { n := left; }
      UserPage(v, r, va);
      var from := |src| - left;
      vm.pages[pte.ppn] := Data(Patched(vm.pages[pte.ppn].bytes, off, src[from..from + n]));
      WroteNext(m, r, dstva, src, k, v, n, pte.ppn, vm.View());
      WritablePage(m, r, va, n);
      k := k + n;
      left := left - n;
      va := vpn * PGSIZE + PGSIZE;
    }
    return 0, k;
  }

  /** What copyout wrote, copyin reads back. */
  method RoundTrip(vm: Vm, r: nat, va: nat, src: seq<Byte>) returns (rc: int, dst: seq<Byte>)
    requires vm.Valid() && Root(r) in vm.at && UserOwned(vm.View())
    modifies vm, vm.pages
    ensures rc == 0 <==> AllWritable(old(vm.View()), r, va, |src|)
    ensures rc == 0 ==> dst == src
  {
    ghost var m := vm.View();
    ghost var k;
    rc, k := CopyOut(vm, r, va, src);
    if rc != 0 { return rc, []; }
    ghost var g := vm.View();
    rc, dst := CopyIn(vm, r, va, |src|);
    ReadBack(m, r, va, src, g, dst);
  }

  lemma ReadBack(m: Mem, r: nat, va: nat, src: seq<Byte>, g: Mem, dst: seq<Byte>)
    requires Wrote(m, r, va, src, |src|, g) && Reads(g, r, va, dst) && |dst| <= |src|
    requires AllWritable(m, r, va, |src|)
    ensures dst == src[..|dst|] && (|dst| < |src| ==> Readable(g, r, va + |dst|))
  {
    forall i | 0 <= i < |dst| ensures dst[i] == src[i] {
      assert Writable(m, r, va + i);
      assert ReadAt(g, r, va, dst, i);
    }
    if |dst| < |src| {
      assert Writable(m, r, va + |dst|);
      assert Leaf(g, r, (va + |dst|) / PGSIZE) == Leaf(m, r, (va + |dst|) / PGSIZE);
    }
  }

  // ---------------------------------------------------------------- copyinstr

  /** A string of k bytes and a NUL starts at va, all of it readable. */
  ghost predicate StringAt(m: Mem, r: nat, va: nat, k: nat) {
    && (forall x: nat {:trigger Readable(m, r, x)} :: va <= x <= va + k ==> Readable(m, r, x))
    && (forall x: nat {:trigger ByteAt(m, r, x)} :: va <= x < va + k ==> ByteAt(m, r, x) != 0)
    && ByteAt(m, r, va + k) == 0
  }

  lemma IsString(m: Mem, r: nat, va: nat, dst: seq<Byte>)
    requires Reads(m, r, va, dst) && |dst| > 0 && dst[|dst| - 1] == 0 && forall i :: 0 <= i < |dst| - 1 ==> dst[i] != 0
    ensures StringAt(m, r, va, |dst| - 1)
  {
    forall x: nat | va <= x < va + |dst| ensures Readable(m, r, x) && ByteAt(m, r, x) == dst[x - va] { assert ReadAt(m, r, va, dst, x - va); }
  }

  /** Nothing but non-zero bytes up to an unreadable page, or up to max, is no string. */
  lemma NoString(m: Mem, r: nat, va: nat, dst: seq<Byte>, max: nat)
    requires Reads(m, r, va, dst) && (forall i :: 0 <= i < |dst| ==> dst[i] != 0)
    requires |dst| >= max || !Readable(m, r, va + |dst|)
    ensures forall k: nat :: k < max ==> !StringAt(m, r, va, k)
  {
    forall k: nat | k < max ensures !StringAt(m, r, va, k) {
      if k < |dst| { assert ReadAt(m, r, va, dst, k); }
    }
  }

  /** copyinstr's inner loop over the piece of one page: up to and including the first NUL. */
  method ScanPage(dst: seq<Byte>, piece: seq<Byte>) returns (got: bool, out: seq<Byte>, ghost j: nat)
    ensures j <= |piece| && (got <==> j < |piece|) && forall i :: 0 <= i < j ==> piece[i] != 0
    ensures got ==> piece[j] == 0 && out == dst + piece[..j + 1]
    ensures !got ==> out == dst + piece
  {
    out, j := dst, 0;
    var n := |piece|;
    while n > 0
      invariant 0 <= n && j == |piece| - n && out == dst + piece[..j] && forall i :: 0 <= i < j ==> piece[i] != 0
    {
      var c := piece[|piece| - n];
      if c == 0 {
        out := out + [0];
        return true, out, j;
      }
      out := out + [c];
      n, j := n - 1, j + 1;
    }
    return false, out, j;
  }

  /** What a scan of the page behind the next address means. */
  lemma ScanResult(m: Mem, r: nat, va: nat, was: seq<Byte>, n: nat, got: bool, j: nat, dst: seq<Byte>)
    requires Good(m) && UserOwned(m) && Reads(m, r, va, was) && Readable(m, r, va + |was|) && (va + |was|) % PGSIZE + n <= PGSIZE
    requires forall i :: 0 <= i < |was| ==> was[i] != 0
    requires var p := Leaf(m, r, (va + |was|) / PGSIZE).ppn;
             && p < |m.pages| && m.pages[p].Data? && |m.pages[p].bytes| == PGSIZE
             && var off := (va + |was|) % PGSIZE;
                var piece := m.pages[p].bytes[off..off + n];
                && j <= |piece| && (got <==> j < |piece|) && (forall i :: 0 <= i < j ==> piece[i] != 0)
                && (got ==> piece[j] == 0 && dst == was + piece[..j + 1]) && (!got ==> dst == was + piece)
    ensures Reads(m, r, va, dst)
    ensures got ==> |was| < |dst| <= |was| + n && StringAt(m, r, va, |dst| - 1)
    ensures !got ==> |dst| == |was| + n && forall i :: 0 <= i < |dst| ==> dst[i] != 0
  {
    var off, bytes := (va + |was|) % PGSIZE, m.pages[Leaf(m, r, (va + |was|) / PGSIZE).ppn].bytes;
    ReadsPage(m, r, va, was, if got then j + 1 else n);
    if got {
      assert bytes[off..off + n][..j + 1] == bytes[off..off + (j + 1)];
      IsString(m, r, va, dst);
    }
  }

  /** copyinstr: succeeds exactly when a string of fewer than max bytes starts at srcva. */
  method CopyInStr(vm: Vm, r: nat, srcva: nat, max: nat) returns (rc: int, dst: seq<Byte>)
    requires vm.Valid() && Root(r) in vm.at && UserOwned(vm.View())
    modifies vm, vm.pages
    ensures vm.Valid() && vm.View() == old(vm.View()) && (rc == 0 || rc == -1)
    ensures rc == 0 ==> 0 < |dst| <= max && Reads(vm.View(), r, srcva, dst) && StringAt(vm.View(), r, srcva, |dst| - 1)
    ensures rc == -1 ==> forall k: nat :: k < max ==> !StringAt(vm.View(), r, srcva, k)
  {
    ghost var m := vm.View();
    var va, left, got := srcva, max, false;
    dst := [];
    while !got && left > 0
      invariant 0 <= left && vm.Valid() && vm.View() == m && Reads(m, r, srcva, dst)
      invariant !got ==> |dst| + left == max && forall i :: 0 <= i < |dst| ==> dst[i] != 0
      invariant !got && left > 0 ==> va == srcva + |dst|
      invariant got ==> 0 < |dst| <= max && StringAt(m, r, srcva, |dst| - 1)
      decreases !got, left
    {
      var vpn := va / PGSIZE;
      var pa := WalkAddr(vm, r, vpn);
      SamePageRead(m, r, va);
      if pa == 0 {
        NoString(m, r, srcva, dst, max);
        return -1, dst;
      }
      UserPage(m, r, va);
      var off := va % PGSIZE;
      var n := PGSIZE - off;
      NextPage(va, n);
      if n > left { n := left; }
      ghost var was, j := dst, 0;
      got, dst, j := ScanPage(dst, vm.pages[pa].bytes[off..off + n]);
      ScanResult(m, r, srcva, was, n, got, j, dst);
      if !got { left := left - n; }
      va := vpn * PGSIZE + PGSIZE;
    }
    if got { return 0, dst; }
    NoString(m, r, srcva, dst, max);
    return -1, dst;
  }
}
