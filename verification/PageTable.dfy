/** Three-level page tables kept in physical pages, and the page allocator under them
    (vm.c, kalloc.c).  Addresses are page numbers; a page-table entry is its decoded form. */
module PageTable {
  import Sets

  datatype Option<T> = None | Some(value: T)

  type Byte = x: int | 0 <= x < 256

  const ENTRIES := 512
  const MAXVPN := 0x400_0000     // MAXVA / PGSIZE
  const PGSIZE := 4096

  datatype Flags = Flags(r: bool, w: bool, x: bool, u: bool)

  datatype Pte = Pte(v: bool, ppn: nat, flags: Flags)

  const NOFLAGS := Flags(false, false, false, false)
  const ZERO := Pte(false, 0, NOFLAGS)

  /** An entry with any of R, W, X maps a page; one with none leads to a lower table. */
  predicate IsLeaf(f: Flags) { f.r || f.w || f.x }

  /** The contents of a physical page. */
  datatype Page = Junk | Table(ptes: seq<Pte>) | Data(bytes: seq<Byte>)

  function Blank(): (s: seq<Pte>)
    ensures |s| == ENTRIES && forall i :: 0 <= i < ENTRIES ==> s[i] == ZERO
  {
    seq(ENTRIES, _ => ZERO)
  }

  /** A table of the tree under a root: the root, level 1 at an index, level 0 at two indices. */
  datatype Tab = Root(r: nat) | Mid(r: nat, i2: nat) | Low(r: nat, i2: nat, i1: nat)

  /** What a page of the allocator is in use for. */
  datatype Owner = Free | Held | Tables(t: Tab) | User(r: nat, vpn: nat)

  /** Memory and the free list and, for the proof, the use of each page, the page of each
      table, and the table, if any, that freewalk has freed but not yet unlinked. */
  datatype Mem = Mem(pages: seq<Page>, free: seq<nat>, owner: map<nat, Owner>, at: map<Tab, nat>, hole: Option<Tab>)

  function I2(vpn: nat): nat { vpn / 0x4_0000 % 512 }
  function I1(vpn: nat): nat { vpn / 512 % 512 }
  function I0(vpn: nat): nat { vpn % 512 }

  function LowOf(r: nat, vpn: nat): Tab { Low(r, I2(vpn), I1(vpn)) }

  lemma Recompose(a: nat)
    requires a < MAXVPN
    ensures a == I2(a) * 0x4_0000 + I1(a) * 512 + I0(a) && I2(a) < 256 && I1(a) < 512 && I0(a) < 512
  {
    var q := a / 512;
    assert a == 512 * q + I0(a) && a / 0x4_0000 == q / 512;
  }

  /** The three indices determine the page. */
  lemma IndicesUnique(a: nat, b: nat)
    requires a < MAXVPN && b < MAXVPN && I2(a) == I2(b) && I1(a) == I1(b) && I0(a) == I0(b)
    ensures a == b
  {
    Recompose(a);
    Recompose(b);
  }

  predicate IsTable(m: Mem, p: nat) { p < |m.pages| && m.pages[p].Table? && |m.pages[p].ptes| == ENTRIES }

  /** Entry i of the table at t. */
  function Entry(m: Mem, t: Tab, i: nat): Pte {
    if t in m.at && IsTable(m, m.at[t]) && i < ENTRIES then m.pages[m.at[t]].ptes[i] else ZERO
  }

  /** The entry for a virtual page: the meaning of a page table is this partial map. */
  function Leaf(m: Mem, r: nat, vpn: nat): Pte { Entry(m, LowOf(r, vpn), I0(vpn)) }

  /** An inner entry is valid exactly when its table exists, and leads to it. */
  predicate Link(m: Mem, e: Pte, t: Tab) {
    || m.hole == Some(t)
    || ((e.v <==> t in m.at) && (e.v ==> e.ppn == m.at[t] && e.flags == NOFLAGS) && (!e.v ==> e == ZERO))
  }

  /** The table reached from t through entry i. */
  function Child(t: Tab, i: nat): Tab
    requires !t.Low?
  {
    if t.Root? then Mid(t.r, i) else Low(t.r, t.i2, i)
  }

  function Parent(t: Tab): Tab
    requires !t.Root?
  {
    if t.Mid? then Root(t.r) else Mid(t.r, t.i2)
  }

  function Index(t: Tab): nat
    requires !t.Root?
  {
    if t.Mid? then t.i2 else t.i1
  }

  predicate EntryOk(m: Mem, t: Tab, i: nat) {
    if t.Low? then Entry(m, t, i) == ZERO || (Entry(m, t, i).v && IsLeaf(Entry(m, t, i).flags)) else Link(m, Entry(m, t, i), Child(t, i))
  }

  predicate TabOk(m: Mem, t: Tab) {
    && t in m.at && IsTable(m, m.at[t]) && m.at[t] in m.owner && m.owner[m.at[t]] == Tables(t)
    && (t.Root? ==> m.at[t] == t.r) && (!t.Root? ==> Parent(t) in m.at && Index(t) < ENTRIES && t.i2 < 256)   // MAXVA is half of the range
  }

  predicate PageOk(m: Mem, p: nat) {
    && p in m.owner && 0 < p < |m.pages|
    && match m.owner[p]
       case Free => p in m.free
       case Held => true
       case Tables(t) => t in m.at && m.at[t] == p
       case User(r, vpn) => vpn < MAXVPN && Leaf(m, r, vpn).v && Leaf(m, r, vpn).ppn == p && m.pages[p].Data? && |m.pages[p].bytes| == PGSIZE
  }

  ghost predicate FreeOk(m: Mem) {
    && (forall p :: p in m.free ==> p in m.owner && m.owner[p] == Free)
    && (forall j, k :: 0 <= j < k < |m.free| ==> m.free[j] != m.free[k])
  }

  ghost predicate Good(m: Mem) {
    && FreeOk(m) && (m.hole.Some? ==> m.hole.value !in m.at)
    && (forall t {:trigger TabOk(m, t)} :: t in m.at ==> TabOk(m, t))
    && (forall t, i {:trigger EntryOk(m, t, i)} :: t in m.at && 0 <= i < ENTRIES ==> EntryOk(m, t, i))
    && (forall p {:trigger PageOk(m, p)} :: p in m.owner ==> PageOk(m, p))
  }

  // ---------------------------------------------------------------- following the tree

  /** What walk follows: the pages themselves, from entry to entry. */
  function Follow(m: Mem, r: nat, vpn: nat): Pte {
    if !IsTable(m, r) then ZERO
    else
      var e2 := m.pages[r].ptes[I2(vpn)];
      if !e2.v || !IsTable(m, e2.ppn) then ZERO
      else
        var e1 := m.pages[e2.ppn].ptes[I1(vpn)];
        if !e1.v || !IsTable(m, e1.ppn) then ZERO else m.pages[e1.ppn].ptes[I0(vpn)]
  }

  /** The tree denotes the partial map. */
  lemma TreeIsMap(m: Mem, r: nat, vpn: nat)
    requires Good(m) && m.hole == None && Root(r) in m.at
    ensures Follow(m, r, vpn) == Leaf(m, r, vpn)
  {
    assert TabOk(m, Root(r)) && EntryOk(m, Root(r), I2(vpn));
    if LowOf(r, vpn) in m.at { assert TabOk(m, LowOf(r, vpn)); }
    if Mid(r, I2(vpn)) in m.at {
      assert TabOk(m, Mid(r, I2(vpn))) && EntryOk(m, Mid(r, I2(vpn)), I1(vpn));
    }
  }

  /** No table page is reached by two paths, nor is it a page in any other use. */
  lemma OnePath(m: Mem, t: Tab, s: Tab)
    requires Good(m) && t in m.at && s in m.at && m.at[t] == m.at[s]
    ensures t == s
  {
    assert TabOk(m, t) && TabOk(m, s);
  }

  // ---------------------------------------------------------------- entries and pages

  lemma TabIs(m: Mem, t: Tab)
    requires Good(m) && t in m.at
    ensures TabOk(m, t)
  {
  }

  lemma EntryIs(m: Mem, t: Tab, i: nat)
    requires Good(m) && t in m.at && i < ENTRIES
    ensures EntryOk(m, t, i)
  {
  }

  lemma PageIs(m: Mem, p: nat)
    requires Good(m) && p in m.owner
    ensures PageOk(m, p)
  {
  }

  function PutEntry(m: Mem, t: Tab, i: nat, e: Pte): Mem
    requires t in m.at && IsTable(m, m.at[t]) && i < ENTRIES
  {
    m.(pages := m.pages[m.at[t] := Table(m.pages[m.at[t]].ptes[i := e])])
  }

  /** Writing one entry changes that entry of that table only. */
  lemma EntryPut(m: Mem, t: Tab, i: nat, e: Pte, s: Tab, j: nat)
    requires Good(m) && t in m.at && IsTable(m, m.at[t]) && i < ENTRIES
    ensures Entry(PutEntry(m, t, i, e), s, j) == if s == t && j == i then e else Entry(m, s, j)
  {
    if s in m.at && m.at[s] == m.at[t] { OnePath(m, s, t); }
  }

  function PutPage(m: Mem, p: nat, c: Page): Mem
    requires p < |m.pages|
  {
    m.(pages := m.pages[p := c])
  }

  predicate NotTable(m: Mem, p: nat) { p !in m.owner || !m.owner[p].Tables? }

  /** Writing a page that is no table changes no entry. */
  lemma EntryElsewhere(m: Mem, p: nat, c: Page, s: Tab, j: nat)
    requires Good(m) && p < |m.pages| && NotTable(m, p)
    ensures Entry(PutPage(m, p, c), s, j) == Entry(m, s, j)
  {
    if s in m.at { assert TabOk(m, s); }
  }

  // ---------------------------------------------------------------- the allocator's steps

  /** kalloc of the first free page. */
  function Taken(m: Mem): Mem
    requires m.free != [] && m.free[0] < |m.pages|
  {
    PutPage(m, m.free[0], Junk).(free := m.free[1..], owner := m.owner[m.free[0] := Held])
  }

  /** The two memories agree on every entry. */
  ghost predicate SameMaps(m: Mem, g: Mem) {
    forall r: nat, vpn: nat :: Leaf(g, r, vpn) == Leaf(m, r, vpn)
  }

  lemma SameEntries(m: Mem, p: nat, c: Page, g: Mem)
    requires Good(m) && p < |m.pages| && NotTable(m, p) && g.pages == m.pages[p := c] && g.at == m.at && g.hole == m.hole
    ensures forall s, j :: Entry(g, s, j) == Entry(m, s, j)
    ensures forall t, i {:trigger EntryOk(g, t, i)} :: t in g.at && 0 <= i < ENTRIES ==> EntryOk(g, t, i)
  {
    forall s, j ensures Entry(g, s, j) == Entry(m, s, j) { EntryElsewhere(m, p, c, s, j); }
    forall t, i | t in g.at && 0 <= i < ENTRIES ensures EntryOk(g, t, i) { assert EntryOk(m, t, i); }
  }

  lemma TakenGood(m: Mem)
    requires Good(m) && m.free != [] && m.free[0] < |m.pages|
    ensures Good(Taken(m)) && SameMaps(m, Taken(m))
  {
    var g, p := Taken(m), m.free[0];
    assert p in m.free && PageOk(m, p);
    SameEntries(m, p, Junk, g);
    forall t | t in g.at ensures TabOk(g, t) { assert TabOk(m, t); }
    forall q | q in g.owner ensures PageOk(g, q) { assert PageOk(m, q); }
  }

  /** kfree of a page in no other use. */
  function Released(m: Mem, p: nat): Mem
    requires p < |m.pages|
  {
    PutPage(m, p, Junk).(free := [p] + m.free, owner := m.owner[p := Free])
  }

  lemma ReleasedGood(m: Mem, p: nat)
    requires Good(m) && p in m.owner && m.owner[p] == Held && p < |m.pages|
    ensures Good(Released(m, p)) && SameMaps(m, Released(m, p))
  {
    var g := Released(m, p);
    SameEntries(m, p, Junk, g);
    forall t | t in g.at ensures TabOk(g, t) { assert TabOk(m, t); }
    forall q | q in g.owner ensures PageOk(g, q) { assert PageOk(m, q); }
  }

  /** A held page is filled. */
  lemma FilledGood(m: Mem, p: nat, c: Page)
    requires Good(m) && p in m.owner && m.owner[p] == Held && p < |m.pages|
    ensures Good(PutPage(m, p, c)) && SameMaps(m, PutPage(m, p, c))
  {
    var g := PutPage(m, p, c);
    SameEntries(m, p, c, g);
    forall t | t in g.at ensures TabOk(g, t) { assert TabOk(m, t); }
    forall q | q in g.owner ensures PageOk(g, q) { assert PageOk(m, q); }
  }

  // ---------------------------------------------------------------- walk's step

  /** A held page becomes the missing table t, linked from its parent. */
  function TableAdded(m: Mem, t: Tab, p: nat): Mem
    requires !t.Root? && Parent(t) in m.at && IsTable(m, m.at[Parent(t)]) && Index(t) < ENTRIES && p < |m.pages|
  {
    PutPage(PutEntry(m, Parent(t), Index(t), Pte(true, p, NOFLAGS)), p, Table(Blank()))
      .(owner := m.owner[p := Tables(t)], at := m.at[t := p])
  }

  /** A table's place below its parent is its own. */
  lemma ChildIs(t: Tab, i: nat, s: Tab)
    requires !t.Low? && !s.Root? && Child(t, i) == s
    ensures t == Parent(s) && i == Index(s)
  {
  }

  lemma TableAddedEntries(m: Mem, t: Tab, p: nat, s: Tab, j: nat)
    requires Good(m) && m.hole == None && !t.Root? && Parent(t) in m.at && IsTable(m, m.at[Parent(t)]) && Index(t) < ENTRIES
    requires t !in m.at && p in m.owner && m.owner[p] == Held && p < |m.pages|
    ensures Entry(TableAdded(m, t, p), s, j) ==
              if s == Parent(t) && j == Index(t) then Pte(true, p, NOFLAGS) else if s == t then ZERO else Entry(m, s, j)
  {
    assert TabOk(m, Parent(t));
    if s in m.at { assert TabOk(m, s); }
    if s in m.at && m.at[s] == m.at[Parent(t)] { OnePath(m, s, Parent(t)); }
  }

  lemma TableAddedEntry(m: Mem, t: Tab, p: nat, s: Tab, j: nat)
    requires Good(m) && m.hole == None && !t.Root? && Parent(t) in m.at && IsTable(m, m.at[Parent(t)]) && Index(t) < ENTRIES
    requires t !in m.at && p in m.owner && m.owner[p] == Held && p < |m.pages| && s in TableAdded(m, t, p).at && j < ENTRIES
    ensures EntryOk(TableAdded(m, t, p), s, j)
  {
    TableAddedEntries(m, t, p, s, j);
    if s != t {
      assert EntryOk(m, s, j);
      if !s.Low? && Child(s, j) == t { ChildIs(s, j, t); }
    } else if !t.Low? && Child(t, j) in m.at {
      TabIs(m, Child(t, j));
    }
  }

  lemma TableAddedGood(m: Mem, t: Tab, p: nat)
    requires !t.Root? && t.i2 < 256
    requires Good(m) && m.hole == None && !t.Root? && Parent(t) in m.at && IsTable(m, m.at[Parent(t)]) && Index(t) < ENTRIES
    requires t !in m.at && p in m.owner && m.owner[p] == Held && p < |m.pages|
    ensures Good(TableAdded(m, t, p)) && SameMaps(m, TableAdded(m, t, p))
  {
    var g := TableAdded(m, t, p);
    forall s, j ensures Entry(g, s, j) ==
        if s == Parent(t) && j == Index(t) then Pte(true, p, NOFLAGS) else if s == t then ZERO else Entry(m, s, j)
    {
      TableAddedEntries(m, t, p, s, j);
    }
    assert TabOk(m, Parent(t)) && PageOk(m, p);
    forall s | s in g.at ensures TabOk(g, s) { if s != t { assert TabOk(m, s); } }
    forall s, j | s in g.at && 0 <= j < ENTRIES ensures EntryOk(g, s, j) { TableAddedEntry(m, t, p, s, j); }
    TableAddedMaps(m, t, p);
    forall q | q in g.owner ensures PageOk(g, q) { assert PageOk(m, q); }
  }

  lemma TableAddedMaps(m: Mem, t: Tab, p: nat)
    requires Good(m) && m.hole == None && !t.Root? && Parent(t) in m.at && IsTable(m, m.at[Parent(t)]) && Index(t) < ENTRIES
    requires t !in m.at && p in m.owner && m.owner[p] == Held && p < |m.pages|
    ensures SameMaps(m, TableAdded(m, t, p))
  {
    forall r: nat, vpn: nat ensures Leaf(TableAdded(m, t, p), r, vpn) == Leaf(m, r, vpn) {
      TableAddedEntries(m, t, p, LowOf(r, vpn), I0(vpn));
    }
  }

  /** uvmcreate: a held page becomes an empty root. */
  function RootAdded(m: Mem, p: nat): Mem
    requires p < |m.pages|
  {
    PutPage(m, p, Table(Blank())).(owner := m.owner[p := Tables(Root(p))], at := m.at[Root(p) := p])
  }

  lemma RootAddedGood(m: Mem, p: nat)
    requires Good(m) && m.hole == None && p in m.owner && m.owner[p] == Held && p < |m.pages|
    ensures Good(RootAdded(m, p)) && SameMaps(m, RootAdded(m, p)) && Root(p) !in m.at
    ensures forall t :: t in m.at ==> t.r != p
  {
    var g := RootAdded(m, p);
    if Root(p) in m.at { TabIs(m, Root(p)); }
    forall t | t in m.at ensures t.r != p { HasRoot(m, t); }
    SameEntriesRoot(m, p);
    assert PageOk(m, p);
    forall t | t in g.at ensures TabOk(g, t) { if t != Root(p) { assert TabOk(m, t); } }
    forall t, i | t in g.at && 0 <= i < ENTRIES ensures EntryOk(g, t, i) { if t != Root(p) { assert EntryOk(m, t, i); } }
    forall q | q in g.owner ensures PageOk(g, q) { assert PageOk(m, q); }
  }

  /** Every table belongs to a tree with a root. */
  lemma HasRoot(m: Mem, t: Tab)
    requires Good(m) && t in m.at
    ensures Root(t.r) in m.at
  {
    assert TabOk(m, t);
    if t.Low? { assert TabOk(m, Parent(t)); }
  }

  lemma SameEntriesRoot(m: Mem, p: nat)
    requires Good(m) && p in m.owner && m.owner[p] == Held && p < |m.pages| && Root(p) !in m.at
    ensures forall s, j :: Entry(RootAdded(m, p), s, j) == Entry(m, s, j)
  {
    forall s, j ensures Entry(RootAdded(m, p), s, j) == Entry(m, s, j) { if s in m.at { assert TabOk(m, s); } }
  }

  // ---------------------------------------------------------------- leaves

  /** The entry for vpn is set to e. */
  function LeafPut(m: Mem, r: nat, vpn: nat, e: Pte): Mem
    requires LowOf(r, vpn) in m.at && IsTable(m, m.at[LowOf(r, vpn)])
  {
    PutEntry(m, LowOf(r, vpn), I0(vpn), e)
  }

  /** g maps exactly like m, except that vpn of root r has entry e. */
  ghost predicate MapPut(m: Mem, r: nat, vpn: nat, e: Pte, g: Mem) {
    forall q: nat, u: nat :: u < MAXVPN ==> Leaf(g, q, u) == if q == r && u == vpn then e else Leaf(m, q, u)
  }

  lemma LeafPutMaps(m: Mem, r: nat, vpn: nat, e: Pte)
    requires Good(m) && vpn < MAXVPN && LowOf(r, vpn) in m.at && IsTable(m, m.at[LowOf(r, vpn)])
    ensures MapPut(m, r, vpn, e, LeafPut(m, r, vpn, e))
  {
    forall q: nat, u: nat | u < MAXVPN
      ensures Leaf(LeafPut(m, r, vpn, e), q, u) == if q == r && u == vpn then e else Leaf(m, q, u)
    {
      EntryPut(m, LowOf(r, vpn), I0(vpn), e, LowOf(q, u), I0(u));
      if LowOf(q, u) == LowOf(r, vpn) && I0(u) == I0(vpn) { IndicesUnique(u, vpn); }
    }
  }

  /** Setting an unused entry, or clearing one whose page the table does not own. */
  lemma LeafPutGood(m: Mem, r: nat, vpn: nat, e: Pte)
    requires Good(m) && vpn < MAXVPN && LowOf(r, vpn) in m.at && IsTable(m, m.at[LowOf(r, vpn)])
    requires e == ZERO || (e.v && IsLeaf(e.flags))
    requires forall p :: p in m.owner ==> m.owner[p] != User(r, vpn)
    ensures Good(LeafPut(m, r, vpn, e)) && MapPut(m, r, vpn, e, LeafPut(m, r, vpn, e))
  {
    var g, t := LeafPut(m, r, vpn, e), LowOf(r, vpn);
    LeafPutMaps(m, r, vpn, e);
    forall s | s in g.at ensures TabOk(g, s) { assert TabOk(m, s); }
    forall s, j | s in g.at && 0 <= j < ENTRIES ensures EntryOk(g, s, j) {
      assert EntryOk(m, s, j);
      EntryPut(m, t, I0(vpn), e, s, j);
    }
    assert TabOk(m, t);
    forall q | q in g.owner ensures PageOk(g, q) { assert PageOk(m, q); }
  }

  /** A held, filled page that the entry maps becomes user memory. */
  lemma AdoptedGood(m: Mem, p: nat, r: nat, vpn: nat)
    requires Good(m) && p in m.owner && m.owner[p] == Held && p < |m.pages| && m.pages[p].Data? && |m.pages[p].bytes| == PGSIZE && vpn < MAXVPN
    requires Leaf(m, r, vpn).v && Leaf(m, r, vpn).ppn == p
    ensures Good(m.(owner := m.owner[p := User(r, vpn)]))
  {
    var g := m.(owner := m.owner[p := User(r, vpn)]);
    forall s, j ensures Entry(g, s, j) == Entry(m, s, j) { }
    forall s | s in g.at ensures TabOk(g, s) { assert TabOk(m, s); }
    forall s, j | s in g.at && 0 <= j < ENTRIES ensures EntryOk(g, s, j) { assert EntryOk(m, s, j); }
    forall q | q in g.owner ensures PageOk(g, q) { assert PageOk(m, q); }
  }

  /** User memory is given up; its page is held until it is freed. */
  lemma DisownedGood(m: Mem, p: nat, r: nat, vpn: nat)
    requires Good(m) && p in m.owner && m.owner[p] == User(r, vpn)
    ensures Good(m.(owner := m.owner[p := Held])) && forall q :: q in m.owner && q != p ==> m.owner[q] != User(r, vpn)
  {
    var g := m.(owner := m.owner[p := Held]);
    assert PageOk(m, p);
    forall q | q in m.owner && q != p ensures m.owner[q] != User(r, vpn) { assert PageOk(m, q); }
    forall s, j ensures Entry(g, s, j) == Entry(m, s, j) { }
    forall s | s in g.at ensures TabOk(g, s) { assert TabOk(m, s); }
    forall s, j | s in g.at && 0 <= j < ENTRIES ensures EntryOk(g, s, j) { assert EntryOk(m, s, j); }
    forall q | q in g.owner ensures PageOk(g, q) { assert PageOk(m, q); }
  }

  // ---------------------------------------------------------------- freewalk's steps

  /** An emptied table is freed; its parent still links to it. */
  function TableDropped(m: Mem, t: Tab): Mem
    requires t in m.at && m.at[t] < |m.pages|
  {
    PutPage(m, m.at[t], Junk)
      .(free := [m.at[t]] + m.free, owner := m.owner[m.at[t] := Free], at := m.at - {t}, hole := if t.Root? then None else Some(t))
  }

  ghost predicate Emptied(m: Mem, t: Tab) {
    forall i :: 0 <= i < ENTRIES ==> Entry(m, t, i) == ZERO
  }

  lemma TableDroppedEntries(m: Mem, t: Tab, s: Tab, j: nat)
    requires Good(m) && t in m.at && m.at[t] < |m.pages| && Emptied(m, t)
    ensures Entry(TableDropped(m, t), s, j) == Entry(m, s, j)
  {
    if s in m.at && m.at[s] == m.at[t] { OnePath(m, s, t); }
  }

  lemma TableDroppedGood(m: Mem, t: Tab)
    requires Good(m) && m.hole == None && t in m.at && m.at[t] < |m.pages| && Emptied(m, t)
    ensures Good(TableDropped(m, t)) && SameMaps(m, TableDropped(m, t))
  {
    var g := TableDropped(m, t);
    assert TabOk(m, t);
    forall s, j ensures Entry(g, s, j) == Entry(m, s, j) { TableDroppedEntries(m, t, s, j); }
    forall s | s in g.at ensures TabOk(g, s) {
      assert TabOk(m, s);
      if !s.Root? && Parent(s) == t { EntryIs(m, t, Index(s)); }
    }
    forall s, j | s in g.at && 0 <= j < ENTRIES ensures EntryOk(g, s, j) { assert EntryOk(m, s, j); }
    forall q | q in g.owner ensures PageOk(g, q) { assert PageOk(m, q); }
  }

  /** The parent's entry for the freed table is cleared. */
  lemma UnlinkedGood(m: Mem, t: Tab)
    requires Good(m) && m.hole == Some(t) && !t.Root? && Parent(t) in m.at && IsTable(m, m.at[Parent(t)]) && Index(t) < ENTRIES
    ensures var g := PutEntry(m, Parent(t), Index(t), ZERO).(hole := None); Good(g) && SameMaps(m, g)
  {
    var g := PutEntry(m, Parent(t), Index(t), ZERO).(hole := None);
    forall s, j ensures Entry(g, s, j) == if s == Parent(t) && j == Index(t) then ZERO else Entry(m, s, j) {
      EntryPut(m, Parent(t), Index(t), ZERO, s, j);
    }
    forall s | s in g.at ensures TabOk(g, s) { assert TabOk(m, s); }
    forall s, j | s in g.at && 0 <= j < ENTRIES ensures EntryOk(g, s, j) {
      assert EntryOk(m, s, j);
      if !s.Low? && Child(s, j) == t { ChildIs(s, j, t); }
    }
    assert TabOk(m, Parent(t));
    forall q | q in g.owner ensures PageOk(g, q) { assert PageOk(m, q); }
  }

  // ---------------------------------------------------------------- what an operation may change

  /** Page p is in the same use, with the same contents unless it is a table or free; or it
      was free and now serves root r, as a table or as user memory in [lo, hi). */
  predicate Moved(m: Mem, p: nat, g: Mem, r: nat, lo: nat, hi: nat) {
    && p in m.owner && p in g.owner && p < |m.pages| == |g.pages|
    && (|| (g.owner[p] == m.owner[p] && (m.owner[p].Held? || m.owner[p].User? ==> g.pages[p] == m.pages[p]))
        || (m.owner[p] == Free && g.owner[p].Tables? && g.owner[p].t.r == r)
        || (m.owner[p] == Free && g.owner[p].User? && g.owner[p].r == r && lo <= g.owner[p].vpn < hi))
  }

  /** Only free pages changed hands, and they went to root r. */
  ghost predicate Changed(m: Mem, g: Mem, r: nat, lo: nat, hi: nat) {
    && g.owner.Keys == m.owner.Keys && |g.pages| == |m.pages|
    && (forall p {:trigger Moved(m, p, g, r, lo, hi)} :: p in m.owner ==> Moved(m, p, g, r, lo, hi))
    && (forall t :: t in m.at ==> t in g.at && g.at[t] == m.at[t])
    && (forall t :: t in g.at ==> t in m.at || t.r == r)
  }

  lemma ChangedSelf(m: Mem, r: nat, lo: nat, hi: nat)
    requires Good(m)
    ensures Changed(m, m, r, lo, hi)
  {
    forall p: nat | p in m.owner ensures Moved(m, p, m, r, lo, hi) { assert PageOk(m, p); }
  }

  lemma ChangedTwice(m: Mem, g: Mem, h: Mem, r: nat, lo: nat, hi: nat)
    requires Changed(m, g, r, lo, hi) && Changed(g, h, r, lo, hi)
    ensures Changed(m, h, r, lo, hi)
  {
    forall p: nat | p in m.owner ensures Moved(m, p, h, r, lo, hi) {
      assert Moved(m, p, g, r, lo, hi) && Moved(g, p, h, r, lo, hi);
    }
  }

  lemma TableAddedChanged(m: Mem, t: Tab, p: nat)
    requires Good(m) && m.hole == None && !t.Root? && Parent(t) in m.at && IsTable(m, m.at[Parent(t)]) && Index(t) < ENTRIES
    requires t !in m.at && m.free != [] && m.free[0] == p < |m.pages|
    requires Good(Taken(m)) && Taken(m).owner[p] == Held && IsTable(Taken(m), m.at[Parent(t)])
    ensures Changed(m, TableAdded(Taken(m), t, p), t.r, 0, 0)
  {
    var g := TableAdded(Taken(m), t, p);
    assert p in m.free;
    assert TabOk(m, Parent(t));
    forall q: nat | q in m.owner ensures Moved(m, q, g, t.r, 0, 0) { assert PageOk(m, q); }
  }

  /** The maps of g are those of m with [vpn, vpn + n) of root r mapped to consecutive pages. */
  ghost predicate Mapped(m: Mem, r: nat, vpn: nat, n: nat, ppn: nat, perm: Flags, g: Mem) {
    forall q: nat, u: nat :: u < MAXVPN ==>
      Leaf(g, q, u) == if q == r && vpn <= u < vpn + n then Pte(true, ppn + (u - vpn), perm) else Leaf(m, q, u)
  }

  lemma MappedOne(m: Mem, r: nat, vpn: nat, n: nat, ppn: nat, perm: Flags, g: Mem, h: Mem)
    requires Mapped(m, r, vpn, n, ppn, perm, g) && MapPut(g, r, vpn + n, Pte(true, ppn + n, perm), h)
    ensures Mapped(m, r, vpn, n + 1, ppn, perm, h)
  {
  }

  /** Writing an entry of a table of root r. */
  lemma LeafPutChanged(m: Mem, r: nat, vpn: nat, e: Pte)
    requires Good(m) && LowOf(r, vpn) in m.at && IsTable(m, m.at[LowOf(r, vpn)])
    ensures Changed(m, LeafPut(m, r, vpn, e), r, 0, 0)
  {
    var g := LeafPut(m, r, vpn, e);
    assert TabOk(m, LowOf(r, vpn));
    forall p: nat | p in m.owner ensures Moved(m, p, g, r, 0, 0) { assert PageOk(m, p); }
  }

  function Px(level: nat, vpn: nat): nat { if level == 2 then I2(vpn) else if level == 1 then I1(vpn) else I0(vpn) }

  /** The table that walk has reached at this level. */
  function OnPath(r: nat, vpn: nat, level: nat): Tab {
    if level == 2 then Root(r) else if level == 1 then Mid(r, I2(vpn)) else LowOf(r, vpn)
  }

  lemma NoLow(m: Mem, r: nat, vpn: nat)
    requires Good(m) && (Mid(r, I2(vpn)) !in m.at || LowOf(r, vpn) !in m.at)
    ensures LowOf(r, vpn) !in m.at
  {
    if LowOf(r, vpn) in m.at { TabIs(m, LowOf(r, vpn)); }
  }

  // ---------------------------------------------------------------- what mappages needs

  /** The tables below the root that lead to vpn. */
  function PathTabs(r: nat, vpn: nat): set<Tab> { {Mid(r, I2(vpn)), LowOf(r, vpn)} }

  /** The tables below the root that lead to [vpn, vpn + n). */
  function Needs(r: nat, vpn: nat, n: nat): set<Tab> {
    if n == 0 then {} else Needs(r, vpn, n - 1) + PathTabs(r, vpn + n - 1)
  }

  function Absentees(m: Mem, ts: set<Tab>): set<Tab> { ts - m.at.Keys }

  /** How many pages mapping [vpn, vpn + n) takes for tables that are not there yet. */
  function Missing(m: Mem, r: nat, vpn: nat, n: nat): nat { |Absentees(m, Needs(r, vpn, n))| }

  /** The free list has a page for each of them. */
  predicate Fits(m: Mem, r: nat, vpn: nat, n: nat) { Missing(m, r, vpn, n) <= |m.free| }

  /** The tables for [vpn, vpn + k) are there, and no others are new. */
  ghost predicate Made(m: Mem, g: Mem, r: nat, vpn: nat, k: nat) {
    forall t :: t in g.at <==> t in m.at || t in Needs(r, vpn, k)
  }

  lemma MadeOne(m: Mem, v: Mem, g: Mem, r: nat, vpn: nat, k: nat)
    requires Good(g) && Made(m, v, r, vpn, k) && (forall t :: t in v.at ==> t in g.at) && LowOf(r, vpn + k) in g.at
    requires forall t :: t in g.at ==> t in v.at || t == Mid(r, I2(vpn + k)) || t == LowOf(r, vpn + k)
    ensures Made(m, g, r, vpn, k + 1)
  {
    TabIs(g, LowOf(r, vpn + k));
  }

  function TabPages(at: map<Tab, nat>, ts: set<Tab>): set<nat> { set t | t in ts && t in at :: at[t] }

  lemma {:induction false} TabPagesSize(m: Mem, ts: set<Tab>)
    requires Good(m) && ts <= m.at.Keys
    ensures |TabPages(m.at, ts)| == |ts|
  {
    if ts != {} {
      var t :| t in ts;
      TabPagesSize(m, ts - {t});
      forall s | s in ts - {t} ensures m.at[s] != m.at[t] { if m.at[s] == m.at[t] { OnePath(m, s, t); } }
      assert TabPages(m.at, ts) == TabPages(m.at, ts - {t}) + {m.at[t]};
    }
  }

  lemma NewTablesApart(m: Mem, g: Mem)
    requires Good(g)
    ensures FreePages(g) !! TabPages(g.at, g.at.Keys - m.at.Keys)
  {
    forall p | p in TabPages(g.at, g.at.Keys - m.at.Keys) ensures p !in FreePages(g) {
      var t :| t in g.at.Keys - m.at.Keys && g.at[t] == p;
      TabIs(g, t);
    }
  }

  /** The pages that have left the free list are those of the new tables. */
  lemma FreeSpent(m: Mem, g: Mem, r: nat)
    requires Good(m) && Good(g) && Changed(m, g, r, 0, 0)
    ensures |m.free| == |g.free| + |g.at.Keys - m.at.Keys|
  {
    var fm, fg, ps := FreePages(m), FreePages(g), TabPages(g.at, g.at.Keys - m.at.Keys);
    assert |ps| == |g.at.Keys - m.at.Keys| by { TabPagesSize(g, g.at.Keys - m.at.Keys); }
    assert |fm| == |m.free| by { FreeWithin(m); }
    assert |fg| == |g.free| by { FreeWithin(g); }
    forall p ensures p in fm <==> p in fg || p in ps { FreeOrTable(m, g, r, p); }
    NewTablesApart(m, g);
    Sets.SplitSize(fm, fg, ps);
  }

  lemma FreeOrTable(m: Mem, g: Mem, r: nat, p: nat)
    requires Good(m) && Good(g) && Changed(m, g, r, 0, 0)
    ensures p in FreePages(m) <==> p in FreePages(g) || p in TabPages(g.at, g.at.Keys - m.at.Keys)
  {
    if p in m.owner {
      assert Moved(m, p, g, r, 0, 0) && PageOk(m, p) && PageOk(g, p);
      if p in FreePages(m) && p !in FreePages(g) {
        var t := g.owner[p].t;
        if t in m.at { TabIs(m, t); }
      }
    }
    if p in TabPages(g.at, g.at.Keys - m.at.Keys) {
      var t :| t in g.at.Keys - m.at.Keys && g.at[t] == p;
      TabIs(g, t);
    }
  }

  lemma {:induction false} NeedsGrow(r: nat, vpn: nat, k: nat, n: nat)
    requires k <= n
    ensures Needs(r, vpn, k) <= Needs(r, vpn, n)
  {
    if k < n { NeedsGrow(r, vpn, k, n - 1); }
  }

  /** A longer range needs no fewer tables, so the pages whose tables fit form a prefix. */
  lemma MissingGrows(m: Mem, r: nat, vpn: nat, k: nat, n: nat)
    requires k <= n
    ensures Missing(m, r, vpn, k) <= Missing(m, r, vpn, n)
  {
    NeedsGrow(r, vpn, k, n);
    Sets.SubsetSize(Absentees(m, Needs(r, vpn, k)), Absentees(m, Needs(r, vpn, n)));
  }

  /** If k is the longest prefix that fits, the map is as it was only when k is 0. */
  lemma PrefixFits(m: Mem, r: nat, vpn: nat, k: nat, n: nat, ppn: nat, perm: Flags, g: Mem)
    requires 0 < n && k <= n && vpn + n <= MAXVPN && Fits(m, r, vpn, k) && (k < n ==> !Fits(m, r, vpn, k + 1))
    requires Mapped(m, r, vpn, k, ppn, perm, g) && !Leaf(m, r, vpn).v
    ensures forall j: nat :: j <= n ==> (Fits(m, r, vpn, j) <==> j <= k)
    ensures SameOutside(m, r, 0, 0, g) <==> !Fits(m, r, vpn, 1)
  {
    forall j: nat | j <= n ensures Fits(m, r, vpn, j) <==> j <= k {
      if j <= k { MissingGrows(m, r, vpn, j, k); } else { MissingGrows(m, r, vpn, k + 1, j); }
    }
    assert k > 0 ==> Leaf(g, r, vpn).v;
  }

  lemma MadeFits(m: Mem, g: Mem, r: nat, vpn: nat, k: nat)
    requires Good(m) && Good(g) && Changed(m, g, r, 0, 0) && Made(m, g, r, vpn, k)
    ensures Missing(m, r, vpn, k) + |g.free| == |m.free|
  {
    FreeSpent(m, g, r);
    MadeKeys(m, g, r, vpn, k);
  }

  lemma MadeKeys(m: Mem, g: Mem, r: nat, vpn: nat, k: nat)
    requires Made(m, g, r, vpn, k)
    ensures g.at.Keys - m.at.Keys == Absentees(m, Needs(r, vpn, k))
  {
  }

  lemma AllMapped(m: Mem, g: Mem, r: nat, vpn: nat, n: nat, ppn: nat, perm: Flags)
    requires Good(m) && Good(g) && Changed(m, g, r, 0, 0) && Made(m, g, r, vpn, n)
    requires 0 < n && vpn + n <= MAXVPN && Mapped(m, r, vpn, n, ppn, perm, g) && !Leaf(m, r, vpn).v
    ensures forall j: nat :: j <= n ==> Fits(m, r, vpn, j)
    ensures SameOutside(m, r, 0, 0, g) <==> !Fits(m, r, vpn, 1)
  {
    MadeFits(m, g, r, vpn, n);
    PrefixFits(m, r, vpn, n, n, ppn, perm, g);
  }

  lemma StuckShort(m: Mem, v: Mem, g: Mem, r: nat, vpn: nat, k: nat)
    requires Made(m, v, r, vpn, k) && LowOf(r, vpn + k) !in g.at && forall t :: t in m.at ==> t in g.at
    requires forall t :: t in g.at ==> t in v.at || t == Mid(r, I2(vpn + k)) || t == LowOf(r, vpn + k)
    ensures |g.at.Keys - m.at.Keys| < Missing(m, r, vpn, k + 1)
  {
    var made, need, t := g.at.Keys - m.at.Keys, Absentees(m, Needs(r, vpn, k + 1)), LowOf(r, vpn + k);
    assert Needs(r, vpn, k + 1) == Needs(r, vpn, k) + PathTabs(r, vpn + k);
    forall s | s in made ensures s in need { }
    Sets.ProperSize(made, need, t);
  }

  /** walk has failed at page k: its tables do not fit any more. */
  lemma StuckAt(m: Mem, v: Mem, g: Mem, r: nat, vpn: nat, k: nat, n: nat, ppn: nat, perm: Flags)
    requires Good(m) && Good(v) && Good(g) && Changed(m, v, r, 0, 0) && Changed(m, g, r, 0, 0) && Made(m, v, r, vpn, k)
    requires g.free == [] && LowOf(r, vpn + k) !in g.at && k < n && vpn + n <= MAXVPN
    requires forall t :: t in g.at ==> t in v.at || t == Mid(r, I2(vpn + k)) || t == LowOf(r, vpn + k)
    requires Mapped(m, r, vpn, k, ppn, perm, g) && !Leaf(m, r, vpn).v
    ensures forall j: nat :: j <= n ==> (Fits(m, r, vpn, j) <==> j <= k)
    ensures SameOutside(m, r, 0, 0, g) <==> !Fits(m, r, vpn, 1)
  {
    MadeFits(m, v, r, vpn, k);
    FreeSpent(m, g, r);
    StuckShort(m, v, g, r, vpn, k);
    PrefixFits(m, r, vpn, k, n, ppn, perm, g);
  }

  /** A turn of mappages' loop that finds no page for a table. */
  lemma TurnFails(m: Mem, v: Mem, g: Mem, r: nat, vpn: nat, k: nat, n: nat, ppn: nat, perm: Flags)
    requires Good(m) && Good(v) && Good(g) && Changed(m, v, r, 0, 0) && Changed(v, g, r, 0, 0) && Made(m, v, r, vpn, k)
    requires g.free == [] && LowOf(r, vpn + k) !in g.at && k < n && vpn + n <= MAXVPN
    requires forall t :: t in g.at ==> t in v.at || t == Mid(r, I2(vpn + k)) || t == LowOf(r, vpn + k)
    requires Mapped(m, r, vpn, k, ppn, perm, v) && SameMaps(v, g) && !Leaf(m, r, vpn).v
    ensures Changed(m, g, r, 0, 0) && Mapped(m, r, vpn, k, ppn, perm, g)
    ensures forall j: nat :: j <= n ==> (Fits(m, r, vpn, j) <==> j <= k)
    ensures SameOutside(m, r, 0, 0, g) <==> !Fits(m, r, vpn, 1)
  {
    ChangedTwice(m, v, g, r, 0, 0);
    StuckAt(m, v, g, r, vpn, k, n, ppn, perm);
  }

  /** A turn that maps page a. */
  lemma TurnMaps(m: Mem, v: Mem, g: Mem, r: nat, vpn: nat, k: nat, ppn: nat, perm: Flags, a: nat, pa: nat)
    requires Good(g) && Changed(m, v, r, 0, 0) && Changed(v, g, r, 0, 0) && Made(m, v, r, vpn, k)
    requires a == vpn + k && pa == ppn + k && LowOf(r, a) in g.at
    requires forall t :: t in g.at ==> t in v.at || t == Mid(r, I2(a)) || t == LowOf(r, a)
    requires Mapped(m, r, vpn, k, ppn, perm, v) && MapPut(v, r, a, Pte(true, pa, perm), g)
    ensures Changed(m, g, r, 0, 0) && Made(m, g, r, vpn, k + 1) && Mapped(m, r, vpn, k + 1, ppn, perm, g)
  {
    ChangedTwice(m, v, g, r, 0, 0);
    MadeOne(m, v, g, r, vpn, k);
    MappedOne(m, r, vpn, k, ppn, perm, v, g);
  }

  /** What mappages asks for, with room for the tables of the first page and not of the second. */
  ghost predicate KeepsPrefix(m: Mem, r: nat, vpn: nat) {
    && Good(m) && m.hole == None && Root(r) in m.at && vpn + 2 <= MAXVPN
    && (forall u: nat :: !Leaf(m, r, u).v) && Fits(m, r, vpn, 1) && !Fits(m, r, vpn, 2)
  }

  /** The family is not empty: a root whose only level-0 table covers pages 0 to 511, and no free
      page.  Of pages 511 and 512 the first can be mapped and the second cannot. */
  lemma PrefixStays()
    ensures exists m: Mem, r: nat, vpn: nat :: KeepsPrefix(m, r, vpn)
  {
    var m := Small();
    SmallGood();
    var r, vpn := 1, 511;
    assert Needs(r, vpn, 1) == PathTabs(r, vpn) == {Mid(1, 0), Low(1, 0, 0)};
    assert Needs(r, vpn, 2) == {Mid(1, 0), Low(1, 0, 0), Low(1, 0, 1)};
    assert Absentees(m, Needs(r, vpn, 1)) == {} && Absentees(m, Needs(r, vpn, 2)) == {Low(1, 0, 1)};
    forall u: nat ensures !Leaf(m, r, u).v { }
    assert KeepsPrefix(m, r, vpn);
  }

  function Small(): Mem {
    Mem([Junk, Table(Blank()[0 := Pte(true, 2, NOFLAGS)]), Table(Blank()[0 := Pte(true, 3, NOFLAGS)]), Table(Blank())], [],
        map[1 := Tables(Root(1)), 2 := Tables(Mid(1, 0)), 3 := Tables(Low(1, 0, 0))],
        map[Root(1) := 1, Mid(1, 0) := 2, Low(1, 0, 0) := 3], None)
  }

  lemma SmallGood()
    ensures Good(Small())
  {
    var m := Small();
    forall t | t in m.at ensures TabOk(m, t) { }
    forall t, i | t in m.at && 0 <= i < ENTRIES ensures EntryOk(m, t, i) { }
    forall p | p in m.owner ensures PageOk(m, p) { }
  }

  /** The maps of g are those of m without [lo, hi) of root r. */
  ghost predicate Unmapped(m: Mem, r: nat, lo: nat, hi: nat, g: Mem) {
    forall q: nat, u: nat :: u < MAXVPN ==> Leaf(g, q, u) == if q == r && lo <= u < hi then ZERO else Leaf(m, q, u)
  }

  /** User memory of root r in [lo, hi) is free; every other page is as it was. */
  predicate Dropped(m: Mem, p: nat, g: Mem, r: nat, lo: nat, hi: nat) {
    && p in m.owner && p in g.owner && p < |m.pages| == |g.pages|
    && (if m.owner[p].User? && m.owner[p].r == r && lo <= m.owner[p].vpn < hi then g.owner[p] == Free
        else g.owner[p] == m.owner[p] && (m.owner[p].Held? || m.owner[p].User? ==> g.pages[p] == m.pages[p]))
  }

  ghost predicate Freed(m: Mem, g: Mem, r: nat, lo: nat, hi: nat) {
    && g.owner.Keys == m.owner.Keys && |g.pages| == |m.pages| && g.at == m.at
    && (forall p {:trigger Dropped(m, p, g, r, lo, hi)} :: p in m.owner ==> Dropped(m, p, g, r, lo, hi))
  }

  lemma FreedSelf(m: Mem, r: nat, lo: nat)
    requires Good(m)
    ensures Freed(m, m, r, lo, lo)
  {
    forall p: nat | p in m.owner ensures Dropped(m, p, m, r, lo, lo) { assert PageOk(m, p); }
  }

  lemma FreedTwice(m: Mem, g: Mem, h: Mem, r: nat, lo: nat, mid: nat, hi: nat)
    requires Freed(m, g, r, lo, mid) && Freed(g, h, r, mid, hi) && lo <= mid <= hi
    ensures Freed(m, h, r, lo, hi)
  {
    forall p: nat | p in m.owner ensures Dropped(m, p, h, r, lo, hi) {
      assert Dropped(m, p, g, r, lo, mid) && Dropped(g, p, h, r, mid, hi);
    }
  }

  /** The entry of vpn is cleared, its page being user memory that is freed. */
  lemma UnmapFreed(m: Mem, r: nat, vpn: nat, p: nat, k: Mem, g: Mem)
    requires Good(m) && p in m.owner && m.owner[p] == User(r, vpn) && vpn < MAXVPN && p < |m.pages|
    requires LowOf(r, vpn) in m.at && IsTable(m, m.at[LowOf(r, vpn)])
    requires k == LeafPut(m.(owner := m.owner[p := Held]), r, vpn, ZERO) && g == Released(k, p)
    ensures Good(g) && Unmapped(m, r, vpn, vpn + 1, g) && Freed(m, g, r, vpn, vpn + 1)
  {
    var h := m.(owner := m.owner[p := Held]);
    DisownedGood(m, p, r, vpn);
    LeafPutGood(h, r, vpn, ZERO);
    ReleasedGood(k, p);
    UnmapOwners(m, r, vpn, p, g);
    UnmapMaps(m, r, vpn, h, k, g);
  }

  lemma UnmapMaps(m: Mem, r: nat, vpn: nat, h: Mem, k: Mem, g: Mem)
    requires h.pages == m.pages && h.at == m.at && MapPut(h, r, vpn, ZERO, k) && SameMaps(k, g)
    ensures Unmapped(m, r, vpn, vpn + 1, g)
  {
    forall q: nat, u: nat | u < MAXVPN ensures Leaf(g, q, u) == if q == r && u == vpn then ZERO else Leaf(m, q, u) {
      assert Leaf(h, q, u) == Leaf(m, q, u);
    }
  }

  lemma UnmapOwners(m: Mem, r: nat, vpn: nat, p: nat, g: Mem)
    requires Good(m) && p in m.owner && m.owner[p] == User(r, vpn) && vpn < MAXVPN && p < |m.pages|
    requires LowOf(r, vpn) in m.at && IsTable(m, m.at[LowOf(r, vpn)])
    requires g == Released(LeafPut(m.(owner := m.owner[p := Held]), r, vpn, ZERO), p)
    ensures Freed(m, g, r, vpn, vpn + 1)
  {
    assert TabOk(m, LowOf(r, vpn)) && PageOk(m, p);
    forall q: nat | q in m.owner ensures Dropped(m, q, g, r, vpn, vpn + 1) { assert PageOk(m, q); }
  }

  lemma KeptFreed(m: Mem, r: nat, vpn: nat)
    requires Good(m) && LowOf(r, vpn) in m.at && IsTable(m, m.at[LowOf(r, vpn)])
    requires forall p :: p in m.owner ==> m.owner[p] != User(r, vpn)
    ensures Freed(m, LeafPut(m, r, vpn, ZERO), r, vpn, vpn + 1)
  {
    var g := LeafPut(m, r, vpn, ZERO);
    assert TabOk(m, LowOf(r, vpn));
    forall q: nat | q in m.owner ensures Dropped(m, q, g, r, vpn, vpn + 1) { assert PageOk(m, q); }
  }

  /** A page of zeroes. */
  function Zeroes(): (s: seq<Byte>)
    ensures |s| == PGSIZE && forall i :: 0 <= i < PGSIZE ==> s[i] == 0
  {
    seq(PGSIZE, _ => 0 as Byte)
  }

  /** The least number of pages that sz bytes take up. */
  function Up(sz: nat): (n: nat)
    ensures sz <= n * PGSIZE && (n > 0 ==> (n - 1) * PGSIZE < sz)
  {
    (sz + PGSIZE - 1) / PGSIZE
  }

  /** An address below sz is on one of these pages; the last of them has such an address. */
  lemma UpCovers(sz: nat, va: nat)
    ensures va < sz ==> va / PGSIZE < Up(sz)
    ensures Up(sz) * PGSIZE <= va ==> Up(sz) <= va / PGSIZE
    ensures sz > 0 ==> (sz - 1) / PGSIZE == Up(sz) - 1
  {
  }

  // ---------------------------------------------------------------- memory by address

  /** The user of root r may read, or write, the byte at va. */
  predicate Readable(m: Mem, r: nat, va: nat) {
    va / PGSIZE < MAXVPN && Leaf(m, r, va / PGSIZE).v && Leaf(m, r, va / PGSIZE).flags.u
  }

  predicate Writable(m: Mem, r: nat, va: nat) { Readable(m, r, va) && Leaf(m, r, va / PGSIZE).flags.w }

  /** The byte at va. */
  function ByteAt(m: Mem, r: nat, va: nat): Byte {
    var p := Leaf(m, r, va / PGSIZE).ppn;
    if p < |m.pages| && m.pages[p].Data? && |m.pages[p].bytes| == PGSIZE then m.pages[p].bytes[va % PGSIZE] else 0
  }

  /** Address va is in root q of g what it was in root r of m. */
  predicate SameByte(m: Mem, r: nat, g: Mem, q: nat, va: nat) {
    && (Readable(g, q, va) <==> Readable(m, r, va)) && (Writable(g, q, va) <==> Writable(m, r, va))
    && ByteAt(g, q, va) == ByteAt(m, r, va)
  }

  ghost predicate SameBytes(m: Mem, r: nat, g: Mem, q: nat, sz: nat) {
    forall va: nat {:trigger SameByte(m, r, g, q, va)} :: va < sz ==> SameByte(m, r, g, q, va)
  }

  /** New memory: readable, writable if asked for, and zero. */
  predicate FreshByte(m: Mem, r: nat, w: bool, va: nat) {
    Readable(m, r, va) && (Writable(m, r, va) <==> w) && ByteAt(m, r, va) == 0
  }

  ghost predicate FreshBytes(m: Mem, r: nat, w: bool, lo: nat, hi: nat) {
    forall va: nat {:trigger FreshByte(m, r, w, va)} :: lo <= va < hi ==> FreshByte(m, r, w, va)
  }

  ghost predicate NoBytes(m: Mem, r: nat, lo: nat, hi: nat) {
    forall va: nat {:trigger Readable(m, r, va)} :: lo <= va < hi ==> !Readable(m, r, va)
  }

  /** Copies of all pages are copies of all bytes. */
  lemma CopyBytes(m: Mem, r: nat, g: Mem, q: nat, sz: nat)
    requires Good(m) && forall u: nat {:trigger CopyOf(m, r, g, q, u)} :: u < Up(sz) ==> CopyOf(m, r, g, q, u)
    ensures SameBytes(m, r, g, q, sz)
  {
    forall va: nat | va < sz ensures SameByte(m, r, g, q, va) {
      UpCovers(sz, va);
      assert CopyOf(m, r, g, q, va / PGSIZE);
    }
  }

  /** Every page of the first sz bytes is root q's own. */
  ghost predicate OwnsAll(m: Mem, q: nat, sz: nat) { forall u: nat :: u < Up(sz) ==> Owned(m, q, u) }

  /** What is mapped as before and belongs to its root keeps its bytes. */
  lemma KeptBytes(m: Mem, g: Mem, r: nat, lo: nat, hi: nat, q: nat, sz: nat)
    requires Good(m) && Changed(m, g, r, lo, hi) && SameOutside(m, r, lo, hi, g) && OwnsAll(m, q, sz) && (q == r ==> Up(sz) <= lo || hi <= lo)
    ensures SameBytes(m, q, g, q, sz)
  {
    forall va: nat | va < sz ensures SameByte(m, q, g, q, va) {
      UpCovers(sz, va);
      var p := Leaf(m, q, va / PGSIZE).ppn;
      assert Owned(m, q, va / PGSIZE) && PageOk(m, p) && Moved(m, p, g, r, lo, hi);
    }
  }

  lemma SameBytesTwice(m: Mem, g: Mem, h: Mem, r: nat, q: nat, sz: nat)
    requires SameBytes(m, r, g, r, sz) && SameBytes(g, r, h, q, sz)
    ensures SameBytes(m, r, h, q, sz)
  {
    forall va: nat | va < sz ensures SameByte(m, r, h, q, va) { assert SameByte(m, r, g, r, va) && SameByte(g, r, h, q, va); }
  }

  lemma RestoredBytes(m: Mem, g: Mem, r: nat, sz: nat)
    requires Good(m) && Restored(m, g) && OwnsAll(m, r, sz)
    ensures SameBytes(m, r, g, r, sz)
  {
    forall va: nat | va < sz ensures SameByte(m, r, g, r, va) {
      UpCovers(sz, va);
      assert Owned(m, r, va / PGSIZE) && PageOk(m, Leaf(m, r, va / PGSIZE).ppn);
    }
  }

  /** fork by address: the parent's memory before the copy, then the copy. */
  lemma ForkBytes(m: Mem, m2: Mem, m3: Mem, r: nat, q: nat, sz: nat)
    requires ParentReady(m, m2, r, q, Up(sz)) && SameBytes(m2, r, m3, r, sz) && SameBytes(m2, r, m3, q, sz)
    ensures SameBytes(m, r, m3, r, sz) && SameBytes(m, r, m3, q, sz)
  {
    forall va: nat | va < sz ensures SameByte(m, r, m2, r, va) {
      UpCovers(sz, va);
      assert Ready(m, m2, r, q, va / PGSIZE);
    }
    SameBytesTwice(m, m2, m3, r, r, sz);
    SameBytesTwice(m, m2, m3, r, q, sz);
  }

  /** uvmcopy by address. */
  lemma CopiedBytes(m: Mem, r: nat, g: Mem, q: nat, sz: nat)
    requires Good(m) && r != q && OwnsAll(m, r, sz) && Copied(m, r, g, q, Up(sz))
    ensures SameBytes(m, r, g, r, sz) && SameBytes(m, r, g, q, sz)
  {
    KeptBytes(m, g, q, 0, Up(sz), r, sz);
    CopyBytes(m, r, g, q, sz);
  }

  /** uvmalloc by address. */
  lemma GrownBytes(m: Mem, g: Mem, r: nat, oldsz: nat, newsz: nat, w: bool, x: bool)
    requires Good(m) && Up(newsz) <= MAXVPN && Zeroed(g, r, Up(oldsz), Up(newsz), Flags(true, w, x, true))
    requires Changed(m, g, r, Up(oldsz), Up(newsz)) && SameOutside(m, r, Up(oldsz), Up(newsz), g)
    ensures FreshBytes(g, r, w, Up(oldsz) * PGSIZE, newsz) && (OwnsAll(m, r, oldsz) ==> SameBytes(m, r, g, r, oldsz))
  {
    ZeroBytes(g, r, oldsz, newsz, w, x);
    if OwnsAll(m, r, oldsz) { KeptBytes(m, g, r, Up(oldsz), Up(newsz), r, oldsz); }
  }

  lemma ZeroBytes(m: Mem, r: nat, oldsz: nat, newsz: nat, w: bool, x: bool)
    requires Up(newsz) <= MAXVPN && Zeroed(m, r, Up(oldsz), Up(newsz), Flags(true, w, x, true))
    ensures FreshBytes(m, r, w, Up(oldsz) * PGSIZE, newsz)
  {
    forall va: nat | Up(oldsz) * PGSIZE <= va < newsz ensures FreshByte(m, r, w, va) {
      UpCovers(newsz, va);
      UpCovers(oldsz, va);
      assert Holds(m, r, va / PGSIZE, Zeroes(), Flags(true, w, x, true));
    }
  }

  lemma GoneBytes(m: Mem, g: Mem, r: nat, oldsz: nat, newsz: nat)
    requires Unmapped(m, r, Up(newsz), Up(oldsz), g) && Up(oldsz) <= MAXVPN
    ensures NoBytes(g, r, Up(newsz) * PGSIZE, oldsz)
  {
    forall va: nat | Up(newsz) * PGSIZE <= va < oldsz ensures !Readable(g, r, va) {
      UpCovers(oldsz, va);
      UpCovers(newsz, va);
    }
  }

  /** Memory below the new size survives uvmdealloc. */
  lemma LeftBytes(m: Mem, g: Mem, r: nat, oldsz: nat, newsz: nat, sz: nat)
    requires Unmapped(m, r, Up(newsz), Up(oldsz), g) && Freed(m, g, r, Up(newsz), Up(oldsz)) && Up(sz) <= Up(newsz) && Up(sz) <= MAXVPN
    requires OwnsAll(m, r, sz)
    ensures SameBytes(m, r, g, r, sz)
  {
    forall va: nat | va < sz ensures SameByte(m, r, g, r, va) {
      UpCovers(sz, va);
      var p := Leaf(m, r, va / PGSIZE).ppn;
      assert Owned(m, r, va / PGSIZE) && Dropped(m, p, g, r, Up(newsz), Up(oldsz));
    }
  }

  /** Root r maps vpn to a page of its own with these contents and permissions. */
  predicate Holds(m: Mem, r: nat, vpn: nat, bytes: seq<Byte>, perm: Flags) {
    && Owned(m, r, vpn) && Leaf(m, r, vpn).flags == perm
    && Leaf(m, r, vpn).ppn < |m.pages| && m.pages[Leaf(m, r, vpn).ppn] == Data(bytes)
  }

  /** Outside [lo, hi) of root r every map is as it was. */
  ghost predicate SameOutside(m: Mem, r: nat, lo: nat, hi: nat, g: Mem) {
    forall q: nat, u: nat :: u < MAXVPN && !(q == r && lo <= u < hi) ==> Leaf(g, q, u) == Leaf(m, q, u)
  }

  /** Memory that already belonged to a root keeps page, permissions and contents. */
  lemma HoldsKept(m: Mem, g: Mem, r: nat, lo: nat, hi: nat, q: nat, u: nat, bytes: seq<Byte>, perm: Flags)
    requires Holds(m, q, u, bytes, perm) && Changed(m, g, r, lo, hi) && Leaf(g, q, u) == Leaf(m, q, u)
    ensures Holds(g, q, u, bytes, perm)
  {
    assert Moved(m, Leaf(m, q, u).ppn, g, r, lo, hi);
  }

  /** A page taken and released again leaves everything as it was. */
  lemma TakenBack(m: Mem, p: nat, c: Page, k: Mem, r: nat)
    requires Good(m) && m.free != [] && m.free[0] == p < |m.pages| && p < |k.pages|
    requires Changed(PutPage(Taken(m), p, c), k, r, 0, 0) && p in k.owner && k.owner[p] == Held
    ensures Changed(m, Released(k, p), r, 0, 0)
  {
    assert p in m.free;
    var f, g := PutPage(Taken(m), p, c), Released(k, p);
    forall q: nat | q in m.owner ensures Moved(m, q, g, r, 0, 0) { assert PageOk(m, q); assert Moved(f, q, k, r, 0, 0); }
  }

  /** A page taken, mapped and adopted. */
  lemma TakenOver(m: Mem, p: nat, c: Page, k: Mem, r: nat, vpn: nat)
    requires Good(m) && m.free != [] && m.free[0] == p < |m.pages|
    requires Changed(PutPage(Taken(m), p, c), k, r, 0, 0) && p in k.owner && k.owner[p] == Held
    ensures Changed(m, k.(owner := k.owner[p := User(r, vpn)]), r, vpn, vpn + 1)
  {
    assert p in m.free;
    var f, g := PutPage(Taken(m), p, c), k.(owner := k.owner[p := User(r, vpn)]);
    forall q: nat | q in m.owner ensures Moved(m, q, g, r, vpn, vpn + 1) { assert PageOk(m, q); assert Moved(f, q, k, r, 0, 0); }
  }

  lemma ChangedNext(m: Mem, g: Mem, h: Mem, r: nat, lo: nat, a: nat)
    requires Changed(m, g, r, lo, a) && lo <= a && (Changed(g, h, r, a, a + 1) || Changed(g, h, r, 0, 0))
    ensures Changed(m, h, r, lo, a + 1)
  {
    forall p: nat | p in m.owner ensures Moved(m, p, h, r, lo, a + 1) {
      assert Moved(m, p, g, r, lo, a);
      assert Changed(g, h, r, a, a + 1) ==> Moved(g, p, h, r, a, a + 1);
      assert Changed(g, h, r, 0, 0) ==> Moved(g, p, h, r, 0, 0);
    }
  }

  /** Unmapping what was added leaves new tables as the only change. */
  lemma RolledBack(m: Mem, g: Mem, h: Mem, r: nat, lo: nat, hi: nat)
    requires Good(m) && Changed(m, g, r, lo, hi) && SameOutside(m, r, lo, hi, g)
    requires Freed(g, h, r, lo, hi) && Unmapped(g, r, lo, hi, h)
    requires forall u: nat :: lo <= u < hi && u < MAXVPN ==> Leaf(m, r, u) == ZERO
    ensures Changed(m, h, r, 0, 0) && SameOutside(m, r, 0, 0, h)
  {
    forall p: nat | p in m.owner ensures Moved(m, p, h, r, 0, 0) {
      assert Moved(m, p, g, r, lo, hi);
      assert Dropped(g, p, h, r, lo, hi);
      NotMapped(m, p, r, lo, hi);
    }
  }

  lemma NotMapped(m: Mem, p: nat, r: nat, lo: nat, hi: nat)
    requires Good(m) && p in m.owner && forall u: nat :: lo <= u < hi && u < MAXVPN ==> Leaf(m, r, u) == ZERO
    ensures !(m.owner[p].User? && m.owner[p].r == r && lo <= m.owner[p].vpn < hi)
  {
    assert PageOk(m, p);
  }

  /** The pages of [lo, hi) of root r are its own, zeroed, with permissions perm. */
  ghost predicate Zeroed(m: Mem, r: nat, lo: nat, hi: nat, perm: Flags) {
    forall u {:trigger Holds(m, r, u, Zeroes(), perm)} :: lo <= u < hi ==> Holds(m, r, u, Zeroes(), perm)
  }

  /** Page u of root q is a copy of page u of root r. */
  ghost predicate CopyOf(m: Mem, r: nat, g: Mem, q: nat, u: nat) {
    && Owned(m, r, u) && Leaf(m, r, u).ppn < |m.pages| && m.pages[Leaf(m, r, u).ppn].Data?
    && Holds(g, q, u, m.pages[Leaf(m, r, u).ppn].bytes, Leaf(m, r, u).flags)
  }

  lemma OwnedIs(m: Mem, r: nat, u: nat)
    requires Good(m) && Owned(m, r, u)
    ensures Leaf(m, r, u).ppn < |m.pages| && m.pages[Leaf(m, r, u).ppn].Data? && IsLeaf(Leaf(m, r, u).flags)
    ensures |m.pages[Leaf(m, r, u).ppn].bytes| == PGSIZE
  {
    assert PageOk(m, Leaf(m, r, u).ppn);
    assert TabOk(m, LowOf(r, u)) && EntryOk(m, LowOf(r, u), I0(u));
  }

  lemma LeafIs(m: Mem, r: nat, u: nat)
    requires Good(m) && !Leaf(m, r, u).v
    ensures Leaf(m, r, u) == ZERO
  {
    if LowOf(r, u) in m.at { assert TabOk(m, LowOf(r, u)) && EntryOk(m, LowOf(r, u), I0(u)); }
  }

  lemma LeavesAre(m: Mem, r: nat, n: nat)
    requires Good(m) && forall u :: 0 <= u < n ==> !Leaf(m, r, u).v
    ensures forall u: nat :: u < n ==> Leaf(m, r, u) == ZERO
  {
    forall u: nat | u < n ensures Leaf(m, r, u) == ZERO { LeafIs(m, r, u); }
  }

  // ---------------------------------------------------------------- whole subtrees

  /** Table s is t or below it. */
  predicate Under(s: Tab, t: Tab) {
    s == t || (s.r == t.r && (t.Root? || (t.Mid? && s.Low? && s.i2 == t.i2)))
  }

  /** Table s is below one of the first i entries of t. */
  predicate Gone(s: Tab, t: Tab, i: nat) {
    s != t && Under(s, t) && (if t.Root? && !s.Root? then s.i2 < i else s.Low? && s.i1 < i)
  }

  lemma GoneNext(s: Tab, t: Tab, i: nat)
    requires !t.Low?
    ensures Gone(s, t, i + 1) <==> Gone(s, t, i) || Under(s, Child(t, i))
  {
  }

  /** A page of a table below the first i entries of t is free; every other page is in the
      same use with the same contents, unless it is free or is t itself. */
  predicate PagePruned(m: Mem, p: nat, g: Mem, t: Tab, i: nat) {
    && p in m.owner && p in g.owner && p < |m.pages| == |g.pages|
    && (if m.owner[p].Tables? && Gone(m.owner[p].t, t, i) then g.owner[p] == Free
        else g.owner[p] == m.owner[p] && (m.owner[p] == Free || m.owner[p] == Tables(t) || g.pages[p] == m.pages[p]))
  }

  ghost predicate Pruned(m: Mem, g: Mem, t: Tab, i: nat) {
    && g.owner.Keys == m.owner.Keys && |g.pages| == |m.pages|
    && (forall p {:trigger PagePruned(m, p, g, t, i)} :: p in m.owner ==> PagePruned(m, p, g, t, i))
    && (forall s :: s in g.at <==> s in m.at && !Gone(s, t, i))
    && (forall s :: s in g.at ==> g.at[s] == m.at[s])
  }

  /** The same for t and everything below it. */
  predicate PageCut(m: Mem, p: nat, g: Mem, t: Tab) {
    && p in m.owner && p in g.owner && p < |m.pages| == |g.pages|
    && (if m.owner[p].Tables? && Under(m.owner[p].t, t) then g.owner[p] == Free
        else g.owner[p] == m.owner[p] && (m.owner[p] == Free || g.pages[p] == m.pages[p]))
  }

  ghost predicate Cut(m: Mem, g: Mem, t: Tab) {
    && g.owner.Keys == m.owner.Keys && |g.pages| == |m.pages|
    && (forall p {:trigger PageCut(m, p, g, t)} :: p in m.owner ==> PageCut(m, p, g, t))
    && (forall s :: s in g.at <==> s in m.at && !Under(s, t))
    && (forall s :: s in g.at ==> g.at[s] == m.at[s])
  }

  /** No level-0 table at or below t maps anything. */
  ghost predicate NoLeaves(m: Mem, t: Tab) {
    forall s, j {:trigger Entry(m, s, j)} :: s in m.at && s.Low? && Under(s, t) && 0 <= j < ENTRIES ==> Entry(m, s, j) == ZERO
  }

  lemma PrunedSelf(m: Mem, t: Tab)
    requires Good(m)
    ensures Pruned(m, m, t, 0)
  {
    forall p: nat | p in m.owner ensures PagePruned(m, p, m, t, 0) { assert PageOk(m, p); }
  }

  lemma PrunedEntry(m: Mem, g: Mem, t: Tab, i: nat, s: Tab, j: nat)
    requires Good(m) && Pruned(m, g, t, i) && s in g.at && s != t
    ensures Entry(g, s, j) == Entry(m, s, j)
  {
    assert TabOk(m, s);
    assert PagePruned(m, m.at[s], g, t, i);
  }

  /** Below a missing entry there is nothing. */
  lemma PrunedSkip(m: Mem, g: Mem, t: Tab, i: nat)
    requires Good(m) && Good(g) && Pruned(m, g, t, i) && (t.Low? || Child(t, i) !in g.at) && i < ENTRIES
    ensures Pruned(m, g, t, i + 1)
  {
    forall s | s in m.at ensures Gone(s, t, i + 1) <==> Gone(s, t, i) {
      if !t.Low? && s in g.at && Under(s, Child(t, i)) { TabIs(g, s); }
      if !t.Low? { GoneNext(s, t, i); }
    }
    forall p: nat | p in m.owner ensures PagePruned(m, p, g, t, i + 1) {
      assert PagePruned(m, p, g, t, i);
      assert PageOk(m, p);
    }
  }

  /** Cutting entry i and unlinking it. */
  lemma PrunedNext(m: Mem, v: Mem, w: Mem, t: Tab, i: nat, g: Mem)
    requires Good(m) && Good(v) && Pruned(m, v, t, i) && !t.Low? && i < ENTRIES && Cut(v, w, Child(t, i))
    requires t in w.at && IsTable(w, w.at[t]) && w.at[t] in w.owner && w.owner[w.at[t]] == Tables(t)
    requires g == PutEntry(w, t, i, ZERO).(hole := None)
    ensures Pruned(m, g, t, i + 1)
  {
    forall s ensures Gone(s, t, i + 1) <==> Gone(s, t, i) || Under(s, Child(t, i)) { GoneNext(s, t, i); }
    forall p: nat | p in m.owner ensures PagePruned(m, p, g, t, i + 1) {
      assert PagePruned(m, p, v, t, i);
      assert PageCut(v, p, w, Child(t, i));
      assert PageOk(v, p);
    }
  }

  /** Dropping the emptied table itself. */
  lemma PrunedCut(m: Mem, v: Mem, t: Tab)
    requires Good(m) && Good(v) && Pruned(m, v, t, ENTRIES) && t in v.at
    ensures v.at[t] < |v.pages| && Cut(m, TableDropped(v, t), t)
  {
    TabIs(v, t);
    var g := TableDropped(v, t);
    forall s | s in m.at ensures Under(s, t) <==> s == t || Gone(s, t, ENTRIES) {
      assert TabOk(m, s);
      if s.Low? { assert TabOk(m, Parent(s)); }
    }
    assert TabOk(v, t);
    forall p: nat | p in m.owner ensures PageCut(m, p, g, t) {
      assert PagePruned(m, p, v, t, ENTRIES);
      assert PageOk(m, p) && PageOk(v, p);
    }
  }

  // ---------------------------------------------------------------- a whole address space

  predicate Serves(o: Owner, r: nat) { (o.Tables? && o.t.r == r) || (o.User? && o.r == r) }

  /** Every page that served root r is free; every other page is as it was. */
  predicate Cleared(m: Mem, p: nat, g: Mem, r: nat) {
    && p in m.owner && p in g.owner && p < |m.pages| == |g.pages|
    && (if Serves(m.owner[p], r) then g.owner[p] == Free
        else g.owner[p] == m.owner[p] && (m.owner[p].Held? || m.owner[p].User? ==> g.pages[p] == m.pages[p]))
  }

  ghost predicate Reclaimed(m: Mem, g: Mem, r: nat) {
    && g.owner.Keys == m.owner.Keys && |g.pages| == |m.pages|
    && (forall p {:trigger Cleared(m, p, g, r)} :: p in m.owner ==> Cleared(m, p, g, r))
    && (forall t :: t in g.at <==> t in m.at && t.r != r) && (forall t :: t in g.at ==> g.at[t] == m.at[t])
    && (forall q: nat, u: nat :: u < MAXVPN ==> Leaf(g, q, u) == if q == r then ZERO else Leaf(m, q, u))
  }

  /** Every page is in the same use, and every map, table and user page is as it was. */
  ghost predicate Restored(m: Mem, g: Mem) {
    && g.owner == m.owner && g.at == m.at && |g.pages| == |m.pages|
    && (forall q: nat, u: nat :: u < MAXVPN ==> Leaf(g, q, u) == Leaf(m, q, u))
    && (forall p :: p in m.owner && (m.owner[p].Held? || m.owner[p].User?) && p < |m.pages| ==> g.pages[p] == m.pages[p])
  }

  /** Root r is not in use: no table, no user page. */
  ghost predicate Absent(m: Mem, r: nat) {
    && (forall t :: t in m.at ==> t.r != r) && (forall p :: p in m.owner ==> !Serves(m.owner[p], r))
  }

  lemma ReclaimRestores(m: Mem, g: Mem, h: Mem, r: nat, lo: nat, hi: nat)
    requires Good(m) && Absent(m, r) && Changed(m, g, r, lo, hi) && Reclaimed(g, h, r)
    requires forall q: nat, u: nat :: u < MAXVPN && q != r ==> Leaf(g, q, u) == Leaf(m, q, u)
    ensures Restored(m, h)
  {
    forall p: nat | p in m.owner
      ensures h.owner[p] == m.owner[p]
      ensures (m.owner[p].Held? || m.owner[p].User?) && p < |m.pages| ==> h.pages[p] == m.pages[p]
    {
      assert Moved(m, p, g, r, lo, hi);
      assert Cleared(g, p, h, r);
    }
    forall q: nat, u: nat | u < MAXVPN ensures Leaf(h, q, u) == Leaf(m, q, u) { if q == r { AbsentLeaf(m, r, u); } }
    assert h.owner == m.owner;
    assert h.at.Keys == m.at.Keys;
    assert h.at == m.at;
  }

  lemma AbsentLeaf(m: Mem, r: nat, u: nat)
    requires Absent(m, r)
    ensures Leaf(m, r, u) == ZERO
  {
  }

  /** Unmapping the user range and cutting the tree reclaims everything. */
  lemma CutReclaims(m: Mem, g: Mem, h: Mem, r: nat, n: nat)
    requires Good(m) && Good(g) && Freed(m, g, r, 0, n) && Unmapped(m, r, 0, n, g) && Cut(g, h, Root(r)) && SameMaps(g, h)
    requires forall u: nat :: n <= u < MAXVPN ==> Leaf(m, r, u) == ZERO
    ensures Reclaimed(m, h, r)
  {
    forall p: nat | p in m.owner ensures Cleared(m, p, h, r) {
      assert Dropped(m, p, g, r, 0, n);
      assert PageCut(g, p, h, Root(r));
      assert PageOk(m, p) && PageOk(g, p);
    }
    forall s ensures Under(s, Root(r)) <==> s.r == r { }
  }

  /** A root without mappings has no leaves. */
  lemma EmptyNoLeaves(m: Mem, r: nat)
    requires Good(m) && forall u: nat :: u < MAXVPN ==> Leaf(m, r, u) == ZERO
    ensures NoLeaves(m, Root(r))
  {
    forall s, j | s in m.at && s.Low? && Under(s, Root(r)) && 0 <= j < ENTRIES ensures Entry(m, s, j) == ZERO {
      assert TabOk(m, s);
      var u := s.i2 * 0x4_0000 + s.i1 * 512 + j;
      IndicesOf(s.i2, s.i1, j);
      assert Leaf(m, r, u) == ZERO;
    }
  }

  lemma IndicesOf(i2: nat, i1: nat, i0: nat)
    requires i2 < 256 && i1 < 512 && i0 < 512
    ensures var u := i2 * 0x4_0000 + i1 * 512 + i0; u < MAXVPN && I2(u) == i2 && I1(u) == i1 && I0(u) == i0
  {
  }

  // ---------------------------------------------------------------- steps of the larger operations

  function FreePages(m: Mem): set<nat> { set p | p in m.owner && m.owner[p] == Free }

  /** The free list holds each free page once, so it is no longer than the memory. */
  lemma FreeWithin(m: Mem)
    requires Good(m)
    ensures |m.free| <= |m.owner| && |m.free| == |FreePages(m)|
  {
    Sets.DistinctSize(m.free);
    forall p | p in m.owner && m.owner[p] == Free ensures p in m.free { assert PageOk(m, p); }
    assert Sets.Elements(m.free) == FreePages(m);
    Sets.SubsetSize(FreePages(m), m.owner.Keys);
  }

  /** After a failed fork sys_meminfo reports what it reported before. */
  lemma SameFreeCount(m: Mem, g: Mem)
    requires Good(m) && Good(g) && g.owner == m.owner
    ensures |g.free| == |m.free|
  {
    FreeWithin(m);
    FreeWithin(g);
  }

  lemma TakenRestored(m: Mem, p: nat, k: Mem, g: Mem)
    requires Good(m) && m.free != [] && m.free[0] == p < |m.pages| && k == Taken(m) && SameMaps(m, k)
    requires Restored(k, g) && p < |g.pages| && SameMaps(g, Released(g, p))
    ensures Restored(m, Released(g, p))
  {
    assert p in m.free;
    var h := Released(g, p);
    assert h.owner == m.owner;
    forall q: nat, u: nat | u < MAXVPN ensures Leaf(h, q, u) == Leaf(m, q, u) { assert Leaf(g, q, u) == Leaf(k, q, u); }
  }

  /** Before the copy: the parent's pages are where they were, the child's are unmapped. */
  lemma ParentKept(m: Mem, m1: Mem, m2: Mem, r: nat, q: nat, n: nat, tramp: nat, trapframe: nat)
    requires Good(m) && m.free != [] && m.free[0] < |m.pages| && m1 == Taken(m) && SameMaps(m, m1) && Root(r) in m.at
    requires NewSpace(m1, m2, q, tramp, trapframe) && Absent(m1, q) && n <= TRAPFRAME && forall u :: 0 <= u < n ==> Owned(m, r, u)
    ensures r != q && Root(r) in m2.at && ParentReady(m, m2, r, q, n)
    ensures forall u :: 0 <= u < n ==> Owned(m2, r, u) && !Leaf(m2, q, u).v
  {
    forall u: nat | u < n ensures Ready(m, m2, r, q, u) {
      assert Owned(m, r, u) && PageOk(m, Leaf(m, r, u).ppn) && m.free[0] in m.free;
      assert Leaf(m2, r, u) == Leaf(m1, r, u) == Leaf(m, r, u);
      assert Moved(m1, Leaf(m, r, u).ppn, m2, q, 0, 0);
    }
    forall u | 0 <= u < n ensures Owned(m2, r, u) && !Leaf(m2, q, u).v { assert Ready(m, m2, r, q, u); }
  }

  predicate Ready(m: Mem, g: Mem, r: nat, q: nat, u: nat) {
    Owned(m, r, u) && Owned(g, r, u) && !Leaf(g, q, u).v && SamePage(m, g, r, u)
  }

  ghost predicate ParentReady(m: Mem, g: Mem, r: nat, q: nat, n: nat) {
    forall u: nat {:trigger Ready(m, g, r, q, u)} :: u < n ==> Ready(m, g, r, q, u)
  }

  predicate SamePage(m: Mem, g: Mem, r: nat, u: nat) {
    && Leaf(g, r, u) == Leaf(m, r, u) && Leaf(m, r, u).ppn < |m.pages| == |g.pages|
    && g.pages[Leaf(m, r, u).ppn] == m.pages[Leaf(m, r, u).ppn]
  }

  lemma ForkCopied(m: Mem, m1: Mem, m2: Mem, g: Mem, r: nat, q: nat, n: nat, tramp: nat, trapframe: nat)
    requires Good(m) && m.free != [] && m.free[0] < |m.pages| && m1 == Taken(m) && SameMaps(m, m1)
    requires NewSpace(m1, m2, q, tramp, trapframe) && Absent(m1, q) && Copied(m2, r, g, q, n)
    requires ParentReady(m, m2, r, q, n)
    ensures forall u: nat :: u < n ==> CopyOf(m, r, g, q, u)
    ensures Absent(m, q) && forall k: nat, u: nat :: u < MAXVPN && k != q ==> Leaf(g, k, u) == Leaf(m, k, u)
  {
    forall u: nat | u < n ensures CopyOf(m, r, g, q, u) {
      assert CopyOf(m2, r, g, q, u) && Ready(m, m2, r, q, u);
    }
    forall k: nat, u: nat | u < MAXVPN && k != q ensures Leaf(g, k, u) == Leaf(m, k, u) {
      assert Leaf(g, k, u) == Leaf(m2, k, u) == Leaf(m1, k, u);
    }
    assert m.free[0] in m.free;
    forall p | p in m.owner ensures !Serves(m.owner[p], q) { if p != m.free[0] { assert m1.owner[p] == m.owner[p]; } }
  }

  /** After a failed copy the child has its two system pages and nothing else. */
  lemma ForkFails(m1: Mem, m2: Mem, g: Mem, q: nat, tramp: nat, trapframe: nat)
    requires NewSpace(m1, m2, q, tramp, trapframe) && Absent(m1, q) && Changed(m2, g, q, 0, 0) && SameOutside(m2, q, 0, 0, g)
    requires trapframe in m1.owner && m1.owner[trapframe] == Held
    ensures Changed(m1, g, q, 0, 0) && NewSpace(m1, g, q, tramp, trapframe)
    ensures forall p :: p in g.owner ==> !(g.owner[p].User? && g.owner[p].r == q)
    ensures trapframe in g.owner && g.owner[trapframe] == Held
  {
    ChangedTwice(m1, m2, g, q, 0, 0);
    NoUsers(m1, g, q, 0, 0);
    assert Moved(m1, trapframe, g, q, 0, 0);
  }

  lemma ForkUndone(m: Mem, p: nat, m1: Mem, m3: Mem, m4: Mem, h: Mem, q: nat)
    requires Good(m) && m.free != [] && m.free[0] == p < |m.pages| && m1 == Taken(m) && SameMaps(m, m1) && Absent(m1, q)
    requires Changed(m1, m3, q, 0, 0) && forall k: nat, u: nat :: u < MAXVPN && k != q ==> Leaf(m3, k, u) == Leaf(m1, k, u)
    requires p < |m3.pages| && m4 == Released(m3, p) && SameMaps(m3, m4) && Reclaimed(m4, h, q)
    ensures Restored(m, h)
  {
    assert p in m.free;
    forall x: nat | x in m.owner
      ensures h.owner[x] == m.owner[x]
      ensures (m.owner[x].Held? || m.owner[x].User?) && x < |m.pages| ==> h.pages[x] == m.pages[x]
    {
      assert Moved(m1, x, m3, q, 0, 0);
      assert Cleared(m4, x, h, q);
    }
    forall k: nat, u: nat | u < MAXVPN ensures Leaf(h, k, u) == Leaf(m, k, u) {
      assert Leaf(m4, k, u) == Leaf(m3, k, u) && Leaf(m1, k, u) == Leaf(m, k, u);
      if k == q { AbsentLeaf(m1, q, u); }
    }
    assert h.owner == m.owner;
    assert h.at.Keys == m.at.Keys;
    assert h.at == m.at;
  }

  /** Unmapping above the user range leaves user memory alone. */
  lemma UsersKept(m: Mem, g: Mem, r: nat, lo: nat, hi: nat, n: nat)
    requires Good(m) && Freed(m, g, r, lo, hi) && Unmapped(m, r, lo, hi, g) && n <= lo && lo < MAXVPN
    requires forall u :: 0 <= u < n ==> Owned(m, r, u)
    requires forall p :: p in m.owner && m.owner[p].User? && m.owner[p].r == r ==> m.owner[p].vpn < TRAPFRAME
    ensures forall u :: 0 <= u < n ==> Owned(g, r, u)
    ensures forall p :: p in g.owner && g.owner[p].User? && g.owner[p].r == r ==> g.owner[p].vpn < TRAPFRAME
  {
    forall u | 0 <= u < n ensures Owned(g, r, u) {
      assert Owned(m, r, u);
      assert Dropped(m, Leaf(m, r, u).ppn, g, r, lo, hi);
    }
    forall p | p in g.owner && g.owner[p].User? && g.owner[p].r == r ensures g.owner[p].vpn < TRAPFRAME {
      assert Dropped(m, p, g, r, lo, hi);
    }
  }

  const TRAMPOLINE: nat := MAXVPN - 1
  const TRAPFRAME: nat := MAXVPN - 2

  /** The two supervisor pages at the top of every user address space. */
  function SystemPage(u: nat, tramp: nat, trapframe: nat): Pte {
    if u == TRAMPOLINE then Pte(true, tramp, Flags(true, false, true, false))
    else if u == TRAPFRAME then Pte(true, trapframe, Flags(true, true, false, false)) else ZERO
  }

  /** g is m with a new root r that maps the trampoline and the trapframe and nothing else. */
  ghost predicate NewSpace(m: Mem, g: Mem, r: nat, tramp: nat, trapframe: nat) {
    && Changed(m, g, r, 0, 0)
    && forall q: nat, u: nat :: u < MAXVPN ==> Leaf(g, q, u) == if q != r then Leaf(m, q, u) else SystemPage(u, tramp, trapframe)
  }

  lemma NewSpaceIs(m: Mem, c: Mem, g: Mem, h: Mem, r: nat, tramp: nat, trapframe: nat)
    requires SameMaps(m, c) && Absent(m, r) && Changed(m, h, r, 0, 0)
    requires Mapped(c, r, TRAMPOLINE, 1, tramp, Flags(true, false, true, false), g)
    requires Mapped(g, r, TRAPFRAME, 1, trapframe, Flags(true, true, false, false), h)
    ensures NewSpace(m, h, r, tramp, trapframe)
  {
    forall q: nat, u: nat | u < MAXVPN
      ensures Leaf(h, q, u) == if q != r then Leaf(m, q, u) else SystemPage(u, tramp, trapframe)
    {
      assert Leaf(g, q, u) == if q == r && u == TRAMPOLINE then SystemPage(u, tramp, trapframe) else Leaf(c, q, u);
      if q == r { AbsentLeaf(m, r, u); }
    }
  }

  lemma NothingMapped(m: Mem, c: Mem, r: nat)
    requires SameMaps(m, c) && Absent(m, r)
    ensures forall u: nat :: Leaf(c, r, u) == ZERO
  {
    forall u: nat ensures Leaf(c, r, u) == ZERO { AbsentLeaf(m, r, u); }
  }

  /** Where proc_pagetable stands when the trapframe cannot be mapped. */
  lemma OnlyTrampoline(c: Mem, g: Mem, h: Mem, r: nat, tramp: nat, trapframe: nat)
    requires forall u: nat :: Leaf(c, r, u) == ZERO
    requires Mapped(c, r, TRAMPOLINE, 1, tramp, Flags(true, false, true, false), g)
    requires Mapped(g, r, TRAPFRAME, 0, trapframe, Flags(true, true, false, false), h)
    ensures Leaf(h, r, TRAMPOLINE).v && forall u: nat :: u < TRAMPOLINE ==> Leaf(h, r, u) == ZERO
  {
    forall u: nat | u < TRAMPOLINE ensures Leaf(h, r, u) == ZERO { assert Leaf(g, r, u) == Leaf(c, r, u); }
    assert Leaf(h, r, TRAMPOLINE) == Leaf(g, r, TRAMPOLINE);
  }

  /** What proc_freepagetable asks for, after the trapframe has been freed. */
  lemma SpaceReady(m: Mem, g: Mem, h: Mem, q: nat, tramp: nat, trapframe: nat)
    requires NewSpace(m, g, q, tramp, trapframe) && SameMaps(g, h) && h.owner == g.owner[trapframe := Free]
    requires forall p :: p in g.owner ==> !(g.owner[p].User? && g.owner[p].r == q)
    ensures Leaf(h, q, TRAMPOLINE).v && Leaf(h, q, TRAPFRAME).v
    ensures forall u: nat :: u < TRAPFRAME ==> Leaf(h, q, u) == ZERO
    ensures forall p :: p in h.owner ==> !(h.owner[p].User? && h.owner[p].r == q)
  {
    assert Leaf(h, q, TRAMPOLINE) == Leaf(g, q, TRAMPOLINE) && Leaf(h, q, TRAPFRAME) == Leaf(g, q, TRAPFRAME);
  }

  lemma CreatedAbsent(m: Mem, k: Mem, r: nat)
    requires Good(m) && m.free != [] && m.free[0] == r < |m.pages| && k == Taken(m) && Good(k) && k.hole == None
    requires forall t :: t in k.at ==> t.r != r
    ensures Absent(m, r) && Changed(m, RootAdded(k, r), r, 0, 0) && r in m.owner && m.owner[r] == Free
  {
    assert r in m.free;
    forall p | p in m.owner ensures !Serves(m.owner[p], r) {
      assert PageOk(m, p);
    }
    forall q: nat | q in m.owner ensures Moved(m, q, RootAdded(k, r), r, 0, 0) { assert PageOk(m, q); }
  }

  lemma NoUsers(m: Mem, g: Mem, r: nat, lo: nat, hi: nat)
    requires Absent(m, r) && Changed(m, g, r, lo, hi) && lo >= hi
    ensures forall p :: p in g.owner ==> !(g.owner[p].User? && g.owner[p].r == r)
  {
    forall p | p in g.owner ensures !(g.owner[p].User? && g.owner[p].r == r) { assert Moved(m, p, g, r, lo, hi); }
  }

  /** Unmapping first and reclaiming then is reclaiming. */
  lemma UnmapReclaims(m: Mem, g: Mem, h: Mem, r: nat, lo: nat, hi: nat)
    requires Freed(m, g, r, lo, hi) && Unmapped(m, r, lo, hi, g) && Reclaimed(g, h, r)
    ensures Reclaimed(m, h, r)
  {
    forall p: nat | p in m.owner ensures Cleared(m, p, h, r) {
      assert Dropped(m, p, g, r, lo, hi);
      assert Cleared(g, p, h, r);
    }
  }

  lemma NoLeavesBelow(m: Mem, v: Mem, t: Tab, i: nat)
    requires Good(m) && Pruned(m, v, t, i) && NoLeaves(m, t) && !t.Low?
    ensures NoLeaves(v, Child(t, i))
  {
    forall s, j | s in v.at && s.Low? && Under(s, Child(t, i)) && 0 <= j < ENTRIES ensures Entry(v, s, j) == ZERO {
      PrunedEntry(m, v, t, i, s, j);
    }
  }

  /** The table above the cut is untouched. */
  lemma CutAbove(v: Mem, w: Mem, c: Tab)
    requires Good(v) && Cut(v, w, c) && !c.Root? && c in v.at && Good(w)
    ensures Parent(c) in v.at && Parent(c) in w.at && w.at[Parent(c)] == v.at[Parent(c)] && Index(c) < ENTRIES
    ensures TabOk(w, Parent(c)) && w.pages[w.at[Parent(c)]] == v.pages[v.at[Parent(c)]]
  {
    assert TabOk(v, c) && TabOk(v, Parent(c));
    assert PageCut(v, v.at[Parent(c)], w, c);
    assert TabOk(w, Parent(c));
  }

  lemma ZeroKept(v: Mem, w: Mem, t: Tab, i: nat)
    requires t in v.at && t in w.at && v.at[t] == w.at[t] && IsTable(w, w.at[t]) && IsTable(v, v.at[t]) && i < ENTRIES
    requires w.pages[w.at[t]] == v.pages[v.at[t]] && forall j :: 0 <= j < i ==> Entry(v, t, j) == ZERO
    ensures var g := PutEntry(w, t, i, ZERO).(hole := None); forall j :: 0 <= j < i + 1 ==> Entry(g, t, j) == ZERO
  {
    var g := PutEntry(w, t, i, ZERO).(hole := None);
    forall j | 0 <= j < i + 1 ensures Entry(g, t, j) == ZERO { assert j < i ==> Entry(v, t, j) == ZERO; }
  }

  /** One entry of freewalk's loop: the subtree is cut and then unlinked. */
  lemma CutStep(m: Mem, v: Mem, w: Mem, t: Tab, i: nat)
    requires Good(m) && Good(v) && Good(w) && !t.Low? && i < ENTRIES && t in v.at && Child(t, i) in v.at && IsTable(v, v.at[t])
    requires Pruned(m, v, t, i) && SameMaps(m, v) && Cut(v, w, Child(t, i)) && SameMaps(v, w) && w.hole == Some(Child(t, i))
    requires forall j :: 0 <= j < i ==> Entry(v, t, j) == ZERO
    ensures t in w.at && w.at[t] == v.at[t] && IsTable(w, w.at[t])
    ensures var g := PutEntry(w, t, i, ZERO).(hole := None);
            Good(g) && Pruned(m, g, t, i + 1) && SameMaps(m, g) && forall j :: 0 <= j < i + 1 ==> Entry(g, t, j) == ZERO
  {
    var c := Child(t, i);
    CutAbove(v, w, c);
    UnlinkedGood(w, c);
    PrunedNext(m, v, w, t, i, PutEntry(w, t, i, ZERO).(hole := None));
    ZeroKept(v, w, t, i);
  }

  /** The first n pages of root r have been copied to root q, on free pages, and nothing else changed. */
  ghost predicate Copied(m: Mem, r: nat, g: Mem, q: nat, n: nat) {
    && Changed(m, g, q, 0, n) && SameOutside(m, q, 0, n, g)
    && forall u: nat {:trigger CopyOf(m, r, g, q, u)} :: u < n ==> CopyOf(m, r, g, q, u)
  }

  lemma CopyFails(m: Mem, r: nat, v: Mem, g: Mem, q: nat, i: nat)
    requires Copied(m, r, v, q, i) && i < MAXVPN && SameOutside(v, q, i, i + 1, g) && Leaf(g, q, i) == Leaf(v, q, i)
    requires Changed(v, g, q, 0, 0)
    ensures Changed(m, g, q, 0, i) && SameOutside(m, q, 0, i, g) && forall u :: 0 <= u < i ==> Owned(g, q, u)
  {
    CopiesKept(m, r, v, g, q, i, 0, 0);
    ChangedRest(m, v, g, q, 0, i);
  }

  lemma CopyNext(m: Mem, r: nat, v: Mem, g: Mem, q: nat, i: nat)
    requires Good(m) && Copied(m, r, v, q, i) && Owned(m, r, i) && i < MAXVPN && r != q
    requires SameOutside(v, q, i, i + 1, g) && CopyOf(v, r, g, q, i) && Changed(v, g, q, i, i + 1)
    ensures Copied(m, r, g, q, i + 1)
  {
    CopiesKept(m, r, v, g, q, i, i, i + 1);
    ChangedNext(m, v, g, q, 0, i);
    OwnedKept(m, v, r, q, i);
  }

  /** The parent's page is still its own, with the same contents. */
  lemma OwnedKept(m: Mem, g: Mem, r: nat, q: nat, u: nat)
    requires Good(m) && Owned(m, r, u) && u < MAXVPN && r != q && Changed(m, g, q, 0, u) && SameOutside(m, q, 0, u, g)
    ensures Owned(g, r, u) && Leaf(g, r, u) == Leaf(m, r, u)
    ensures Leaf(m, r, u).ppn < |m.pages| == |g.pages| && g.pages[Leaf(m, r, u).ppn] == m.pages[Leaf(m, r, u).ppn]
  {
    assert PageOk(m, Leaf(m, r, u).ppn);
    assert Moved(m, Leaf(m, r, u).ppn, g, q, 0, u);
  }

  lemma CopiesKept(m: Mem, r: nat, v: Mem, g: Mem, q: nat, i: nat, from: nat, to: nat)
    requires (forall u: nat {:trigger CopyOf(m, r, v, q, u)} :: u < i ==> CopyOf(m, r, v, q, u)) && Changed(v, g, q, from, to) && i <= MAXVPN
    requires forall u: nat :: u < i ==> Leaf(g, q, u) == Leaf(v, q, u)
    ensures forall u: nat {:trigger CopyOf(m, r, g, q, u)} {:trigger Owned(g, q, u)} :: u < i ==> CopyOf(m, r, g, q, u) && Owned(g, q, u)
  {
    forall u: nat | u < i ensures CopyOf(m, r, g, q, u) && Owned(g, q, u) {
      assert CopyOf(m, r, v, q, u);
      HoldsKept(v, g, q, from, to, q, u, m.pages[Leaf(m, r, u).ppn].bytes, Leaf(m, r, u).flags);
    }
  }

  lemma UpMonotone(a: nat, b: nat)
    requires a <= b
    ensures Up(a) <= Up(b)
  {
  }

  lemma UpPages(n: nat)
    ensures Up(n * PGSIZE) == n
  {
  }

  lemma ZeroedOwned(m: Mem, r: nat, lo: nat, hi: nat, perm: Flags)
    requires Zeroed(m, r, lo, hi, perm)
    ensures forall u :: lo <= u < hi ==> Owned(m, r, u)
  {
    forall u | lo <= u < hi ensures Owned(m, r, u) { assert Holds(m, r, u, Zeroes(), perm); }
  }

  lemma FreedEmpty(m: Mem, r: nat, lo: nat, hi: nat)
    requires Good(m) && hi <= lo
    ensures Freed(m, m, r, lo, hi) && Unmapped(m, r, lo, hi, m)
  {
    forall p: nat | p in m.owner ensures Dropped(m, p, m, r, lo, hi) { assert PageOk(m, p); }
  }

  lemma ChangedRest(m: Mem, g: Mem, h: Mem, r: nat, lo: nat, a: nat)
    requires Changed(m, g, r, lo, a) && Changed(g, h, r, 0, 0)
    ensures Changed(m, h, r, lo, a)
  {
    forall p: nat | p in m.owner ensures Moved(m, p, h, r, lo, a) {
      assert Moved(m, p, g, r, lo, a) && Moved(g, p, h, r, 0, 0);
    }
  }

  lemma ZeroedKept(m: Mem, g: Mem, r: nat, lo: nat, a: nat, perm: Flags, from: nat, to: nat)
    requires Zeroed(m, r, lo, a, perm) && Changed(m, g, r, from, to) && a <= MAXVPN
    requires forall u: nat :: u < a ==> Leaf(g, r, u) == Leaf(m, r, u)
    ensures Zeroed(g, r, lo, a, perm)
  {
    forall u: nat | lo <= u < a ensures Holds(g, r, u, Zeroes(), perm) {
      assert Holds(m, r, u, Zeroes(), perm);
      HoldsKept(m, g, r, from, to, r, u, Zeroes(), perm);
    }
  }

  /** One more page for uvmalloc. */
  lemma AllocNext(m: Mem, v: Mem, g: Mem, r: nat, lo: nat, a: nat, perm: Flags)
    requires Changed(m, v, r, lo, a) && SameOutside(m, r, lo, a, v) && Zeroed(v, r, lo, a, perm) && lo <= a < MAXVPN
    requires Changed(v, g, r, a, a + 1) && SameOutside(v, r, a, a + 1, g) && Holds(g, r, a, Zeroes(), perm)
    ensures Changed(m, g, r, lo, a + 1) && SameOutside(m, r, lo, a + 1, g) && Zeroed(g, r, lo, a + 1, perm)
  {
    ZeroedKept(v, g, r, lo, a, perm, a, a + 1);
    ChangedNext(m, v, g, r, lo, a);
  }

  lemma AllocFails(m: Mem, v: Mem, g: Mem, r: nat, lo: nat, a: nat, perm: Flags)
    requires Changed(m, v, r, lo, a) && SameOutside(m, r, lo, a, v) && Zeroed(v, r, lo, a, perm) && lo <= a < MAXVPN
    requires Changed(v, g, r, 0, 0) && SameOutside(v, r, a, a + 1, g) && Leaf(g, r, a) == Leaf(v, r, a)
    ensures Changed(m, g, r, lo, a) && SameOutside(m, r, lo, a, g) && (forall u :: lo <= u < a ==> Owned(g, r, u))
    ensures Up(a * PGSIZE) == a && Up(lo * PGSIZE) == lo
  {
    ZeroedKept(v, g, r, lo, a, perm, 0, 0);
    ChangedRest(m, v, g, r, lo, a);
    UpPages(a);
    UpPages(lo);
    ZeroedOwned(g, r, lo, a, perm);
  }

  lemma SameLeaves(m: Mem, g: Mem)
    requires g.pages == m.pages && g.at == m.at
    ensures SameMaps(m, g)
  {
    forall r: nat, vpn: nat ensures Leaf(g, r, vpn) == Leaf(m, r, vpn) { }
  }

  /** The table maps u to a page that it owns. */
  predicate Owned(m: Mem, r: nat, u: nat) {
    Leaf(m, r, u).v && Leaf(m, r, u).ppn in m.owner && m.owner[Leaf(m, r, u).ppn] == User(r, u)
  }

  /** What has not been unmapped yet is as it was. */
  lemma FreedOther(m: Mem, g: Mem, r: nat, lo: nat, a: nat, doFree: bool)
    requires Freed(m, g, r, lo, a) && Unmapped(m, r, lo, a, g) && lo <= a < MAXVPN && Leaf(m, r, a).v
    requires doFree ==> Owned(m, r, a)
    requires !doFree ==> forall p :: p in m.owner ==> m.owner[p] != User(r, a)
    ensures Leaf(g, r, a).v && (doFree ==> Owned(g, r, a)) && (!doFree ==> forall p :: p in g.owner ==> g.owner[p] != User(r, a))
  {
    if doFree { assert Dropped(m, Leaf(m, r, a).ppn, g, r, lo, a); }
    else {
      forall p | p in g.owner ensures g.owner[p] != User(r, a) { assert Dropped(m, p, g, r, lo, a); }
    }
  }

  /** An unmapped page is nobody's user memory. */
  lemma NotUser(m: Mem, r: nat, vpn: nat)
    requires Good(m) && !Leaf(m, r, vpn).v
    ensures forall p :: p in m.owner ==> m.owner[p] != User(r, vpn)
  {
    forall p | p in m.owner ensures m.owner[p] != User(r, vpn) { assert PageOk(m, p); }
  }

  /** Memory whose pages are all on the free list, each once. */
  lemma AllFreeGood(m: Mem)
    requires m.at == map[] && m.hole == None && FreeOk(m)
    requires forall p :: p in m.owner ==> 0 < p < |m.pages| && m.owner[p] == Free && p in m.free
    ensures Good(m)
  {
    forall p | p in m.owner ensures PageOk(m, p) { }
  }

  // ---------------------------------------------------------------- the user's pages are its own

  /** Whatever the user may access is a page of its own address space.  Two virtual pages
      therefore never share a physical page. */
  ghost predicate UserOwned(m: Mem) {
    forall r: nat, u: nat :: u < MAXVPN && Leaf(m, r, u).v && Leaf(m, r, u).flags.u ==> Owned(m, r, u)
  }

  lemma OwnedStays(m: Mem, g: Mem, r: nat, lo: nat, hi: nat, q: nat, u: nat)
    requires Owned(m, q, u) && Changed(m, g, r, lo, hi) && Leaf(g, q, u) == Leaf(m, q, u)
    ensures Owned(g, q, u)
  {
    assert Moved(m, Leaf(m, q, u).ppn, g, r, lo, hi);
  }

  /** uvmalloc and uvmcopy, whether they succeed or roll back. */
  lemma GrownUserOwned(m: Mem, g: Mem, r: nat, lo: nat, hi: nat)
    requires UserOwned(m) && Changed(m, g, r, lo, hi) && SameOutside(m, r, lo, hi, g)
    requires forall u: nat :: lo <= u < hi ==> Owned(g, r, u)
    ensures UserOwned(g)
  {
    forall q: nat, u: nat | u < MAXVPN && Leaf(g, q, u).v && Leaf(g, q, u).flags.u ensures Owned(g, q, u) {
      if !(q == r && lo <= u < hi) {
        assert Leaf(g, q, u) == Leaf(m, q, u);
        OwnedStays(m, g, r, lo, hi, q, u);
      }
    }
  }

  /** proc_pagetable: the two pages it maps are not the user's. */
  lemma NewSpaceUserOwned(m: Mem, g: Mem, r: nat, tramp: nat, trapframe: nat)
    requires UserOwned(m) && NewSpace(m, g, r, tramp, trapframe)
    ensures UserOwned(g)
  {
    forall q: nat, u: nat | u < MAXVPN && Leaf(g, q, u).v && Leaf(g, q, u).flags.u ensures Owned(g, q, u) {
      assert q != r && Leaf(g, q, u) == Leaf(m, q, u);
      OwnedStays(m, g, r, 0, 0, q, u);
    }
  }

  /** uvmunmap and uvmdealloc. */
  lemma UnmappedUserOwned(m: Mem, g: Mem, r: nat, lo: nat, hi: nat)
    requires UserOwned(m) && Freed(m, g, r, lo, hi) && Unmapped(m, r, lo, hi, g)
    ensures UserOwned(g)
  {
    forall q: nat, u: nat | u < MAXVPN && Leaf(g, q, u).v && Leaf(g, q, u).flags.u ensures Owned(g, q, u) {
      assert Leaf(g, q, u) == Leaf(m, q, u) && Owned(m, q, u);
      assert Dropped(m, Leaf(m, q, u).ppn, g, r, lo, hi);
    }
  }

  lemma TakenUserOwned(m: Mem)
    requires Good(m) && UserOwned(m) && m.free != [] && m.free[0] < |m.pages|
    ensures UserOwned(Taken(m))
  {
    TakenGood(m);
    assert m.free[0] in m.free;
    forall q: nat, u: nat | u < MAXVPN && Leaf(Taken(m), q, u).v && Leaf(Taken(m), q, u).flags.u ensures Owned(Taken(m), q, u) {
      assert Leaf(Taken(m), q, u) == Leaf(m, q, u) && Owned(m, q, u);
    }
  }

  lemma RestoredUserOwned(m: Mem, g: Mem)
    requires UserOwned(m) && Restored(m, g)
    ensures UserOwned(g)
  {
    forall q: nat, u: nat | u < MAXVPN && Leaf(g, q, u).v && Leaf(g, q, u).flags.u ensures Owned(g, q, u) {
      assert Leaf(g, q, u) == Leaf(m, q, u) && Owned(m, q, u);
    }
  }

  /** fork, when it succeeds. */
  lemma ForkUserOwned(m: Mem, m2: Mem, g: Mem, r: nat, q: nat, n: nat, tramp: nat, trapframe: nat)
    requires Good(m) && UserOwned(m) && m.free != [] && m.free[0] < |m.pages|
    requires NewSpace(Taken(m), m2, q, tramp, trapframe) && Copied(m2, r, g, q, n)
    ensures UserOwned(g)
  {
    TakenUserOwned(m);
    NewSpaceUserOwned(Taken(m), m2, q, tramp, trapframe);
    forall u: nat | 0 <= u < n ensures Owned(g, q, u) { assert CopyOf(m2, r, g, q, u); }
    GrownUserOwned(m2, g, q, 0, n);
  }
}
