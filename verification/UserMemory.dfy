/** Growing, shrinking and copying user memory (kernel/vm.c), on top of the page tables. */
module UserMemory {
  import opened Blocks
  import opened PageTables
  import opened VirtualMemory

  /** PGROUNDUP(sz) / PGSIZE */
  function Pages(sz: nat): nat {
    (sz + PGSIZE - 1) / PGSIZE
  }

  function ZeroPage(): Page {
    Bytes(seq(PGSIZE, _ => 0))
  }

  /** What a new page is filled with and mapped as: zeros with given permissions, or a copy of the
      page that another tree has at the same address, with its flags. */
  datatype Fill = Zeros(perm: nat) | CopyOf(src: nat)

  function FlagsOf(a: Vm, fill: Fill, v: nat): nat {
    if fill.Zeros? then WithValid(fill.perm) else WithValid(Lookup(a.mem, fill.src, v).flags)
  }

  function PageOf(a: Vm, fill: Fill, v: nat): Page {
    if fill.Zeros? then ZeroPage()
    else if Lookup(a.mem, fill.src, v).ppn < |a.mem| then a.mem[Lookup(a.mem, fill.src, v).ppn]
    else ZeroPage()
  }

  /** The permissions make a leaf; a tree copied from is another one, and owns a page there. */
  ghost predicate GoodFill(a: Vm, root: nat, fill: Fill, vpn: nat, n: nat) {
    if fill.Zeros? then WithValid(fill.perm) != PTE_V
    else
      fill.src != root && IsRoot(a, fill.src)
      && forall v: nat :: vpn <= v < vpn + n ==>
          v < MAXVPN && IsLeaf(Lookup(a.mem, fill.src, v)) && Owned(a, fill.src, v)
  }

  /** Translations: k new pages from vpn on, all others as in a. */
  ghost predicate AllocMaps(a: Vm, b: Vm, root: nat, vpn: nat, k: nat, fill: Fill) {
    && (forall r :: IsRoot(a, r) ==> IsRoot(b, r))
    && (forall r: nat, v: nat {:trigger Lookup(b.mem, r, v)} {:trigger Lookup(a.mem, r, v)} ::
        IsRoot(a, r) && v < MAXVPN ==>
          if r == root && vpn <= v < vpn + k then NewPage(a, b, root, v, fill)
              else Lookup(b.mem, r, v) == Lookup(a.mem, r, v))
  }

  /** Pages: the list got, and new tables, come off the free list; nothing else changes hands. */
  ghost predicate AllocOwns(a: Vm, b: Vm, got: seq<nat>) {
    && |b.mem| == |a.mem|
    && (forall t :: t in a.lv ==> t in b.lv && b.lv[t] == a.lv[t])
    && (forall c :: c in a.own ==> c in b.own && b.own[c] == a.own[c])
    && (forall c :: c in b.own && c !in a.own ==> c in got || (c in b.lv && c !in a.lv))
    && (forall x :: x in b.lv && x !in a.lv ==> x in a.free)
    && (forall x :: x in a.free <==> x in b.free || x in got || (x in b.lv && x !in a.lv))
    && (forall x: nat :: x < |a.mem| && x !in b.lv && x !in a.free ==> b.mem[x] == a.mem[x])
  }

  /** uvmalloc after k pages: they are mapped, owned and zero; nothing else is mapped or owned
      but new tables. */
  ghost predicate Alloced(a: Vm, b: Vm, root: nat, vpn: nat, k: nat, fill: Fill) {
    Good(b, {}) && AllocMaps(a, b, root, vpn, k, fill) && AllocOwns(a, b, PagesAt(b.mem, root, vpn, k))
  }

  predicate NewPage(a: Vm, b: Vm, root: nat, v: nat, fill: Fill) {
    var e := Lookup(b.mem, root, v);
    e.flags == FlagsOf(a, fill, v) && Owned(b, root, v) && e.ppn !in b.lv && e.ppn < |b.mem|
        && b.mem[e.ppn] == PageOf(a, fill, v)
    && IsLeaf(e)
  }

  /** Every translation, and every page in use but for new tables, is as in a; the free pages of a
      are free or tables now. */
  ghost predicate Restored(a: Vm, b: Vm) {
    && Good(b, {}) && |b.mem| == |a.mem|
    && (forall r :: IsRoot(a, r) ==> IsRoot(b, r))
    && (forall r: nat, v: nat {:trigger Lookup(b.mem, r, v)} {:trigger Lookup(a.mem, r, v)} ::
        IsRoot(a, r) && v < MAXVPN ==>
          SameTranslation(Lookup(a.mem, r, v), Lookup(b.mem, r, v)))
    && (forall c :: c in a.own ==> c in b.own && b.own[c] == a.own[c])
    && (forall c :: c in b.own && c !in a.own ==> c in b.lv && c !in a.lv)
    && (forall x :: x in a.free <==> x in b.free || (x in b.lv && x !in a.lv))
    && (forall x: nat :: x < |a.mem| && x !in b.lv && x !in a.free ==> b.mem[x] == a.mem[x])
  }

  predicate SameTranslation(d: Pte, e: Pte) {
    IsValid(d) == IsValid(e) && (IsValid(d) ==> e == d)
  }

  /** Shrink from oldsz to newsz, freeing the pages in between. */
  method Uvmdealloc(m: Machine, root: nat, oldsz: nat, newsz: nat) returns (sz: nat, panic: bool)
    requires Good(m.S(), {}) && IsRoot(m.S(), root)
    requires forall v: nat :: Pages(newsz) <= v < Pages(oldsz) ==> MayUnmap(m.S(), root, v, true)
    modifies m
    ensures newsz >= oldsz ==> sz == oldsz && !panic && m.S() == old(m.S())
    ensures newsz < oldsz ==> sz == newsz && Pages(newsz) <= Pages(oldsz)
    ensures newsz < oldsz ==> (panic <==> !AllLeaves(old(m.mem), root, Pages(newsz), Pages(oldsz) - Pages(newsz)))
    ensures newsz < oldsz && !panic ==>
              Unmapping(old(m.S()), m.S(), root, Pages(newsz), Pages(oldsz) - Pages(newsz), true)
  {
    hide Good, Lookup, MayUnmap, AllLeaves, Unmapping;
    if newsz >= oldsz {
      return oldsz, false;
    }
    panic := false;
    UnmapStart(m.S(), root, Pages(newsz), true);
    if Pages(newsz) < Pages(oldsz) {
      var npages := (Pages(oldsz) * PGSIZE - Pages(newsz) * PGSIZE) / PGSIZE;
      panic := m.Uvmunmap(root, Pages(newsz) * PGSIZE, npages, true);
    }
    return newsz, panic;
  }

  /** One round of uvmalloc or uvmcopy: a filled page mapped at the next address, or nothing. mappages
      panics exactly if there is a page to map and the address is past the end or mapped already. */
  method AllocOne(m: Machine, ghost vm0: Vm, root: nat, ghost p0: nat, ghost k: nat, a: nat, perm: nat, content: Page,
                  ghost fill: Fill)
    returns (ok: bool, panic: bool)
    requires Alloced(vm0, m.S(), root, p0, k, fill) && IsRoot(vm0, root) && a == (p0 + k) * PGSIZE
    requires WithValid(perm) == FlagsOf(vm0, fill, p0 + k) != PTE_V && content == PageOf(vm0, fill, p0 + k)
    modifies m
    ensures panic <==> old(m.free) != [] && Blocked(vm0.mem, root, p0 + k)
    ensures panic ==> !ok
    ensures ok ==> !Blocked(vm0.mem, root, p0 + k)
    ensures !panic ==> Alloced(vm0, m.S(), root, p0, if ok then k + 1 else k, fill)
    ensures ok ==> |old(m.free)| <= |m.free| + 3
    ensures !ok && !panic ==> |old(m.free)| < 3
  {
    hide Good, Lookup, Alloced, Grew, Mapped, SameTables, Px, FlagsOf, PageOf, IsValid;
    ghost var vm1 := m.S();
    AllocedGood(vm0, vm1, root, p0, k, fill);
    NextSame(vm0, vm1, root, p0, k, fill);
    var page := m.Kalloc(content, {});
    if page == 0 {
      return false, false;
    }
    ghost var vm2 := m.S();
    TakeUnmapped(vm1, vm2, root, p0 + k);
    var r;
    ghost var mapped;
    r, panic, mapped := m.Mappages(root, a, PGSIZE, page * PGSIZE, perm);
    ghost var vm3 := m.S();
    if panic {
      return false, true;
    }
    if r != 0 {
      AllocFails(vm0, vm1, vm2, vm3, root, p0, k, page, fill);
      panic := m.Kfree(page * PGSIZE, Junk());
      return false, panic;
    }
    AllocWorks(vm0, vm1, vm2, vm3, root, p0, k, page, fill);
    m.own := m.own[page := Slot(TableAt(m.mem, root, 0, p0 + k), Px(0, p0 + k))];
    return true, false;
  }

  /** Grow from oldsz to newsz with zeroed user pages, or change nothing: where it succeeds, user mode
      reads zeros there and every other byte as before, and xperm, PTE_R and PTE_U are granted. On failure every
      translation is as before and every page is back, but for page-table pages, which stay. The
      first k pages could be mapped; the call ends at the next one, where it panics exactly if there
      is a free page left and the address is mapped already or past the end, and else fails, with
      fewer than three free pages for each page so far. */
  method Uvmalloc(m: Machine, root: nat, oldsz: nat, newsz: nat, xperm: nat)
    returns (sz: nat, panic: bool, ghost k: nat)
    requires Good(m.S(), {}) && IsRoot(m.S(), root)
    modifies m
    ensures newsz < oldsz ==> !panic && sz == oldsz && m.S() == old(m.S())
    ensures newsz >= oldsz ==> Pages(oldsz) + k <= Pages(newsz) && Unmapped(old(m.mem), root, Pages(oldsz), k)
    ensures newsz >= oldsz && !panic && Pages(oldsz) + k == Pages(newsz) ==>
              && sz == newsz && Alloced(old(m.S()), m.S(), root, Pages(oldsz), k, Zeros(UserPerm(xperm)))
              && Granted(m.S(), root, Pages(oldsz), k)
              && (NoSharing(old(m.S()), root) ==> GrownBytes(old(m.S()), m.S(), root, Pages(oldsz), k))
    ensures panic ==> newsz >= oldsz && Pages(oldsz) + k < Pages(newsz) && Blocked(old(m.mem), root, Pages(oldsz) + k)
    ensures newsz >= oldsz && !panic && Pages(oldsz) + k < Pages(newsz) ==>
              && sz == 0 && Restored(old(m.S()), m.S()) && |old(m.free)| < 3 * (k + 1)
              && (Blocked(old(m.mem), root, Pages(oldsz) + k) ==> |old(m.free)| <= 3 * k)
    ensures newsz == 0 ==> m.S() == old(m.S())
  {
    hide Good, Lookup, Alloced, Unmapped, Restored, Unmapping, AllLeaves, MayUnmap, Blocked, UserPerm, Granted,
      NoSharing, GrownBytes;
    ghost var vm0, fill := m.S(), Zeros(UserPerm(xperm));
    UserLeaf(0, xperm);
    panic, k := false, 0;
    if newsz < oldsz {
      return oldsz, false, 0;
    }
    ghost var p0 := Pages(oldsz);
    AllocedNone(vm0, root, p0, fill);
    UnmappedNone(vm0.mem, root, p0);
    var from := Pages(oldsz) * PGSIZE;
    var a := from;
    while a < newsz
      invariant a == (p0 + k) * PGSIZE && p0 + k <= Pages(newsz)
      invariant Alloced(vm0, m.S(), root, p0, k, fill) && (k == 0 ==> m.S() == vm0)
      invariant Unmapped(vm0.mem, root, p0, k)
      invariant |vm0.free| <= |m.free| + 3 * k
      decreases newsz - a
    {
      ghost var vm1 := m.S();
      AllocedGood(vm0, vm1, root, p0, k, fill);
      var ok;
      ok, panic := AllocOne(m, vm0, root, p0, k, a, UserPerm(xperm), ZeroPage(), fill);
      if panic {
        return 0, true, k;
      }
      if !ok {
        ghost var vm2 := m.S();
        UnmappedEnd(vm0.mem, root, p0, k);
        RollbackReady(vm0, vm2, root, p0, k, fill);
        UnmapStart(vm2, root, p0, true);
        sz, panic := Uvmdealloc(m, root, a, from);
        RolledBack(vm0, vm2, m.S(), root, p0, k, k, fill);
        return 0, panic, k;
      }
      UnmappedMore(vm0.mem, root, p0, k);
      a := a + PGSIZE;
      k := k + 1;
    }
    UnmappedEnd(vm0.mem, root, p0, k);
    NewIsGranted(vm0, m.S(), root, p0, k, xperm);
    return newsz, false, k;
  }

  lemma UnmappedEnd(mem: seq<Page>, root: nat, vpn: nat, k: nat)
    requires Unmapped(mem, root, vpn, k)
    ensures k > 0 ==> vpn + k <= MAXVPN
  {
    if k > 0 {
      var v: nat := vpn + k - 1;
      assert !IsValid(Lookup(mem, root, v));
    }
  }

  /** Copy the first sz bytes of the user memory under src into the empty tree under root: equal
      pages with equal flags, each of its own. On failure, for want of free pages, nothing of it
      stays but tables. */
  method Uvmcopy(m: Machine, src: nat, root: nat, sz: nat) returns (r: int, panic: bool)
    requires Good(m.S(), {}) && IsRoot(m.S(), root) && sz <= MAXVA
    requires GoodFill(m.S(), root, CopyOf(src), 0, Pages(sz)) && Unmapped(m.mem, root, 0, Pages(sz))
    modifies m
    ensures !panic && (r == 0 || r == -1)
    ensures r == 0 ==> Alloced(old(m.S()), m.S(), root, 0, Pages(sz), CopyOf(src))
    ensures r == 0 ==> forall v: nat :: v < Pages(sz) ==> Twin(old(m.S()), m.S(), src, root, v)
    ensures r == -1 ==> Restored(old(m.S()), m.S()) && |old(m.free)| < 3 * Pages(sz)
  {
    hide Good, Lookup, Alloced, Unmapped, Restored, Unmapping, AllLeaves, MayUnmap, GoodFill, IsLeaf, Twin;
    ghost var vm0, fill := m.S(), CopyOf(src);
    AllocedNone(vm0, root, 0, fill);
    var i := 0;
    ghost var k := 0;
    while i < sz
      invariant i == k * PGSIZE && k <= Pages(sz)
      invariant Alloced(vm0, m.S(), root, 0, k, fill)
      invariant |vm0.free| <= |m.free| + 3 * k
      decreases sz - i
    {
      ghost var vm1 := m.S();
      AllocedGood(vm0, vm1, root, 0, k, fill);
      CopySource(vm0, vm1, src, root, Pages(sz), k);
      var t, j;
      t, j, panic := m.Walk(src, i, false);
      if panic || t == 0 {
        assert false;
        return -1, true;
      }
      var pte := m.mem[t].e[j];
      if !IsValid(pte) {
        assert false;
        return -1, true;
      }
      UnmappedAt(vm0.mem, root, 0, Pages(sz), k);
      var ok;
      ok, panic := AllocOne(m, vm0, root, 0, k, i, pte.flags, m.mem[pte.ppn], fill);
      if !ok {
        ghost var vm2 := m.S();
        RollbackReady(vm0, vm2, root, 0, k, fill);
        panic := m.Uvmunmap(root, 0, i / PGSIZE, true);
        RolledBack(vm0, vm2, m.S(), root, 0, Pages(sz), k, fill);
        return -1, panic;
      }
      i := i + PGSIZE;
      k := k + 1;
    }
    CopiesAreTwins(vm0, m.S(), src, root, Pages(sz));
    return 0, false;
  }

  /** The source page is still there, with the bytes and flags it had at the start. */
  lemma CopySource(a: Vm, b: Vm, src: nat, root: nat, n: nat, k: nat)
    requires Good(a, {}) && Alloced(a, b, root, 0, k, CopyOf(src)) && GoodFill(a, root, CopyOf(src), 0, n) && k < n
    ensures IsRoot(b, src) && k < MAXVPN
    ensures Entry(b.mem, TableAt(b.mem, src, 0, k), Px(0, k)) == Lookup(a.mem, src, k)
    ensures IsValid(Lookup(a.mem, src, k)) && TableAt(b.mem, src, 0, k) != 0
    ensures Lookup(a.mem, src, k).ppn < |b.mem| && b.mem[Lookup(a.mem, src, k).ppn] == PageOf(a, CopyOf(src), k)
    ensures WithValid(Lookup(a.mem, src, k).flags) == Lookup(a.mem, src, k).flags == FlagsOf(a, CopyOf(src), k) != PTE_V
  {
    hide TableAt, Px;
    FreeIsFree(a);
    assert IsLeaf(Lookup(a.mem, src, k)) && Owned(a, src, k);
    assert Lookup(b.mem, src, k) == Lookup(a.mem, src, k);
    var p := Lookup(a.mem, src, k).ppn;
    assert Up(a, p) && Up(b, p);
    ValidHasTable(b.mem, src, k);
  }

  lemma AllocedNone(vm: Vm, root: nat, vpn: nat, fill: Fill)
    requires Good(vm, {})
    ensures Alloced(vm, vm, root, vpn, 0, fill)
  {
    hide Lookup, Good;
  }

  lemma AllocedGood(a: Vm, b: Vm, root: nat, vpn: nat, k: nat, fill: Fill)
    requires Alloced(a, b, root, vpn, k, fill)
    ensures Good(b, {}) && (IsRoot(a, root) ==> IsRoot(b, root))
  {
  }

  /** The next page translates as at the start. */
  lemma NextSame(a: Vm, b: Vm, root: nat, vpn: nat, k: nat, fill: Fill)
    requires Alloced(a, b, root, vpn, k, fill) && IsRoot(a, root)
    ensures vpn + k < MAXVPN ==> Lookup(b.mem, root, vpn + k) == Lookup(a.mem, root, vpn + k)
  {
    hide Lookup, Good;
  }

  lemma UnmappedAt(mem: seq<Page>, root: nat, vpn: nat, n: nat, k: nat)
    requires Unmapped(mem, root, vpn, n) && k < n
    ensures !Blocked(mem, root, vpn + k)
  {
    hide Lookup;
    assert !IsValid(Lookup(mem, root, vpn + k));
  }

  lemma TakeUnmapped(a: Vm, b: Vm, root: nat, v: nat)
    requires Good(a, {}) && IsRoot(a, root) && SameTables(a, b.mem) && b.lv == a.lv
    ensures Lookup(b.mem, root, v) == Lookup(a.mem, root, v) && IsRoot(b, root)
  {
    LookupElsewhere(a, b.mem, root, 0, v);
  }

  lemma {:induction false} PagesAtSame(mem: seq<Page>, mem': seq<Page>, root: nat, vpn: nat, n: nat)
    requires forall v: nat :: vpn <= v < vpn + n ==> Lookup(mem', root, v) == Lookup(mem, root, v)
    ensures PagesAt(mem', root, vpn, n) == PagesAt(mem, root, vpn, n)
    decreases n
  {
    hide Lookup;
    if n > 0 {
      PagesAtSame(mem, mem', root, vpn, n - 1);
    }
  }

  /** What kalloc and mappages left of the translations and tables of b. */
  ghost predicate Between(b: Vm, d: Vm, root: nat, v: nat, page: nat, flags: nat, n: nat) {
    && (forall r: nat, w: nat {:trigger Lookup(d.mem, r, w)} {:trigger Lookup(b.mem, r, w)} ::
        IsRoot(b, r) && w < MAXVPN ==>
          Lookup(d.mem, r, w) == if r == root && w == v && n == 1 then Pte(page, flags) else Lookup(b.mem, r, w))
    && SameLeafTables(b, d)
  }

  lemma BetweenHolds(b: Vm, c: Vm, d: Vm, root: nat, v: nat, page: nat, flags: nat, n: nat)
    requires Good(b, {}) && SameTables(b, c.mem) && c.lv == b.lv && Mapped(c, d, root, v, n, page, flags) && n <= 1
    ensures Between(b, d, root, v, page, flags, n)
  {
    hide Lookup, TableAt, Good;
    forall r: nat, w: nat | IsRoot(b, r)
      ensures w < MAXVPN ==>
                Lookup(d.mem, r, w) == if r == root && w == v && n == 1 then Pte(page, flags) else Lookup(b.mem, r, w)
      ensures TableAt(b.mem, r, 0, w) != 0 ==> TableAt(d.mem, r, 0, w) == TableAt(b.mem, r, 0, w)
    {
      LookupElsewhere(b, c.mem, r, 0, w);
      assert IsRoot(c, r);
    }
  }

  /** kalloc gave page, and mappages made d out of the result c. */
  ghost predicate Placed(a: Vm, b: Vm, c: Vm, d: Vm, root: nat, vpn: nat, k: nat, page: nat, fill: Fill, n: nat) {
    && Alloced(a, b, root, vpn, k, fill) && IsRoot(a, root) && vpn + k < MAXVPN && FlagsOf(a, fill, vpn + k) != PTE_V
    && b.free != [] && b.free[0] == page < |b.mem| && c == TakePage(b, PageOf(a, fill, vpn + k))
    && Good(c, {}) && Loose(c, page) && SameTables(b, c.mem)
    && Good(d, {}) && Grew(c, d) && n <= 1 && Mapped(c, d, root, vpn + k, n, page, FlagsOf(a, fill, vpn + k))
    && !IsValid(Lookup(b.mem, root, vpn + k))
  }

  lemma PlacedPage(a: Vm, b: Vm, c: Vm, d: Vm, root: nat, vpn: nat, k: nat, page: nat, fill: Fill, n: nat)
    requires Placed(a, b, c, d, root, vpn, k, page, fill, n)
    ensures Loose(d, page) && d.mem[page] == PageOf(a, fill, vpn + k)
    ensures Between(b, d, root, vpn + k, page, FlagsOf(a, fill, vpn + k), n)
    ensures forall x :: x in b.free <==> x == page || x in c.free
    ensures forall x: nat :: x < |b.mem| && x !in d.lv && x !in b.free ==> d.mem[x] == b.mem[x]
  {
    hide Lookup, TableAt, Alloced, Good, Mapped, SameTables, FlagsOf, PageOf, IsRoot, SameLeafTables, IsValid;
    AllocedGood(a, b, root, vpn, k, fill);
    assert b.free == [page] + c.free;
    BetweenHolds(b, c, d, root, vpn + k, page, FlagsOf(a, fill, vpn + k), n);
  }

  lemma PlacedOwns(a: Vm, b: Vm, c: Vm, d: Vm, root: nat, vpn: nat, k: nat, page: nat, fill: Fill, n: nat)
    requires Placed(a, b, c, d, root, vpn, k, page, fill, n)
    ensures AllocMaps(a, b, root, vpn, k, fill) && IsRoot(a, root) && IsRoot(b, root) && vpn + k < MAXVPN
    ensures |d.mem| == |b.mem|
    ensures forall x :: x in b.own ==> x in d.own && d.own[x] == b.own[x] && x != page && x !in b.free
    ensures forall x :: x in b.own && x !in b.lv ==> x !in d.lv
  {
    hide Lookup, TableAt, Mapped, NewPage;
    FreeIsFree(b);
  }

  /** Pages placed before are where they were. */
  lemma OldPages(a: Vm, b: Vm, c: Vm, d: Vm, root: nat, vpn: nat, k: nat, page: nat, fill: Fill, n: nat, v: nat)
    requires Placed(a, b, c, d, root, vpn, k, page, fill, n) && vpn <= v < vpn + k
    ensures NewPage(a, d, root, v, fill) && Lookup(d.mem, root, v) == Lookup(b.mem, root, v)
    ensures Lookup(d.mem, root, v).ppn in b.own && Lookup(d.mem, root, v).ppn != page
  {
    hide Lookup, TableAt, Px, Placed;
    PlacedPage(a, b, c, d, root, vpn, k, page, fill, n);
    PlacedOwns(a, b, c, d, root, vpn, k, page, fill, n);
    assert NewPage(a, b, root, v, fill) && IsValid(Lookup(b.mem, root, v));
    ValidHasTable(b.mem, root, v);
  }

  lemma ValidHasTable(mem: seq<Page>, root: nat, v: nat)
    ensures IsValid(Lookup(mem, root, v)) ==> TableAt(mem, root, 0, v) != 0
  {
  }

  lemma AllocWorks(a: Vm, b: Vm, c: Vm, d: Vm, root: nat, vpn: nat, k: nat, page: nat, fill: Fill)
    requires Placed(a, b, c, d, root, vpn, k, page, fill, 1)
    ensures Alloced(a, Claim(d, page, TableAt(d.mem, root, 0, vpn + k), Px(0, vpn + k)), root, vpn, k + 1, fill)
  {
    hide Lookup, TableAt, Px, Placed, Good, AllocOwns, AllocMaps, Between;
    var t, i := TableAt(d.mem, root, 0, vpn + k), Px(0, vpn + k);
    var e := Claim(d, page, t, i);
    PlacedPage(a, b, c, d, root, vpn, k, page, fill, 1);
    PlacedRoots(a, b, c, d, root, vpn, k, page, fill, 1);
    BetweenAt(b, d, root, vpn + k, page, FlagsOf(a, fill, vpn + k));
    NewLeaf(d, root, vpn + k, page, FlagsOf(a, fill, vpn + k));
    ClaimGood(d, page, t, i);
    AllocWorksMaps(a, b, c, d, root, vpn, k, page, fill);
    forall v: nat | vpn <= v < vpn + k ensures Lookup(d.mem, root, v) == Lookup(b.mem, root, v) {
      OldPages(a, b, c, d, root, vpn, k, page, fill, 1, v);
    }
    PagesAtSame(b.mem, d.mem, root, vpn, k);
    assert PagesAt(d.mem, root, vpn, k + 1) == [page] + PagesAt(b.mem, root, vpn, k);
    PlacedAccounts(a, b, c, d, root, vpn, k, page, fill, 1);
    AllocWorksOwns(a, d, page, t, i, PagesAt(b.mem, root, vpn, k));
  }

  lemma BetweenAt(b: Vm, d: Vm, root: nat, v: nat, page: nat, flags: nat)
    requires Between(b, d, root, v, page, flags, 1) && IsRoot(b, root) && v < MAXVPN
    ensures Lookup(d.mem, root, v) == Pte(page, flags)
  {
    hide Lookup;
  }

  lemma AllocWorksMaps(a: Vm, b: Vm, c: Vm, d: Vm, root: nat, vpn: nat, k: nat, page: nat, fill: Fill)
    requires Placed(a, b, c, d, root, vpn, k, page, fill, 1)
    ensures AllocMaps(a, Claim(d, page, TableAt(d.mem, root, 0, vpn + k), Px(0, vpn + k)), root, vpn, k + 1, fill)
  {
    hide Lookup, TableAt, Px, Placed, Good, AllocOwns;
    var e := Claim(d, page, TableAt(d.mem, root, 0, vpn + k), Px(0, vpn + k));
    PlacedPage(a, b, c, d, root, vpn, k, page, fill, 1);
    PlacedRoots(a, b, c, d, root, vpn, k, page, fill, 1);
    BetweenAt(b, d, root, vpn + k, page, FlagsOf(a, fill, vpn + k));
    forall v: nat | vpn <= v < vpn + k ensures NewPage(a, e, root, v, fill) {
      OldPages(a, b, c, d, root, vpn, k, page, fill, 1, v);
    }
  }

  lemma AllocWorksOwns(a: Vm, d: Vm, page: nat, t: nat, i: nat, got: seq<nat>)
    requires |d.mem| == |a.mem|
    requires forall t :: t in a.lv ==> t in d.lv && d.lv[t] == a.lv[t]
    requires forall x :: x in a.own ==> x in d.own && d.own[x] == a.own[x]
    requires forall x :: x in d.own && x !in a.own ==> x in got || (x in d.lv && x !in a.lv)
    requires forall x :: x in d.lv && x !in a.lv ==> x in a.free
    requires forall x :: x in a.free <==> x == page || x in d.free || x in got || (x in d.lv && x !in a.lv)
    requires forall x: nat :: x < |a.mem| && x !in d.lv && x !in a.free ==> d.mem[x] == a.mem[x]
    requires page !in d.own
    ensures AllocOwns(a, Claim(d, page, t, i), [page] + got)
  {
    assert forall x :: x in [page] + got <==> x == page || x in got;
  }

  lemma PlacedRoots(a: Vm, b: Vm, c: Vm, d: Vm, root: nat, vpn: nat, k: nat, page: nat, fill: Fill, n: nat)
    requires Placed(a, b, c, d, root, vpn, k, page, fill, n)
    ensures forall r :: IsRoot(a, r) ==> IsRoot(b, r) && IsRoot(d, r)
    ensures Good(d, {}) && IsRoot(a, root) && vpn + k < MAXVPN && AllocMaps(a, b, root, vpn, k, fill)
    ensures FlagsOf(a, fill, vpn + k) != PTE_V
  {
    hide Lookup, TableAt, Good;
  }

  lemma NewLeaf(d: Vm, root: nat, v: nat, page: nat, flags: nat)
    requires Good(d, {}) && IsRoot(d, root) && Lookup(d.mem, root, v) == Pte(page, flags) && flags % 2 == 1
    ensures TableAt(d.mem, root, 0, v) in d.lv && d.lv[TableAt(d.mem, root, 0, v)] == 0
    ensures Entry(d.mem, TableAt(d.mem, root, 0, v), Px(0, v)) == Pte(page, flags)
  {
    ValidHasTable(d.mem, root, v);
    TableLevels(d, root, 0, v);
  }

  /** Who has which page after one round. */
  lemma PlacedAccounts(a: Vm, b: Vm, c: Vm, d: Vm, root: nat, vpn: nat, k: nat, page: nat, fill: Fill, n: nat)
    requires Placed(a, b, c, d, root, vpn, k, page, fill, n)
    ensures |d.mem| == |a.mem|
    ensures forall t :: t in a.lv ==> t in d.lv && d.lv[t] == a.lv[t]
    ensures forall x :: x in a.own ==> x in d.own && d.own[x] == a.own[x]
    ensures forall x :: x in d.own && x !in a.own ==> x in PagesAt(b.mem, root, vpn, k) || (x in d.lv && x !in a.lv)
    ensures forall x :: x in d.lv && x !in a.lv ==> x in a.free
    ensures forall x :: x in a.free <==>
                        x == page || x in d.free || x in PagesAt(b.mem, root, vpn, k) || (x in d.lv && x !in a.lv)
    ensures forall x: nat :: x < |a.mem| && x !in d.lv && x !in a.free ==> d.mem[x] == a.mem[x]
  {
    hide Lookup, TableAt, Good, Mapped, PagesAt;
    PlacedPage(a, b, c, d, root, vpn, k, page, fill, n);
  }

  lemma AllocFails(a: Vm, b: Vm, c: Vm, d: Vm, root: nat, vpn: nat, k: nat, page: nat, fill: Fill)
    requires Placed(a, b, c, d, root, vpn, k, page, fill, 0)
    ensures 0 < page < |d.mem| && Alloced(a, GivePage(d, page, Junk()), root, vpn, k, fill)
  {
    hide Lookup, TableAt, Px, Placed, Good, AllocOwns, AllocMaps;
    PlacedPage(a, b, c, d, root, vpn, k, page, fill, 0);
    var e := GivePage(d, page, Junk());
    PlacedRoots(a, b, c, d, root, vpn, k, page, fill, 0);
    GivePageGood(d, page, Junk(), {});
    AllocFailsMaps(a, b, c, d, root, vpn, k, page, fill);
    forall v: nat | vpn <= v < vpn + k ensures Lookup(e.mem, root, v) == Lookup(b.mem, root, v) {
      LookupElsewhere(d, e.mem, root, 0, v);
      OldPages(a, b, c, d, root, vpn, k, page, fill, 0, v);
    }
    PagesAtSame(b.mem, e.mem, root, vpn, k);
    PlacedAccounts(a, b, c, d, root, vpn, k, page, fill, 0);
    AllocFailsOwns(a, d, page, PagesAt(b.mem, root, vpn, k));
  }

  lemma AllocFailsMaps(a: Vm, b: Vm, c: Vm, d: Vm, root: nat, vpn: nat, k: nat, page: nat, fill: Fill)
    requires Placed(a, b, c, d, root, vpn, k, page, fill, 0)
    ensures 0 < page < |d.mem| && AllocMaps(a, GivePage(d, page, Junk()), root, vpn, k, fill)
  {
    hide Lookup, TableAt, Px, Placed, Good, AllocOwns;
    PlacedPage(a, b, c, d, root, vpn, k, page, fill, 0);
    var e := GivePage(d, page, Junk());
    PlacedRoots(a, b, c, d, root, vpn, k, page, fill, 0);
    GivePageGood(d, page, Junk(), {});
    forall r: nat, v: nat | IsRoot(a, r)
      ensures Lookup(e.mem, r, v) == Lookup(d.mem, r, v) && TableAt(e.mem, r, 0, v) == TableAt(d.mem, r, 0, v)
    {
      LookupElsewhere(d, e.mem, r, 0, v);
    }
    forall v: nat | vpn <= v < vpn + k ensures NewPage(a, e, root, v, fill) {
      OldPages(a, b, c, d, root, vpn, k, page, fill, 0, v);
    }
  }

  lemma AllocFailsOwns(a: Vm, d: Vm, page: nat, got: seq<nat>)
    requires |d.mem| == |a.mem| && page < |d.mem| && page !in d.lv
    requires forall t :: t in a.lv ==> t in d.lv && d.lv[t] == a.lv[t]
    requires forall x :: x in a.own ==> x in d.own && d.own[x] == a.own[x]
    requires forall x :: x in d.own && x !in a.own ==> x in got || (x in d.lv && x !in a.lv)
    requires forall x :: x in d.lv && x !in a.lv ==> x in a.free
    requires forall x :: x in a.free <==> x == page || x in d.free || x in got || (x in d.lv && x !in a.lv)
    requires forall x: nat :: x < |a.mem| && x !in d.lv && x !in a.free ==> d.mem[x] == a.mem[x]
    ensures AllocOwns(a, GivePage(d, page, Junk()), got)
  {
  }

  /** The pages to take back are mapped leaves that own their pages. */
  lemma RollbackReady(a: Vm, b: Vm, root: nat, vpn: nat, k: nat, fill: Fill)
    requires Alloced(a, b, root, vpn, k, fill) && IsRoot(a, root) && (k > 0 ==> vpn + k <= MAXVPN)
    ensures AllLeaves(b.mem, root, vpn, k)
    ensures forall v: nat :: vpn <= v < vpn + k ==> MayUnmap(b, root, v, true)
    ensures Good(b, {}) && IsRoot(b, root)
  {
    hide Lookup, TableAt, Px;
    forall v: nat | vpn <= v < vpn + k ensures IsLeaf(Lookup(b.mem, root, v)) && MayUnmap(b, root, v, true) {
      assert NewPage(a, b, root, v, fill) && IsValid(Lookup(b.mem, root, v));
    }
  }

  lemma RolledBack(a: Vm, b: Vm, c: Vm, root: nat, vpn: nat, n: nat, k: nat, fill: Fill)
    requires Good(a, {}) && Alloced(a, b, root, vpn, k, fill) && IsRoot(a, root) && (k > 0 ==> vpn + k <= MAXVPN)
    requires Unmapped(a.mem, root, vpn, n) && k <= n
    requires Unmapping(b, c, root, vpn, k, true)
    ensures Restored(a, c)
  {
    hide Lookup, TableAt, Px, PagesAt, Good;
    FreeIsFree(a);
    forall r: nat, v: nat | IsRoot(a, r) && v < MAXVPN
      ensures SameTranslation(Lookup(a.mem, r, v), Lookup(c.mem, r, v))
    {
      assert IsRoot(b, r);
    }
  }

  lemma FreeIsFree(vm: Vm)
    requires Good(vm, {})
    ensures forall x :: x in vm.free ==> x !in vm.own && x !in vm.lv
  {
    forall x | x in vm.free ensures x !in vm.own && x !in vm.lv {
      var k: nat :| k < |vm.free| && vm.free[k] == x;
    }
  }

  // ----- copying between the kernel and user memory -----

  /** The byte at a user address: 0 if its page is not mapped for users. */
  function UserByte(mem: seq<Page>, root: nat, va: nat): Byte {
    var e := Lookup(mem, root, va / PGSIZE);
    if IsUserPage(mem, root, va / PGSIZE) && va % PGSIZE < |mem[e.ppn].b| then mem[e.ppn].b[va % PGSIZE] else 0
  }

  /** A page that walkaddr accepts, and whose frame holds bytes. */
  predicate IsUserPage(mem: seq<Page>, root: nat, v: nat) {
    v < MAXVPN && Translates(mem, root, v)
    && 0 < Lookup(mem, root, v).ppn < |mem| && mem[Lookup(mem, root, v).ppn].Bytes?
        && |mem[Lookup(mem, root, v).ppn].b| == PGSIZE
  }

  predicate Translates(mem: seq<Page>, root: nat, v: nat) {
    IsValid(Lookup(mem, root, v)) && IsUser(Lookup(mem, root, v)) && Lookup(mem, root, v).ppn != 0
  }

  /** The frame number of a user page, 0 if va is not mapped for users. */
  method Walkaddr(m: Machine, root: nat, va: nat) returns (ppn: nat)
    requires Good(m.S(), {}) && IsRoot(m.S(), root)
    modifies m
    ensures m.S() == old(m.S())
    ensures ppn != 0 <==> va < MAXVA && Translates(m.mem, root, va / PGSIZE)
    ensures ppn != 0 ==> ppn == Lookup(m.mem, root, va / PGSIZE).ppn
  {
    if va >= MAXVA {
      return 0;
    }
    var t, i, panic;
    t, i, panic := m.Walk(root, va, false);
    if t == 0 {
      return 0;
    }
    var pte := m.mem[t].e[i];
    if !IsValid(pte) {
      return 0;
    }
    if !IsUser(pte) {
      return 0;
    }
    return pte.ppn;
  }

  /** Copy len user bytes from srcva into the kernel: exactly those bytes, or -1 if some page of
      the range is not mapped for users. */
  method Copyin(m: Machine, root: nat, srcva: nat, len: nat) returns (r: int, dst: seq<Byte>)
    requires Good(m.S(), {}) && IsRoot(m.S(), root)
    requires forall v: nat :: v < MAXVPN && Translates(m.mem, root, v) ==> IsUserPage(m.mem, root, v)
    modifies m
    ensures m.S() == old(m.S()) && (r == 0 || r == -1)
    ensures r == 0 <==> forall b: nat :: srcva <= b < srcva + len ==> IsUserPage(m.mem, root, b / PGSIZE)
    ensures r == 0 ==> |dst| == len && forall b: nat :: srcva <= b < srcva + len ==>
              dst[b - srcva] == UserByte(m.mem, root, b)
  {
    hide Good, Lookup, Translates, IsUserPage;
    ghost var vm := m.S();
    var va, left := srcva, len;
    dst := [];
    while left > 0
      invariant m.S() == vm && 0 <= left <= len && va == srcva + (len - left) && |dst| == len - left
      invariant forall b: nat :: srcva <= b < va ==>
                  IsUserPage(vm.mem, root, b / PGSIZE) && dst[b - srcva] == UserByte(vm.mem, root, b)
    {
      var va0 := va / PGSIZE * PGSIZE;
      var pa0 := Walkaddr(m, root, va0);
      if pa0 == 0 {
        NotMapped(vm.mem, root, va);
        return -1, [];
      }
      MappedPage(vm.mem, root, va / PGSIZE);
      var n := PGSIZE - (va - va0);
      if n > left {
        n := left;
      }
      SamePage(vm.mem, root, va, n);
      dst := dst + m.mem[pa0].b[va - va0..va - va0 + n];
      left := left - n;
      va := va + n;
    }
    r := 0;
  }

  lemma NotMapped(mem: seq<Page>, root: nat, va: nat)
    requires !(va / PGSIZE * PGSIZE < MAXVA && Translates(mem, root, va / PGSIZE))
    ensures !IsUserPage(mem, root, va / PGSIZE)
  {
    hide Lookup, Translates;
  }

  lemma MappedPage(mem: seq<Page>, root: nat, v: nat)
    ensures IsUserPage(mem, root, v) ==>
              Lookup(mem, root, v).ppn < |mem| && mem[Lookup(mem, root, v).ppn].Bytes?
                  && |mem[Lookup(mem, root, v).ppn].b| == PGSIZE
  {
    hide Lookup, Translates;
  }

  lemma SamePage(mem: seq<Page>, root: nat, va: nat, n: nat)
    requires va % PGSIZE + n <= PGSIZE && IsUserPage(mem, root, va / PGSIZE)
    ensures Lookup(mem, root, va / PGSIZE).ppn < |mem| && mem[Lookup(mem, root, va / PGSIZE).ppn].Bytes?
            && |mem[Lookup(mem, root, va / PGSIZE).ppn].b| == PGSIZE
    ensures forall b: nat :: va <= b < va + n ==>
              b / PGSIZE == va / PGSIZE
              && UserByte(mem, root, b) == mem[Lookup(mem, root, va / PGSIZE).ppn].b[va % PGSIZE + (b - va)]
  {
    hide Lookup, Translates;
    forall b: nat | va <= b < va + n
      ensures b / PGSIZE == va / PGSIZE && b % PGSIZE == va % PGSIZE + (b - va)
    {
    }
  }

  /** No frame serves two user pages, and none is a table or free: so it is for pages that
      uvmalloc and uvmcopy have placed. */
  ghost predicate NoSharing(vm: Vm, root: nat) {
    && (forall v: nat :: v < MAXVPN && Translates(vm.mem, root, v) ==>
          IsUserPage(vm.mem, root, v) && Lookup(vm.mem, root, v).ppn !in vm.lv
              && Lookup(vm.mem, root, v).ppn !in vm.free)
    && (forall v: nat, w: nat ::
        v < MAXVPN && w < MAXVPN && v != w && Translates(vm.mem, root, v) && Translates(vm.mem, root, w) ==>
          Lookup(vm.mem, root, v).ppn != Lookup(vm.mem, root, w).ppn)
  }

  // ----- what a process sees of uvmalloc and uvmcopy -----

  /** So a copyout into pages that uvmalloc has just added returns 0. */
  lemma GrantedAddress(b: Vm, root: nat, vpn: nat, k: nat, va: nat)
    requires Granted(b, root, vpn, k) && vpn * PGSIZE <= va < (vpn + k) * PGSIZE
    ensures UserAddress(b.mem, root, va)
  {
    hide Translates, Lookup;
    assert vpn <= va / PGSIZE < vpn + k;
  }

  /** The k pages from vpn on can be read in user mode. */
  ghost predicate Granted(b: Vm, root: nat, vpn: nat, k: nat) {
    forall v: nat :: vpn <= v < vpn + k ==>
      v < MAXVPN && Translates(b.mem, root, v) && HasAccess(Lookup(b.mem, root, v))
  }

  /** They read as zeros, everything else as before, and no frame is shared. */
  ghost predicate GrownBytes(a: Vm, b: Vm, root: nat, vpn: nat, k: nat) {
    && NoSharing(b, root)
    && forall va: nat :: va < MAXVA ==>
         UserByte(b.mem, root, va) == if vpn <= va / PGSIZE < vpn + k then 0 else UserByte(a.mem, root, va)
  }

  /** Page v of the child has the flags and the bytes that page v of the parent had, and still has, in
      another frame. */
  predicate Twin(a: Vm, b: Vm, src: nat, root: nat, v: nat) {
    var d, e := Lookup(a.mem, src, v), Lookup(b.mem, root, v);
    && Lookup(b.mem, src, v) == d && e.flags == d.flags && e.ppn != d.ppn
    && 0 < d.ppn < |a.mem| == |b.mem| && 0 < e.ppn < |b.mem|
    && b.mem[e.ppn] == a.mem[d.ppn] == b.mem[d.ppn]
  }

  lemma NewPageIs(a: Vm, b: Vm, root: nat, vpn: nat, k: nat, fill: Fill, v: nat)
    requires Good(a, {}) && IsRoot(a, root) && Alloced(a, b, root, vpn, k, fill) && vpn <= v < vpn + k && v < MAXVPN
    ensures var e := Lookup(b.mem, root, v);
            && e.flags == FlagsOf(a, fill, v) && IsLeaf(e) && 0 < e.ppn < |b.mem| == |a.mem|
            && e.ppn in a.free && e.ppn !in b.free && e.ppn !in b.lv && b.mem[e.ppn] == PageOf(a, fill, v)
            && e.ppn in b.own && b.own[e.ppn] == Slot(TableAt(b.mem, root, 0, v), Px(0, v))
  {
    hide Lookup, TableAt, Px;
    assert NewPage(a, b, root, v, fill);
    FreeIsFree(b);
    assert Up(b, Lookup(b.mem, root, v).ppn);
    PagesAtHas(b.mem, root, vpn, k, Lookup(b.mem, root, v).ppn);
  }

  lemma NewIsGranted(a: Vm, b: Vm, root: nat, vpn: nat, k: nat, xperm: nat)
    requires Good(a, {}) && IsRoot(a, root) && Alloced(a, b, root, vpn, k, Zeros(UserPerm(xperm)))
    requires k > 0 ==> vpn + k <= MAXVPN
    ensures Granted(b, root, vpn, k)
    ensures NoSharing(a, root) ==> GrownBytes(a, b, root, vpn, k)
  {
    hide Good, Lookup, TableAt, Px, Alloced, UserPerm, WithValid, IsUser, HasAccess, NoSharing, GrownBytes;
    forall v: nat | vpn <= v < vpn + k ensures Translates(b.mem, root, v) && HasAccess(Lookup(b.mem, root, v)) {
      NewPageIs(a, b, root, vpn, k, Zeros(UserPerm(xperm)), v);
      UserLeaf(Lookup(b.mem, root, v).ppn, xperm);
    }
    if NoSharing(a, root) {
      StillUnshared(a, b, root, vpn, k, Zeros(UserPerm(xperm)));
      NewBytes(a, b, root, vpn, k, UserPerm(xperm));
    }
  }

  /** The old pages of a tree are where they were, with their bytes. */
  lemma OldPageIs(a: Vm, b: Vm, root: nat, vpn: nat, k: nat, fill: Fill, v: nat)
    requires Good(a, {}) && IsRoot(a, root) && Alloced(a, b, root, vpn, k, fill) && NoSharing(a, root)
    requires v < MAXVPN && !(vpn <= v < vpn + k)
    ensures Lookup(b.mem, root, v) == Lookup(a.mem, root, v)
    ensures Translates(a.mem, root, v) ==>
              var p := Lookup(a.mem, root, v).ppn;
              0 < p < |a.mem| == |b.mem| && p !in b.lv && p !in a.free && p !in b.free && b.mem[p] == a.mem[p]
  {
    hide Lookup, TableAt, Px, Good, Translates, IsUserPage;
    if Translates(a.mem, root, v) {
      FrameOf(a, root, v);
    }
  }

  lemma StillUnshared(a: Vm, b: Vm, root: nat, vpn: nat, k: nat, fill: Fill)
    requires Good(a, {}) && IsRoot(a, root) && Alloced(a, b, root, vpn, k, fill) && NoSharing(a, root)
    requires k > 0 ==> vpn + k <= MAXVPN
    requires forall v: nat :: vpn <= v < vpn + k ==>
               PageOf(a, fill, v).Bytes? && |PageOf(a, fill, v).b| == PGSIZE
    ensures NoSharing(b, root)
  {
    hide Lookup, TableAt, Px, Good, Alloced, PageOf, FlagsOf;
    AllocedGood(a, b, root, vpn, k, fill);
    forall v: nat | v < MAXVPN && Translates(b.mem, root, v)
      ensures IsUserPage(b.mem, root, v) && Lookup(b.mem, root, v).ppn !in b.lv && Lookup(b.mem, root, v).ppn !in b.free
    {
      if vpn <= v < vpn + k {
        NewPageIs(a, b, root, vpn, k, fill, v);
      } else {
        OldPageIs(a, b, root, vpn, k, fill, v);
        assert IsUserPage(a.mem, root, v);
      }
    }
    forall v: nat, w: nat | v < w < MAXVPN && Translates(b.mem, root, v) && Translates(b.mem, root, w)
      ensures Lookup(b.mem, root, v).ppn != Lookup(b.mem, root, w).ppn
    {
      TwoPages(a, b, root, vpn, k, fill, v, w);
    }
  }

  lemma TwoPages(a: Vm, b: Vm, root: nat, vpn: nat, k: nat, fill: Fill, v: nat, w: nat)
    requires Good(a, {}) && IsRoot(a, root) && Alloced(a, b, root, vpn, k, fill) && NoSharing(a, root)
    requires v < w < MAXVPN && Translates(b.mem, root, v) && Translates(b.mem, root, w)
    ensures Lookup(b.mem, root, v).ppn != Lookup(b.mem, root, w).ppn
  {
    hide Lookup, TableAt, Px, Good, Alloced, PageOf, FlagsOf, NoSharing;
    AllocedGood(a, b, root, vpn, k, fill);
    var newV, newW := vpn <= v < vpn + k, vpn <= w < vpn + k;
    if newV {
      NewPageIs(a, b, root, vpn, k, fill, v);
    } else {
      OldPageIs(a, b, root, vpn, k, fill, v);
    }
    if newW {
      NewPageIs(a, b, root, vpn, k, fill, w);
    } else {
      OldPageIs(a, b, root, vpn, k, fill, w);
    }
    if newV && newW {
      ValidHasTable(b.mem, root, v);
      ValidHasTable(b.mem, root, w);
      OneSlot(b, root, v, w);
    } else if !newV && !newW {
      Unshared(a, root, v, w);
    }
  }

  lemma Unshared(a: Vm, root: nat, v: nat, w: nat)
    requires NoSharing(a, root) && v < w < MAXVPN && Translates(a.mem, root, v) && Translates(a.mem, root, w)
    ensures Lookup(a.mem, root, v).ppn != Lookup(a.mem, root, w).ppn
  {
  }

  /** No two addresses of a tree lead to the same slot. */
  lemma OneSlot(b: Vm, root: nat, v: nat, w: nat)
    requires Good(b, {}) && IsRoot(b, root) && v < w < MAXVPN
    requires TableAt(b.mem, root, 0, v) != 0 && TableAt(b.mem, root, 0, w) != 0
    ensures Slot(TableAt(b.mem, root, 0, v), Px(0, v)) != Slot(TableAt(b.mem, root, 0, w), Px(0, w))
  {
    hide TableAt, Px, Good;
    if TableAt(b.mem, root, 0, v) == TableAt(b.mem, root, 0, w) && Px(0, v) == Px(0, w) {
      TableUnique(b, root, v, root, w, 0);
      VpnOfPx(v, w);
    }
  }

  lemma NewBytes(a: Vm, b: Vm, root: nat, vpn: nat, k: nat, perm: nat)
    requires Good(a, {}) && IsRoot(a, root) && Alloced(a, b, root, vpn, k, Zeros(perm))
    requires NoSharing(a, root) && NoSharing(b, root) && (k > 0 ==> vpn + k <= MAXVPN)
    ensures GrownBytes(a, b, root, vpn, k)
  {
    hide Lookup, TableAt, Px, Good, Alloced, NoSharing, WithValid, Translates;
    forall va: nat | va < MAXVA
      ensures UserByte(b.mem, root, va) == if vpn <= va / PGSIZE < vpn + k then 0 else UserByte(a.mem, root, va)
    {
      if vpn <= va / PGSIZE < vpn + k {
        NewPageIs(a, b, root, vpn, k, Zeros(perm), va / PGSIZE);
      } else {
        OldPageIs(a, b, root, vpn, k, Zeros(perm), va / PGSIZE);
        SameTranslates(a, b, root, va / PGSIZE);
      }
    }
  }

  lemma SameTranslates(a: Vm, b: Vm, root: nat, v: nat)
    requires Lookup(b.mem, root, v) == Lookup(a.mem, root, v)
    ensures Translates(b.mem, root, v) <==> Translates(a.mem, root, v)
  {
    hide Lookup;
  }

  lemma CopiesAreTwins(a: Vm, b: Vm, src: nat, root: nat, n: nat)
    requires Good(a, {}) && IsRoot(a, root) && Alloced(a, b, root, 0, n, CopyOf(src)) && n <= MAXVPN
    requires GoodFill(a, root, CopyOf(src), 0, n)
    ensures forall v: nat :: v < n ==> Twin(a, b, src, root, v)
  {
    hide Lookup, TableAt, Px, Good, Alloced, GoodFill;
    forall v: nat | v < n ensures Twin(a, b, src, root, v) {
      NewPageIs(a, b, root, 0, n, CopyOf(src), v);
      SourceIs(a, b, src, root, n, v);
    }
  }

  lemma SourceIs(a: Vm, b: Vm, src: nat, root: nat, n: nat, v: nat)
    requires Good(a, {}) && Alloced(a, b, root, 0, n, CopyOf(src)) && GoodFill(a, root, CopyOf(src), 0, n) && v < n
    ensures var d := Lookup(a.mem, src, v);
            && Lookup(b.mem, src, v) == d && 0 < d.ppn < |a.mem| == |b.mem| && d.ppn !in a.free
            && b.mem[d.ppn] == a.mem[d.ppn] == PageOf(a, CopyOf(src), v) && FlagsOf(a, CopyOf(src), v) == d.flags
  {
    hide TableAt, Px, Lookup;
    FreeIsFree(a);
    assert IsLeaf(Lookup(a.mem, src, v)) && Owned(a, src, v);
    assert Lookup(b.mem, src, v) == Lookup(a.mem, src, v);
    assert Up(a, Lookup(a.mem, src, v).ppn) && Up(b, Lookup(a.mem, src, v).ppn);
  }

  /** n bytes of src stand at dstva, and every other user byte is as before. */
  ghost predicate Copied(a: Vm, b: Vm, root: nat, dstva: nat, src: seq<Byte>, n: nat) {
    && Good(b, {}) && IsRoot(b, root) && NoSharing(b, root) && n <= |src|
    && (forall v: nat :: v < MAXVPN ==> Lookup(b.mem, root, v) == Lookup(a.mem, root, v))
    && (forall va: nat :: va < MAXVA ==>
          UserByte(b.mem, root, va) == if dstva <= va < dstva + n then src[va - dstva] else UserByte(a.mem, root, va))
  }

  /** User mode can use the byte at va. */
  predicate UserAddress(mem: seq<Page>, root: nat, va: nat) {
    va < MAXVA && Translates(mem, root, va / PGSIZE)
  }

  lemma AddressIs(mem: seq<Page>, root: nat, va: nat)
    ensures UserAddress(mem, root, va) <==> va < MAXVA && Translates(mem, root, va / PGSIZE)
  {
  }

  lemma SameAddress(mem: seq<Page>, root: nat, va: nat, k: nat)
    requires UserAddress(mem, root, va) && va % PGSIZE + k <= PGSIZE
    ensures forall b: nat :: va <= b < va + k ==> UserAddress(mem, root, b)
  {
    hide Translates;
    forall b: nat | va <= b < va + k ensures b / PGSIZE == va / PGSIZE {
    }
  }

  /** Copy src to user memory at dstva: all of it, or -1 and the part before the first page that is
      not mapped for users. */
  method Copyout(m: Machine, root: nat, dstva: nat, src: seq<Byte>) returns (r: int, ghost n: nat)
    requires Good(m.S(), {}) && IsRoot(m.S(), root) && NoSharing(m.S(), root)
    modifies m
    ensures Copied(old(m.S()), m.S(), root, dstva, src, n) && (r == 0 || r == -1)
    ensures r == 0 ==> n == |src|
    ensures r == 0 <==> forall b: nat :: dstva <= b < dstva + |src| ==> UserAddress(old(m.mem), root, b)
    ensures r == -1 ==> n < |src| && !UserAddress(old(m.mem), root, dstva + n)
  {
    hide Good, Lookup, Translates, IsUserPage, NoSharing, UserByte, Copied, UserAddress;
    ghost var a := m.S();
    CopiedNone(a, root, dstva, src);
    var va, i := dstva, 0;
    n := 0;
    while i < |src|
      invariant i == n <= |src| && va == dstva + i
      invariant forall b: nat :: dstva <= b < va ==> UserAddress(a.mem, root, b)
      invariant Copied(a, m.S(), root, dstva, src, n)
    {
      ghost var b := m.S();
      CopiedParts(a, b, root, dstva, src, n);
      var va0 := va / PGSIZE * PGSIZE;
      var pa0 := Walkaddr(m, root, va0);
      TranslatesSame(a, b, root, dstva, src, n, va);
      AddressIs(a.mem, root, va);
      if pa0 == 0 {
        return -1, n;
      }
      var k := PGSIZE - (va - va0);
      if k > |src| - i {
        k := |src| - i;
      }
      FrameOf(b, root, va / PGSIZE);
      CopiedMore(a, b, root, dstva, src, n, k, va, pa0);
      SameAddress(a.mem, root, va, k);
      m.mem := m.mem[pa0 := Written(m.mem[pa0].b, va - va0, src[i..i + k])];
      n := n + k;
      i := i + k;
      va := va0 + PGSIZE;
      if i < |src| {
        assert va == dstva + i;
      } else {
        va := dstva + i;
      }
    }
    r := 0;
  }

  function Written(b: seq<Byte>, at: nat, bytes: seq<Byte>): Page
    requires at + |bytes| <= |b|
  {
    Bytes(b[..at] + bytes + b[at + |bytes|..])
  }

  lemma CopiedNone(a: Vm, root: nat, dstva: nat, src: seq<Byte>)
    requires Good(a, {}) && IsRoot(a, root) && NoSharing(a, root)
    ensures Copied(a, a, root, dstva, src, 0)
  {
    hide Good, Lookup, NoSharing, UserByte;
  }

  lemma CopiedParts(a: Vm, b: Vm, root: nat, dstva: nat, src: seq<Byte>, n: nat)
    requires Copied(a, b, root, dstva, src, n)
    ensures Good(b, {}) && IsRoot(b, root) && NoSharing(b, root)
  {
  }

  lemma TranslatesSame(a: Vm, b: Vm, root: nat, dstva: nat, src: seq<Byte>, n: nat, va: nat)
    requires Copied(a, b, root, dstva, src, n)
    ensures va < MAXVA ==> (Translates(b.mem, root, va / PGSIZE) <==> Translates(a.mem, root, va / PGSIZE))
    ensures va < MAXVA <==> va / PGSIZE * PGSIZE < MAXVA
  {
    hide Lookup, NoSharing, UserByte;
    if va < MAXVA {
      assert Lookup(b.mem, root, va / PGSIZE) == Lookup(a.mem, root, va / PGSIZE);
    }
  }

  lemma FrameOf(b: Vm, root: nat, v: nat)
    requires NoSharing(b, root) && v < MAXVPN && Translates(b.mem, root, v)
    ensures 0 < Lookup(b.mem, root, v).ppn < |b.mem| && b.mem[Lookup(b.mem, root, v).ppn].Bytes?
    ensures |b.mem[Lookup(b.mem, root, v).ppn].b| == PGSIZE
    ensures Lookup(b.mem, root, v).ppn !in b.lv && Lookup(b.mem, root, v).ppn !in b.free
  {
    hide Lookup, Translates;
    assert IsUserPage(b.mem, root, v);
  }

  /** k more bytes, in one page. */
  lemma CopiedMore(a: Vm, b: Vm, root: nat, dstva: nat, src: seq<Byte>, n: nat, k: nat, va: nat, p: nat)
    requires Copied(a, b, root, dstva, src, n) && va == dstva + n && n + k <= |src| && va % PGSIZE + k <= PGSIZE
    requires va < MAXVA && Translates(b.mem, root, va / PGSIZE) && p == Lookup(b.mem, root, va / PGSIZE).ppn
    ensures 0 < p < |b.mem| && b.mem[p].Bytes? && |b.mem[p].b| == PGSIZE
    ensures Copied(a, Vm(b.mem[p := Written(b.mem[p].b, va % PGSIZE, src[n..n + k])], b.free, b.lv, b.own), root,
            dstva, src, n + k)
  {
    hide Good, Lookup, Translates, UserByte;
    FrameOf(b, root, va / PGSIZE);
    var page := Written(b.mem[p].b, va % PGSIZE, src[n..n + k]);
    var c := Vm(b.mem[p := page], b.free, b.lv, b.own);
    FrameStored(b, c, p, root);
    forall w: nat | w < MAXVA
      ensures UserByte(c.mem, root, w) == if dstva <= w < dstva + n + k then src[w - dstva]
              else UserByte(a.mem, root, w)
    {
      OneUserByte(b, c, root, va, k, src[n..n + k], p, w);
    }
  }

  /** A store into a frame that is neither a table nor free. */
  lemma FrameStored(b: Vm, c: Vm, p: nat, root: nat)
    requires Good(b, {}) && IsRoot(b, root) && NoSharing(b, root) && p < |b.mem| && p !in b.lv && p !in b.free
    requires b.mem[p].Bytes? && |b.mem[p].b| == PGSIZE
    requires c.free == b.free && c.lv == b.lv && c.own == b.own && |c.mem| == |b.mem| && c.mem[p].Bytes?
    requires |c.mem[p].b| == PGSIZE
    requires forall t: nat :: t < |b.mem| && t != p ==> c.mem[t] == b.mem[t]
    ensures Good(c, {}) && IsRoot(c, root) && NoSharing(c, root)
    ensures forall v: nat :: Lookup(c.mem, root, v) == Lookup(b.mem, root, v)
  {
    hide Lookup;
    StoreGood(b, c, p, {});
    forall v: nat ensures Lookup(c.mem, root, v) == Lookup(b.mem, root, v) {
      LookupElsewhere(b, c.mem, root, 0, v);
    }
    forall v: nat | v < MAXVPN && Translates(c.mem, root, v) ensures IsUserPage(c.mem, root, v) {
      assert IsUserPage(b.mem, root, v);
    }
  }

  lemma OneUserByte(b: Vm, c: Vm, root: nat, va: nat, k: nat, bytes: seq<Byte>, p: nat, w: nat)
    requires NoSharing(b, root) && NoSharing(c, root) && va < MAXVA && w < MAXVA && |bytes| == k
    requires va % PGSIZE + k <= PGSIZE
    requires Translates(b.mem, root, va / PGSIZE) && p == Lookup(b.mem, root, va / PGSIZE).ppn
    requires 0 < p < |b.mem| && b.mem[p].Bytes? && |b.mem[p].b| == PGSIZE
    requires c.mem == b.mem[p := Written(b.mem[p].b, va % PGSIZE, bytes)]
    requires forall v: nat :: Lookup(c.mem, root, v) == Lookup(b.mem, root, v)
    ensures UserByte(c.mem, root, w) == if va <= w < va + k then bytes[w - va] else UserByte(b.mem, root, w)
  {
    hide Lookup;
    assert w / PGSIZE == va / PGSIZE ==> w - va == w % PGSIZE - va % PGSIZE;
    assert va <= w < va + k ==> w / PGSIZE == va / PGSIZE;
    assert Lookup(c.mem, root, w / PGSIZE) == Lookup(b.mem, root, w / PGSIZE);
    if Translates(b.mem, root, w / PGSIZE) {
      assert IsUserPage(b.mem, root, w / PGSIZE) && IsUserPage(c.mem, root, w / PGSIZE);
    }
  }
}
