/** The page allocator of kernel/kalloc.c and the page-table operations of kernel/vm.c. Page
    numbers count from the first page after the kernel image, so 0 is the null pointer and the
    pages of `mem` are the ones kfree accepts. */
module VirtualMemory {
  import opened PageTables

  /** b has all that a had, and tables made of pages that were free in a. */
  ghost predicate Grew(a: Vm, b: Vm) {
    && |b.mem| == |a.mem|
    && (forall t :: t in a.lv ==> t in b.lv && b.lv[t] == a.lv[t])
    && (forall c :: c in a.own ==> c in b.own && b.own[c] == a.own[c])
    && (forall c :: c in b.own && c !in a.own ==> c in b.lv && c !in a.lv)
    && (forall x :: x in b.lv && x !in a.lv ==> x in a.free && b.lv[x] < 2)
    && (forall x :: x in a.free <==> x in b.free || (x in b.lv && x !in a.lv))
    && (forall x: nat :: x < |a.mem| && x !in b.lv && x !in a.free ==> b.mem[x] == a.mem[x])
  }

  /** The leaf tables that were there still are. */
  ghost predicate SameLeafTables(a: Vm, b: Vm) {
    forall r: nat, v: nat {:trigger TableAt(b.mem, r, 0, v)} {:trigger TableAt(a.mem, r, 0, v)} ::
      IsRoot(a, r) && TableAt(a.mem, r, 0, v) != 0 ==> TableAt(b.mem, r, 0, v) == TableAt(a.mem, r, 0, v)
  }

  /** No translation differs. */
  ghost predicate SameMaps(a: Vm, b: Vm) {
    && SameLeafTables(a, b)
    && (forall r :: IsRoot(a, r) ==> IsRoot(b, r))
    && (forall r: nat, v: nat {:trigger Lookup(a.mem, r, v)} {:trigger Lookup(b.mem, r, v)} ::
          IsRoot(a, r) ==> Lookup(b.mem, r, v) == Lookup(a.mem, r, v))
  }

  lemma GrewTrans(a: Vm, b: Vm, c: Vm)
    requires Grew(a, b) && Grew(b, c)
    ensures Grew(a, c)
  {
  }

  lemma AddTableGrew(vm: Vm, t: nat, i: nat)
    requires Good(vm, {}) && vm.free != [] && t in vm.lv && vm.lv[t] > 0 && i < PTES && !IsValid(Entry(vm.mem, t, i))
    ensures vm.free[0] < |vm.mem| && IsTable(vm.mem, t) && t != vm.free[0]
    ensures Grew(vm, AddTable(vm, t, i)) && SameMaps(vm, AddTable(vm, t, i))
  {
    AddTableGood(vm, t, i);
    assert Level(vm, t);
    var vm' := AddTable(vm, t, i);
    forall x ensures x in vm.free <==> x in vm'.free || x == vm.free[0] {
      assert vm.free == [vm.free[0]] + vm.free[1..];
    }
    forall r: nat, v: nat | IsRoot(vm, r)
      ensures Lookup(vm'.mem, r, v) == Lookup(vm.mem, r, v)
      ensures TableAt(vm.mem, r, 0, v) != 0 ==> TableAt(vm'.mem, r, 0, v) == TableAt(vm.mem, r, 0, v)
    {
      AddTableLookup(vm, t, i, r, v);
      AddTableTables(vm, t, i, r, 0, v);
    }
  }

  class Machine {
    var mem: seq<Page>
    var free: seq<nat>
    ghost var lv: map<nat, nat>
    ghost var own: map<nat, Slot>

    ghost function S(): Vm
      reads this
    {
      Vm(mem, free, lv, own)
    }

    /** Pop a page; the caller's first write decides what it holds. */
    method Kalloc(page: Page, ghost holes: set<Slot>) returns (p: nat)
      requires Good(S(), holes)
      modifies this`mem, this`free
      ensures p == 0 <==> old(free) == []
      ensures p == 0 ==> S() == old(S())
      ensures p != 0 ==> p == old(free)[0] < |old(mem)| && S() == TakePage(old(S()), page)
      ensures p != 0 ==> Good(S(), holes) && Loose(S(), p) && SameTables(old(S()), mem)
    {
      if free == [] {
        return 0;
      }
      TakePageGood(S(), page, holes);
      p := free[0];
      free := free[1..];
      mem := mem[p := page];
    }

    /** Push the page at address pa; panics on an address that is not aligned or no page of the
        allocator. */
    method Kfree(pa: nat, junk: Page) returns (panic: bool)
      modifies this`mem, this`free
      ensures panic <==> pa % PGSIZE != 0 || pa < PGSIZE || pa >= |old(mem)| * PGSIZE
      ensures panic ==> S() == old(S())
      ensures !panic ==> S() == GivePage(old(S()), pa / PGSIZE, junk)
    {
      if pa % PGSIZE != 0 || pa < PGSIZE || pa >= |mem| * PGSIZE {
        return true;
      }
      var p := pa / PGSIZE;
      mem := mem[p := junk];
      free := [p] + free;
      return false;
    }

    /** A zeroed page linked below an invalid entry. */
    method NewTable(ghost root: nat, ghost level: nat, ghost vpn: nat, t: nat, i: nat) returns (page: nat)
      requires Good(S(), {}) && IsRoot(S(), root) && 0 < level <= 2 && t == TableAt(mem, root, level, vpn)
      requires i == Px(level, vpn)
      requires free != [] && t != 0 && t in lv && lv[t] == level && !IsValid(Entry(mem, t, i))
      modifies this
      ensures Good(S(), {}) && Grew(old(S()), S()) && SameMaps(old(S()), S()) && IsRoot(S(), root)
      ensures page != 0 && page == TableAt(mem, root, level - 1, vpn) && page in lv && lv[page] == level - 1
      ensures |free| + 1 == |old(free)|
    {
      hide Good, Grew, SameMaps, Px;
      ghost var vm := S();
      AddTableGood(vm, t, i);
      AddTableGrew(vm, t, i);
      AddTableTables(vm, t, i, root, level - 1, vpn);
      NewTableHere(vm, t, i);
      page := free[0];
      free := free[1..];
      mem := mem[page := ZeroTable()];
      mem := SetEntry(mem, t, i, Pte(page, PTE_V));
      lv, own := lv[page := lv[t] - 1], own[page := Slot(t, i)];
      assert S() == AddTable(vm, t, i);
    }

    /** The slot of the leaf entry for va, or table 0; with alloc, missing tables are created, at
        most two. No translation of any tree changes. */
    method Walk(root: nat, va: nat, alloc: bool) returns (t: nat, i: nat, panic: bool)
      requires Good(S(), {}) && IsRoot(S(), root)
      modifies this
      ensures panic <==> va >= MAXVA
      ensures panic || !alloc ==> S() == old(S())
      ensures Good(S(), {}) && Grew(old(S()), S()) && SameMaps(old(S()), S())
      ensures !panic ==> t == TableAt(mem, root, 0, va / PGSIZE) && i == Px(0, va / PGSIZE)
      ensures !panic && t != 0 ==> t in lv && lv[t] == 0 && IsTable(mem, t)
      ensures !panic && alloc && t == 0 ==> free == [] && |old(free)| < 2
      ensures |old(free)| <= |free| + 2
    {
      hide Good, Grew, SameMaps, Px;
      SameRefl(S());
      if va >= MAXVA {
        return 0, 0, true;
      }
      var vpn := va / PGSIZE;
      var table := root;
      var level := 2;
      RootIsTable(S(), root);
      while level > 0
        invariant 0 <= level <= 2 && table in lv && lv[table] == level && table == TableAt(mem, root, level, vpn)
        invariant table != 0
        invariant Good(S(), {}) && Grew(old(S()), S()) && SameMaps(old(S()), S()) && IsRoot(S(), root)
        invariant !alloc ==> S() == old(S())
        invariant |old(free)| <= |free| + (2 - level)
      {
        ghost var vm := S();
        var idx := Px(level, vpn);
        TableHere(vm, table);
        var pte := mem[table].e[idx];
        StepDown(vm, root, level, vpn);
        if IsValid(pte) {
          table := pte.ppn;
        } else {
          if !alloc || free == [] {
            NoWay(vm, root, level, vpn);
            return 0, Px(0, vpn), false;
          }
          table := NewTable(root, level, vpn, table, idx);
          GrewTrans(old(S()), vm, S());
          SameTrans(old(S()), vm, S());
        }
        level := level - 1;
      }
      TableHere(S(), table);
      return table, Px(0, vpn), false;
    }

    method SetPte(t: nat, i: nat, e: Pte)
      requires IsTable(mem, t) && i < PTES
      modifies this`mem
      ensures S() == SetLeaf(old(S()), t, i, e)
    {
      mem := SetEntry(mem, t, i, e);
    }

    /** Map the pages that va .. va + size touches to consecutive physical pages. k of them get
        mapped: all on success; otherwise the code leaves those k, and panics exactly if the next
        one is past the end or mapped already (or size is 0); else memory has run out. */
    method Mappages(root: nat, va: nat, size: nat, pa: nat, perm: nat) returns (r: int, panic: bool, ghost k: nat)
      requires Good(S(), {}) && IsRoot(S(), root)
      modifies this
      ensures Good(S(), {}) && Grew(old(S()), S())
      ensures Mapped(old(S()), S(), root, va / PGSIZE, k, pa / PGSIZE, WithValid(perm))
      ensures Unmapped(old(mem), root, va / PGSIZE, k)
      ensures r != 0 ==> (panic <==> size == 0 || Blocked(old(mem), root, va / PGSIZE + k))
      ensures r == 0 ==> !panic && k == PagesOf(va, size)
      ensures r != 0 ==> r == -1 && (size > 0 ==> k < PagesOf(va, size))
      ensures r != 0 && !panic ==> free == [] && |old(free)| < 2 * (k + 1)
      ensures r == 0 ==> |old(free)| <= |free| + 2 * k
    {
      hide Good, Grew, SameMaps, Mapped, Px, IsValid, Lookup, Unmapped, TableAt, IsRoot;
      ghost var vm0 := S();
      SameRefl(vm0);
      MappedNone(vm0, root, va / PGSIZE, pa / PGSIZE, WithValid(perm));
      k := 0;
      UnmappedNone(vm0.mem, root, va / PGSIZE);
      if size == 0 {
        return -1, true, 0;
      }
      var a := va / PGSIZE * PGSIZE;
      var last := (va + size - 1) / PGSIZE * PGSIZE;
      var phys := pa;
      while true
        invariant a == (va / PGSIZE + k) * PGSIZE && a <= last && phys / PGSIZE == pa / PGSIZE + k
        invariant Good(S(), {}) && Grew(vm0, S()) && IsRoot(S(), root)
        invariant Mapped(vm0, S(), root, va / PGSIZE, k, pa / PGSIZE, WithValid(perm))
        invariant Unmapped(vm0.mem, root, va / PGSIZE, k)
        invariant |vm0.free| <= |free| + 2 * k
        decreases last - a
      {
        ghost var vm1 := S();
        var t, i;
        t, i, panic := Walk(root, a, true);
        ghost var vm2 := S();
        GrewTrans(vm0, vm1, vm2);
        MappedSame(vm0, vm1, vm2, root, va / PGSIZE, k, pa / PGSIZE, WithValid(perm));
        if panic {
          return -1, true, k;
        }
        if t == 0 {
          NoLeaf(vm0, vm2, root, va / PGSIZE, k, pa / PGSIZE, WithValid(perm));
          return -1, false, k;
        }
        LookupHere(vm0, vm2, root, va / PGSIZE, k, pa / PGSIZE, WithValid(perm), t, i);
        if IsValid(mem[t].e[i]) {
          return -1, true, k;
        }
        UnmappedMore(vm0.mem, root, va / PGSIZE, k);
        MapOne(vm0, vm2, root, va / PGSIZE, k, pa / PGSIZE, WithValid(perm), t, i);
        SetPte(t, i, Pte(phys / PGSIZE, WithValid(perm)));
        GrewTrans(vm0, vm2, S());
        k := k + 1;
        if a == last {
          break;
        }
        a := a + PGSIZE;
        phys := phys + PGSIZE;
      }
      return 0, false, k;
    }

    /** Remove one mapping whose entry is at slot (t, i), with its page if do_free. */
    method UnmapPage(ghost vm0: Vm, root: nat, vpn: nat, ghost k: nat, do_free: bool, t: nat,
                     i: nat) returns (panic: bool)
      requires Unmapping(vm0, S(), root, vpn, k, do_free) && MayUnmap(vm0, root, vpn + k, do_free)
      requires vpn + k < MAXVPN && IsLeaf(Lookup(vm0.mem, root, vpn + k)) && Good(vm0, {}) && IsRoot(vm0, root)
      requires t == TableAt(mem, root, 0, vpn + k) && i == Px(0, vpn + k) && IsTable(mem, t)
      modifies this
      ensures !panic && Unmapping(vm0, S(), root, vpn, k + 1, do_free)
    {
      hide Good, Px, Lookup, Unmapping, MayUnmap, IsLeaf, Removed;
      ghost var vm := S();
      UnmapReady(vm0, vm, root, vpn, k, do_free, t, i);
      if do_free {
        var p := mem[t].e[i].ppn;
        own := own - {p};
        panic := Kfree(p * PGSIZE, Junk());
        if panic {
          return;
        }
      }
      panic := false;
      mem := SetEntry(mem, t, i, ZERO_PTE);
      UnmapDone(vm0, vm, S(), root, vpn, k, do_free, t, i);
    }

    /** Remove npages mappings from va on; with do_free their pages go back to the free list.
        Panics exactly when va is not aligned or some page is not mapped as a leaf. */
    method Uvmunmap(root: nat, va: nat, npages: nat, do_free: bool) returns (panic: bool)
      requires Good(S(), {}) && IsRoot(S(), root)
      requires forall v: nat :: va / PGSIZE <= v < va / PGSIZE + npages ==> MayUnmap(S(), root, v, do_free)
      modifies this
      ensures panic <==> va % PGSIZE != 0 || !AllLeaves(old(mem), root, va / PGSIZE, npages)
      ensures !panic ==> Unmapping(old(S()), S(), root, va / PGSIZE, npages, do_free)
    {
      hide Good, Px, Lookup, Unmapping, MayUnmap, IsLeaf, Removed, AllLeaves;
      ghost var vm0 := S();
      if va % PGSIZE != 0 {
        return true;
      }
      UnmapStart(vm0, root, va / PGSIZE, do_free);
      var a := va;
      ghost var k := 0;
      while a < va + npages * PGSIZE
        invariant a == va + k * PGSIZE && k <= npages && a / PGSIZE == va / PGSIZE + k
        invariant Unmapping(vm0, S(), root, va / PGSIZE, k, do_free)
        invariant AllLeaves(vm0.mem, root, va / PGSIZE, k)
      {
        UnmapParts(vm0, S(), root, va / PGSIZE, k, do_free);
        ghost var vm1 := S();
        var t, i;
        t, i, panic := Walk(root, a, false);
        assert S() == vm1;
        UnmapHere(vm0, vm1, root, va / PGSIZE, npages, k, do_free);
        if panic || t == 0 {
          return true;
        }
        if !IsLeaf(mem[t].e[i]) {
          return true;
        }
        panic := UnmapPage(vm0, root, va / PGSIZE, k, do_free, t, i);
        if panic {
          assert false;
          return;
        }
        LeavesMore(vm0.mem, root, va / PGSIZE, k);
        a := a + PGSIZE;
        k := k + 1;
      }
      panic := false;
    }
  }

  /** The number of pages that size bytes from va on touch. */
  function PagesOf(va: nat, size: nat): int {
    (va + size - 1) / PGSIZE - va / PGSIZE + 1
  }

  /** b maps k pages from vpn on to ppn, ppn + 1, ...; every other translation is that of a. */
  ghost predicate Mapped(a: Vm, b: Vm, root: nat, vpn: nat, k: nat, ppn: nat, flags: nat) {
    && SameLeafTables(a, b)
    && (forall r :: IsRoot(a, r) ==> IsRoot(b, r))
    && (forall r: nat, v: nat {:trigger Lookup(b.mem, r, v)} {:trigger Lookup(a.mem, r, v)} ::
        IsRoot(a, r) && v < MAXVPN ==>
          Lookup(b.mem, r, v) == if r == root
              && vpn <= v < vpn + k then Pte(ppn + (v - vpn), flags) else Lookup(a.mem, r, v))
  }

  /** None of the n pages from vpn on is translated. */
  ghost predicate Unmapped(mem: seq<Page>, root: nat, vpn: nat, n: nat) {
    forall v: nat :: vpn <= v < vpn + n ==> v < MAXVPN && !IsValid(Lookup(mem, root, v))
  }

  lemma UnmappedNone(mem: seq<Page>, root: nat, vpn: nat)
    ensures Unmapped(mem, root, vpn, 0)
  {
  }

  lemma UnmappedMore(mem: seq<Page>, root: nat, vpn: nat, n: nat)
    requires Unmapped(mem, root, vpn, n) && !Blocked(mem, root, vpn + n)
    ensures Unmapped(mem, root, vpn, n + 1)
  {
    hide Lookup;
  }

  lemma MappedNone(vm: Vm, root: nat, vpn: nat, ppn: nat, flags: nat)
    ensures Mapped(vm, vm, root, vpn, 0, ppn, flags)
  {
    hide Lookup, TableAt;
  }

  lemma MappedSame(a: Vm, b: Vm, c: Vm, root: nat, vpn: nat, k: nat, ppn: nat, flags: nat)
    requires Mapped(a, b, root, vpn, k, ppn, flags) && SameMaps(b, c)
    ensures Mapped(a, c, root, vpn, k, ppn, flags) && (IsRoot(b, root) ==> IsRoot(c, root))
  {
    hide Lookup, TableAt;
  }

  /** walk or mappages panics at page v. */
  predicate Blocked(mem: seq<Page>, root: nat, v: nat) {
    v >= MAXVPN || IsValid(Lookup(mem, root, v))
  }

  /** Without a table for it, the next page to map was not mapped at the start. */
  lemma NoLeaf(a: Vm, b: Vm, root: nat, vpn: nat, k: nat, ppn: nat, flags: nat)
    requires Mapped(a, b, root, vpn, k, ppn, flags) && IsRoot(a, root) && vpn + k < MAXVPN
    requires TableAt(b.mem, root, 0, vpn + k) == 0
    ensures !Blocked(a.mem, root, vpn + k)
  {
    hide TableAt, Px;
    assert Lookup(b.mem, root, vpn + k) == Lookup(a.mem, root, vpn + k);
  }

  /** The next page to map still translates as at the start. */
  lemma LookupHere(a: Vm, b: Vm, root: nat, vpn: nat, k: nat, ppn: nat, flags: nat, t: nat, i: nat)
    requires Mapped(a, b, root, vpn, k, ppn, flags) && IsRoot(a, root) && vpn + k < MAXVPN
    requires t == TableAt(b.mem, root, 0, vpn + k) && i == Px(0, vpn + k) && IsTable(b.mem, t)
    ensures b.mem[t].e[i] == Entry(b.mem, t, i) == Lookup(b.mem, root, vpn + k) == Lookup(a.mem, root, vpn + k)
  {
  }

  lemma MapOne(a: Vm, b: Vm, root: nat, vpn: nat, k: nat, ppn: nat, flags: nat, t: nat, i: nat)
    requires Good(b, {}) && IsRoot(a, root) && IsRoot(b, root) && Mapped(a, b, root, vpn, k, ppn, flags)
    requires vpn + k < MAXVPN
    requires t == TableAt(b.mem, root, 0, vpn + k) && i == Px(0, vpn + k) && t != 0 && !IsValid(Entry(b.mem, t, i))
    ensures t in b.lv && b.lv[t] == 0 && IsTable(b.mem, t)
    ensures Good(SetLeaf(b, t, i, Pte(ppn + k, flags)), {}) && Grew(b, SetLeaf(b, t, i, Pte(ppn + k, flags)))
    ensures IsRoot(SetLeaf(b, t, i, Pte(ppn + k, flags)), root)
    ensures Mapped(a, SetLeaf(b, t, i, Pte(ppn + k, flags)), root, vpn, k + 1, ppn, flags)
  {
    hide Lookup, Px;
    var e := Pte(ppn + k, flags);
    TableLevels(b, root, 0, vpn + k);
    assert Level(b, t);
    InvalidNotOwned(b, t, i);
    SetLeafGood(b, t, i, e);
    forall r: nat, v: nat | IsRoot(a, r) && v < MAXVPN
      ensures Lookup(SetLeaf(b, t, i, e).mem, r, v)
              == if r == root && vpn <= v < vpn + k + 1 then Pte(ppn + (v - vpn), flags) else Lookup(a.mem, r, v)
    {
      LeafLookup(b, root, vpn + k, e, r, v);
    }
    forall r: nat, v: nat | IsRoot(a, r) && TableAt(a.mem, r, 0, v) != 0
      ensures TableAt(SetLeaf(b, t, i, e).mem, r, 0, v) == TableAt(a.mem, r, 0, v)
    {
      LeafTables(b, t, i, e, r, 0, v);
    }
  }

  lemma InvalidNotOwned(vm: Vm, t: nat, i: nat)
    requires Good(vm, {}) && !IsValid(Entry(vm.mem, t, i))
    ensures Entry(vm.mem, t, i).ppn in vm.own ==> vm.own[Entry(vm.mem, t, i).ppn] != Slot(t, i)
  {
    var c := Entry(vm.mem, t, i).ppn;
    assert c in vm.own ==> Up(vm, c);
  }

  lemma SameRefl(vm: Vm)
    ensures Grew(vm, vm) && SameMaps(vm, vm)
  {
  }

  lemma SameTrans(a: Vm, b: Vm, c: Vm)
    requires SameMaps(a, b) && SameMaps(b, c)
    ensures SameMaps(a, c)
  {
    hide TableAt, Lookup;
  }

  lemma RootIsTable(vm: Vm, root: nat)
    requires Good(vm, {}) && IsRoot(vm, root)
    ensures root != 0 && IsTable(vm.mem, root)
  {
    assert Level(vm, root);
  }

  lemma TableHere(vm: Vm, t: nat)
    requires Good(vm, {}) && t in vm.lv
    ensures IsTable(vm.mem, t)
  {
    assert Level(vm, t);
  }

  /** One level down the tree. */
  lemma StepDown(vm: Vm, root: nat, level: nat, vpn: nat)
    requires Good(vm, {}) && IsRoot(vm, root) && 0 < level <= 2 && TableAt(vm.mem, root, level, vpn) != 0
    ensures var e := Entry(vm.mem, TableAt(vm.mem, root, level, vpn), Px(level, vpn));
            TableAt(vm.mem, root, level - 1, vpn) == (if IsValid(e) then e.ppn else 0)
            && (IsValid(e) ==> e.ppn != 0 && e.ppn in vm.lv && vm.lv[e.ppn] == level - 1)
  {
    var t := TableAt(vm.mem, root, level, vpn);
    TableLevels(vm, root, level, vpn);
    assert Down(vm, t, Px(level, vpn));
    if IsValid(Entry(vm.mem, t, Px(level, vpn))) {
      assert Level(vm, Entry(vm.mem, t, Px(level, vpn)).ppn);
    }
  }

  lemma NoWay(vm: Vm, root: nat, level: nat, vpn: nat)
    requires 0 < level <= 2 && TableAt(vm.mem, root, level - 1, vpn) == 0
    ensures TableAt(vm.mem, root, 0, vpn) == 0
  {
    if level == 2 {
      assert TableAt(vm.mem, root, 0, vpn) == Child(vm.mem, TableAt(vm.mem, root, 1, vpn), Px(1, vpn));
    }
  }

  lemma NewTableHere(vm: Vm, t: nat, i: nat)
    requires Good(vm, {}) && vm.free != [] && t in vm.lv
    ensures 0 < vm.free[0] < |vm.mem| && vm.free[0] != t && IsTable(vm.mem, t)
    ensures IsTable(vm.mem[vm.free[0] := ZeroTable()], t)
  {
    assert Level(vm, t);
  }

  // ----- removing mappings -----

  function Junk(): Page {
    Bytes(seq(PGSIZE, _ => 1))
  }

  /** Every one of the n pages from vpn on is mapped by a leaf. */
  ghost predicate AllLeaves(mem: seq<Page>, root: nat, vpn: nat, n: nat) {
    forall v: nat :: vpn <= v < vpn + n ==> v < MAXVPN && IsLeaf(Lookup(mem, root, v))
  }

  lemma LeavesMore(mem: seq<Page>, root: nat, vpn: nat, n: nat)
    requires AllLeaves(mem, root, vpn, n) && vpn + n < MAXVPN && IsLeaf(Lookup(mem, root, vpn + n))
    ensures AllLeaves(mem, root, vpn, n + 1)
  {
    hide Lookup;
  }

  /** The page of vpn belongs to its leaf entry. */
  predicate Owned(vm: Vm, root: nat, vpn: nat) {
    var p := Lookup(vm.mem, root, vpn).ppn;
    p !in vm.lv && p in vm.own && vm.own[p] == Slot(TableAt(vm.mem, root, 0, vpn), Px(0, vpn))
  }

  /** What a caller of uvmunmap vouches for: a mapped page is its own, if it is to be freed, and
      someone else's otherwise. */
  predicate MayUnmap(vm: Vm, root: nat, vpn: nat, do_free: bool) {
    vpn < MAXVPN && IsLeaf(Lookup(vm.mem, root, vpn)) ==> (do_free <==> Owned(vm, root, vpn))
  }

  /** b lacks n pages from vpn on; every other translation is that of a. */
  ghost predicate Removed(a: Vm, b: Vm, root: nat, vpn: nat, n: nat) {
    && (forall r: nat, v: nat {:trigger Lookup(b.mem, r, v)} {:trigger Lookup(a.mem, r, v)} ::
        IsRoot(a, r) && v < MAXVPN ==>
          Lookup(b.mem, r, v) == if r == root && vpn <= v < vpn + n then ZERO_PTE else Lookup(a.mem, r, v))
    && (forall r: nat, v: nat {:trigger TableAt(b.mem, r, 0, v)} {:trigger TableAt(a.mem, r, 0, v)} ::
          IsRoot(a, r) ==> TableAt(b.mem, r, 0, v) == TableAt(a.mem, r, 0, v))
  }

  /** The physical pages of n pages from vpn on, the last one first. */
  function PagesAt(mem: seq<Page>, root: nat, vpn: nat, n: nat): seq<nat> {
    if n == 0 then [] else [Lookup(mem, root, vpn + n - 1).ppn] + PagesAt(mem, root, vpn, n - 1)
  }

  lemma {:induction false} PagesAtHas(mem: seq<Page>, root: nat, vpn: nat, n: nat, x: nat)
    ensures x in PagesAt(mem, root, vpn, n) <==> exists v: nat :: vpn <= v < vpn + n && Lookup(mem, root, v).ppn == x
    decreases n
  {
    hide Lookup;
    if n > 0 {
      PagesAtHas(mem, root, vpn, n - 1, x);
    }
  }

  ghost predicate AllOwned(vm: Vm, root: nat, vpn: nat, n: nat) {
    forall v: nat :: vpn <= v < vpn + n ==> v < MAXVPN && Owned(vm, root, v) && IsValid(Lookup(vm.mem, root, v))
  }

  /** uvmunmap after n pages. */
  ghost predicate Unmapping(a: Vm, b: Vm, root: nat, vpn: nat, n: nat, do_free: bool) {
    && Good(b, {}) && b.lv == a.lv && |b.mem| == |a.mem| && Removed(a, b, root, vpn, n)
    && b.free == (if do_free then PagesAt(a.mem, root, vpn, n) else []) + a.free
    && (forall c :: c in b.own <==> c in a.own && !(do_free && c in PagesAt(a.mem, root, vpn, n)))
    && (forall c :: c in b.own ==> b.own[c] == a.own[c])
    && (do_free ==> AllOwned(a, root, vpn, n))
    && (forall x: nat, i: nat {:trigger Entry(b.mem, x, i)} {:trigger Entry(a.mem, x, i)} ::
          x in a.lv && IsValid(Entry(b.mem, x, i)) ==> Entry(b.mem, x, i) == Entry(a.mem, x, i))
    && (forall x: nat :: x < |a.mem| && x !in a.lv && x !in b.free ==> b.mem[x] == a.mem[x])
  }

  lemma UnmapStart(vm: Vm, root: nat, vpn: nat, do_free: bool)
    requires Good(vm, {})
    ensures Unmapping(vm, vm, root, vpn, 0, do_free) && AllLeaves(vm.mem, root, vpn, 0)
  {
    hide Lookup, Good;
  }

  lemma UnmapParts(a: Vm, b: Vm, root: nat, vpn: nat, n: nat, do_free: bool)
    requires Unmapping(a, b, root, vpn, n, do_free)
    ensures Good(b, {}) && b.lv == a.lv && Removed(a, b, root, vpn, n) && (IsRoot(a, root) ==> IsRoot(b, root))
  {
  }

  lemma UnmapHere(a: Vm, b: Vm, root: nat, vpn: nat, npages: nat, n: nat, do_free: bool)
    requires Unmapping(a, b, root, vpn, n, do_free) && IsRoot(a, root) && n < npages
    ensures vpn + n >= MAXVPN ==> !AllLeaves(a.mem, root, vpn, npages)
    ensures vpn + n < MAXVPN ==> Lookup(b.mem, root, vpn + n) == Lookup(a.mem, root, vpn + n)
                                 == Entry(b.mem, TableAt(b.mem, root, 0, vpn + n), Px(0, vpn + n))
    ensures vpn + n < MAXVPN && !IsLeaf(Lookup(a.mem, root, vpn + n)) ==> !AllLeaves(a.mem, root, vpn, npages)
    ensures TableAt(b.mem, root, 0, vpn + n) == 0 ==>
              !IsLeaf(Entry(b.mem, TableAt(b.mem, root, 0, vpn + n), Px(0, vpn + n)))
  {
    assert Lookup(b.mem, root, vpn + n) == Entry(b.mem, TableAt(b.mem, root, 0, vpn + n), Px(0, vpn + n));
  }

  /** The page to remove next is where it was. */
  lemma UnmapReady(a: Vm, b: Vm, root: nat, vpn: nat, n: nat, do_free: bool, t: nat, i: nat)
    requires Unmapping(a, b, root, vpn, n, do_free) && MayUnmap(a, root, vpn + n, do_free)
    requires vpn + n < MAXVPN && IsLeaf(Lookup(a.mem, root, vpn + n)) && Good(a, {}) && IsRoot(a, root)
    requires t == TableAt(b.mem, root, 0, vpn + n) && i == Px(0, vpn + n) && IsTable(b.mem, t)
    ensures b.mem[t].e[i] == Lookup(b.mem, root, vpn + n) == Lookup(a.mem, root, vpn + n)
    ensures t in b.lv && b.lv[t] == 0
    ensures var p := b.mem[t].e[i].ppn;
            if do_free then p in b.own && b.own[p] == Slot(t, i) && p !in b.lv && 0 < p < |b.mem| && p != t
            else p in b.own ==> b.own[p] != Slot(t, i)
  {
    var p := Lookup(a.mem, root, vpn + n).ppn;
    assert Lookup(b.mem, root, vpn + n) == Entry(b.mem, t, i);
    TableLevels(b, root, 0, vpn + n);
    if do_free {
      NotFreedYet(a, root, vpn, n);
      assert Up(b, p);
    } else {
      assert p in b.own ==> Up(b, p);
      assert !Owned(a, root, vpn + n);
    }
  }

  /** Pages owned by different leaves are different. */
  lemma NotFreedYet(a: Vm, root: nat, vpn: nat, n: nat)
    requires Good(a, {}) && IsRoot(a, root) && vpn + n < MAXVPN && Owned(a, root, vpn + n)
    requires AllOwned(a, root, vpn, n)
    ensures Lookup(a.mem, root, vpn + n).ppn !in PagesAt(a.mem, root, vpn, n)
  {
    hide Px, TableAt;
    var p := Lookup(a.mem, root, vpn + n).ppn;
    PagesAtHas(a.mem, root, vpn, n, p);
    forall v: nat | vpn <= v < vpn + n ensures Lookup(a.mem, root, v).ppn != p {
      assert Owned(a, root, v);
      OwnedApart(a, root, v, vpn + n);
    }
  }

  lemma OwnedApart(a: Vm, root: nat, v: nat, w: nat)
    requires Good(a, {}) && IsRoot(a, root) && v < MAXVPN && w < MAXVPN && v != w && Owned(a, root, v)
    requires Owned(a, root, w)
    ensures Lookup(a.mem, root, v).ppn != Lookup(a.mem, root, w).ppn
  {
    var p := Lookup(a.mem, root, v).ppn;
    assert Up(a, p);
    if Lookup(a.mem, root, w).ppn == p {
      RootIsTable(a, root);
      TableUnique(a, root, v, root, w, 0);
      VpnOfPx(v, w);
    }
  }

  lemma OwnedMore(a: Vm, root: nat, vpn: nat, n: nat, do_free: bool)
    requires MayUnmap(a, root, vpn + n, do_free) && vpn + n < MAXVPN && IsLeaf(Lookup(a.mem, root, vpn + n))
    ensures do_free && AllOwned(a, root, vpn, n) ==> AllOwned(a, root, vpn, n + 1)
  {
    hide Lookup, Px, TableAt;
  }

  lemma UnmapDone(a: Vm, b: Vm, c: Vm, root: nat, vpn: nat, n: nat, do_free: bool, t: nat, i: nat)
    requires Unmapping(a, b, root, vpn, n, do_free) && MayUnmap(a, root, vpn + n, do_free)
    requires vpn + n < MAXVPN && IsLeaf(Lookup(a.mem, root, vpn + n)) && Good(a, {}) && IsRoot(a, root)
    requires t == TableAt(b.mem, root, 0, vpn + n) && i == Px(0, vpn + n) && IsTable(b.mem, t)
    requires Entry(b.mem, t, i).ppn < |b.mem| || !do_free
    requires IsTable(if do_free then b.mem[Entry(b.mem, t, i).ppn := Junk()] else b.mem, t)
    requires c == SetLeaf(if do_free then GivePage(Disown(b, Entry(b.mem, t, i).ppn), Entry(b.mem, t, i).ppn, Junk())
             else b, t, i, ZERO_PTE)
    ensures Unmapping(a, c, root, vpn, n + 1, do_free)
  {
    hide Px, Lookup, TableAt, Good, Removed, AllOwned, MayUnmap, Owned, IsLeaf, Junk;
    UnmapReady(a, b, root, vpn, n, do_free, t, i);
    OwnedMore(a, root, vpn, n, do_free);
    var p := Entry(b.mem, t, i).ppn;
    assert PagesAt(a.mem, root, vpn, n + 1) == [p] + PagesAt(a.mem, root, vpn, n);
    if do_free {
      DisownGood(b, p);
      GivePageGood(Disown(b, p), p, Junk(), {});
      var b' := GivePage(Disown(b, p), p, Junk());
      UnmapLookups(a, b, b', c, root, vpn, n, t, i);
    } else {
      UnmapLookups(a, b, b, c, root, vpn, n, t, i);
    }
  }

  lemma UnmapLookups(a: Vm, b: Vm, b': Vm, c: Vm, root: nat, vpn: nat, n: nat, t: nat, i: nat)
    requires Good(b, {}) && Good(b', {}) && Removed(a, b, root, vpn, n) && b.lv == b'.lv == a.lv && IsRoot(a, root)
    requires vpn + n < MAXVPN
    requires forall u, j :: u in b.lv ==> Entry(b'.mem, u, j) == Entry(b.mem, u, j)
    requires t == TableAt(b.mem, root, 0, vpn + n) && i == Px(0, vpn + n) && t in b.lv && b.lv[t] == 0
    requires IsTable(b'.mem, t)
    requires Entry(b'.mem, t, i).ppn in b'.own ==> b'.own[Entry(b'.mem, t, i).ppn] != Slot(t, i)
    requires c == SetLeaf(b', t, i, ZERO_PTE)
    ensures Good(c, {}) && Removed(a, c, root, vpn, n + 1)
  {
    hide Px, Lookup, TableAt;
    SetLeafGood(b', t, i, ZERO_PTE);
    assert Level(b, t);
    forall r: nat, v: nat | IsRoot(a, r)
      ensures TableAt(c.mem, r, 0, v) == TableAt(a.mem, r, 0, v)
      ensures v < MAXVPN ==>
                Lookup(c.mem, r, v) == if r == root && vpn <= v < vpn + n + 1 then ZERO_PTE else Lookup(a.mem, r, v)
    {
      LookupElsewhere(b, b'.mem, r, 0, v);
      LookupElsewhere(b, b'.mem, root, 0, vpn + n);
      LeafTables(b', t, i, ZERO_PTE, r, 0, v);
      if v < MAXVPN {
        LeafLookup(b', root, vpn + n, ZERO_PTE, r, v);
      }
    }
  }
}
