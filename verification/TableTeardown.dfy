/** freewalk and uvmfree of kernel/vm.c: taking a page-table tree apart. */
module TableTeardown {
  import opened PageTables
  import opened VirtualMemory
  import opened UserMemory

  /** Table x lies below an entry of t with index under n: directly, or one table further down. */
  predicate Below(vm: Vm, x: nat, t: nat, n: nat) {
    && x in vm.own && x in vm.lv
    && (var s := vm.own[x];
        (s.t == t && s.i < n) || (s.t in vm.own && vm.own[s.t].t == t && vm.own[s.t].i < n))
  }

  /** The tables of the tree under t. */
  predicate Under(vm: Vm, x: nat, t: nat) {
    (x == t && t in vm.lv) || Below(vm, x, t, PTES)
  }

  /** All leaf mappings below t are gone. */
  ghost predicate Bare(vm: Vm, t: nat) {
    forall x: nat, i: nat {:trigger Under(vm, x, t), Entry(vm.mem, x, i)} ::
      Under(vm, x, t) && vm.lv[x] == 0 ==> !IsValid(Entry(vm.mem, x, i))
  }

  /** b is a without the tables below the first n entries of t, which are invalid now; those tables
      are free pages. */
  ghost predicate Pruned(a: Vm, b: Vm, t: nat, n: nat) {
    && |b.mem| == |a.mem|
    && (forall x :: x in b.lv <==> x in a.lv && !Below(a, x, t, n))
    && (forall x :: x in b.own <==> x in a.own && !Below(a, x, t, n))
    && (forall x :: x in b.lv ==> b.lv[x] == a.lv[x])
    && (forall x :: x in b.own ==> b.own[x] == a.own[x])
    && (forall x: nat, i: nat {:trigger Entry(b.mem, x, i)} {:trigger Entry(a.mem, x, i)} :: x in b.lv ==>
          if x == t && i < n then !IsValid(Entry(b.mem, x, i)) else Entry(b.mem, x, i) == Entry(a.mem, x, i))
    && (forall x :: x in b.free <==> x in a.free || Below(a, x, t, n))
  }

  /** b is a without the tree under t, whose pages are free now; the slot that held t still names it. */
  ghost predicate Gone(a: Vm, b: Vm, t: nat) {
    && |b.mem| == |a.mem|
    && Good(b, if t in a.own then {a.own[t]} else {})
    && (forall x :: x in b.lv <==> x in a.lv && !Under(a, x, t))
    && (forall x :: x in b.own <==> x in a.own && !Under(a, x, t))
    && (forall x :: x in b.lv ==> b.lv[x] == a.lv[x])
    && (forall x :: x in b.own ==> b.own[x] == a.own[x])
    && (forall x: nat, i: nat {:trigger Entry(b.mem, x, i)} {:trigger Entry(a.mem, x, i)} :: x in b.lv ==>
          Entry(b.mem, x, i) == Entry(a.mem, x, i))
    && (forall x :: x in b.free <==> x in a.free || Under(a, x, t))
  }

  /** Free the tree under t bottom up; panics on a leaf. Every page of the tree goes to the free
      list, once. */
  method Freewalk(m: Machine, t: nat, ghost level: nat) returns (panic: bool)
    requires Good(m.S(), {}) && t in m.lv && m.lv[t] == level && Bare(m.S(), t)
    modifies m
    ensures !panic && Gone(old(m.S()), m.S(), t)
    decreases level
  {
    hide Good, Pruned, Gone, Bare, Below;
    ghost var a := m.S();
    PrunedNone(a, t);
    var i := 0;
    while i < PTES
      invariant 0 <= i <= PTES && Good(m.S(), {}) && Pruned(a, m.S(), t, i) && IsTable(m.mem, t)
    {
      ghost var b := m.S();
      EntryHere(a, b, t, i);
      var pte := m.mem[t].e[i];
      if IsValid(pte) && !HasAccess(pte) {
        var child := pte.ppn;
        ChildReady(a, b, t, i, child);
        panic := Freewalk(m, child, level - 1);
        if panic {
          return;
        }
        ChildGone(a, b, m.S(), t, i, child);
        m.mem := SetEntry(m.mem, t, i, ZERO_PTE);
      } else if IsValid(pte) {
        assert false;
        return true;
      }
      i := i + 1;
    }
    Emptied(a, m.S(), t);
    m.lv, m.own := m.lv - {t}, m.own - {t};
    panic := m.Kfree(t * PGSIZE, Junk());
  }

  lemma PrunedNone(a: Vm, t: nat)
    requires Good(a, {}) && t in a.lv
    ensures Pruned(a, a, t, 0) && IsTable(a.mem, t)
  {
    assert Level(a, t);
  }

  lemma EntryHere(a: Vm, b: Vm, t: nat, i: nat)
    requires Good(a, {}) && Good(b, {}) && Pruned(a, b, t, i) && t in a.lv && i < PTES && IsTable(b.mem, t)
    requires Bare(a, t)
    ensures t in b.lv && b.mem[t].e[i] == Entry(b.mem, t, i) == Entry(a.mem, t, i)
    ensures IsValid(Entry(a.mem, t, i)) ==>
              a.lv[t] > 0 && Entry(a.mem, t, i).flags == PTE_V && !HasAccess(Entry(a.mem, t, i))
    ensures !IsValid(Entry(a.mem, t, i)) ==> Pruned(a, b, t, i + 1)
  {
    NotBelowItself(a, t, i);
    assert Down(a, t, i) && Under(a, t, t);
    if !IsValid(Entry(a.mem, t, i)) {
      forall x: nat ensures Below(a, x, t, i + 1) == Below(a, x, t, i) {
        NoneThere(a, x, t, i);
      }
    }
  }

  lemma NotBelowItself(a: Vm, t: nat, n: nat)
    requires Good(a, {}) && t in a.lv
    ensures !Below(a, t, t, n)
  {
    if t in a.own {
      assert Up(a, t);
      if a.own[t].t in a.own {
        assert Up(a, a.own[t].t);
      }
    }
  }

  lemma NoneThere(a: Vm, x: nat, t: nat, i: nat)
    requires Good(a, {}) && t in a.lv && !IsValid(Entry(a.mem, t, i))
    ensures Below(a, x, t, i + 1) == Below(a, x, t, i)
  {
    if x in a.own {
      assert Up(a, x);
      if a.own[x].t in a.own {
        assert Up(a, a.own[x].t);
      }
    }
  }

  /** The tables below entry i of t are its child and what is under that. */
  lemma BelowStep(a: Vm, b: Vm, t: nat, i: nat, child: nat, x: nat)
    requires Good(a, {}) && Pruned(a, b, t, i) && t in a.lv && i < PTES
    requires child in a.own && child in a.lv && a.own[child] == Slot(t, i)
    ensures child in b.lv && child in b.own && a.lv[t] == a.lv[child] + 1
    ensures Below(a, x, t, i + 1) <==> Below(a, x, t, i) || Under(b, x, child)
    ensures Under(b, x, child) ==> Under(a, x, t) && x != t && x in b.lv
  {
    hide Below, Pruned;
    ChildStays(a, b, t, i, child);
    if Under(b, x, child) {
      UnderChild(a, b, t, i, child, x);
    }
    if Below(a, x, t, i + 1) && !Below(a, x, t, i) {
      NewBelow(a, b, t, i, child, x);
    }
    if Below(a, x, t, i) {
      BelowGrows(a, x, t, i, i + 1);
    }
    if Below(a, x, t, i + 1) {
      BelowGrows(a, x, t, i + 1, PTES);
    }
    NotBelowItself(a, t, i + 1);
  }

  lemma BelowGrows(a: Vm, x: nat, t: nat, n: nat, n': nat)
    requires Below(a, x, t, n) && n <= n'
    ensures Below(a, x, t, n')
  {
  }

  lemma ChildStays(a: Vm, b: Vm, t: nat, i: nat, child: nat)
    requires Good(a, {}) && Pruned(a, b, t, i) && t in a.lv && i < PTES
    requires child in a.own && child in a.lv && a.own[child] == Slot(t, i)
    ensures child in b.lv && child in b.own && a.lv[t] == a.lv[child] + 1
  {
    assert Up(a, child);
    if t in a.own {
      assert Up(a, t);
    }
  }

  lemma UnderChild(a: Vm, b: Vm, t: nat, i: nat, child: nat, x: nat)
    requires Good(a, {}) && Pruned(a, b, t, i) && t in a.lv && i < PTES
    requires child in a.own && child in a.lv && a.own[child] == Slot(t, i) && Under(b, x, child)
    ensures Below(a, x, t, i + 1) && x in b.lv
  {
    assert Up(a, child) && Level(a, t);
    assert x in a.own ==> Up(a, x);
    assert x in a.own && a.own[x].t in a.own ==> Up(a, a.own[x].t);
  }

  lemma NewBelow(a: Vm, b: Vm, t: nat, i: nat, child: nat, x: nat)
    requires Good(a, {}) && Pruned(a, b, t, i) && t in a.lv && i < PTES
    requires child in a.own && child in a.lv && a.own[child] == Slot(t, i)
    requires Below(a, x, t, i + 1) && !Below(a, x, t, i)
    ensures Under(b, x, child)
  {
    ChildStays(a, b, t, i, child);
    assert Up(a, x) && Up(a, child);
    assert a.own[x].t in a.own ==> Up(a, a.own[x].t);
  }

  lemma ChildReady(a: Vm, b: Vm, t: nat, i: nat, child: nat)
    requires Good(a, {}) && Good(b, {}) && Pruned(a, b, t, i) && t in a.lv && i < PTES && Bare(a, t)
    requires IsValid(Entry(a.mem, t, i)) && Entry(a.mem, t, i).ppn == child
    ensures a.lv[t] > 0 && child in b.lv && b.lv[child] == a.lv[t] - 1 && Bare(b, child)
    ensures child in b.own && b.own[child] == Slot(t, i)
    ensures child in a.own && child in a.lv && a.own[child] == Slot(t, i)
  {
    hide Below;
    assert Under(a, t, t) && Down(a, t, i);
    BelowStep(a, b, t, i, child, child);
    UnderIn(b, child);
    forall x: nat, j: nat | Under(b, x, child) && x in b.lv && b.lv[x] == 0 ensures !IsValid(Entry(b.mem, x, j)) {
      BelowStep(a, b, t, i, child, x);
      assert Entry(b.mem, x, j) == Entry(a.mem, x, j);
    }
  }

  lemma UnderIn(b: Vm, t: nat)
    ensures forall x: nat :: Under(b, x, t) ==> x in b.lv
  {
  }

  /** Zeroing an entry that names a page no longer held there. */
  lemma FillHole(c: Vm, t: nat, i: nat)
    requires Good(c, {Slot(t, i)}) && t in c.lv && i < PTES && Entry(c.mem, t, i).ppn !in c.own
    ensures IsTable(c.mem, t) && Good(SetLeaf(c, t, i, ZERO_PTE), {})
  {
    assert Level(c, t);
    var d := SetLeaf(c, t, i, ZERO_PTE);
    forall u | u in d.lv ensures Level(d, u) {
      assert Level(c, u);
    }
    forall u, j ensures Down(d, u, j) {
      assert Slot(u, j) != Slot(t, i) ==> Down(c, u, j);
      EntryAfter(c.mem, t, i, ZERO_PTE, u, j);
    }
    forall y | y in d.own ensures Up(d, y) {
      assert Up(c, y);
      EntryAfter(c.mem, t, i, ZERO_PTE, c.own[y].t, c.own[y].i);
    }
  }

  lemma ChildGone(a: Vm, b: Vm, c: Vm, t: nat, i: nat, child: nat)
    requires Good(a, {}) && Pruned(a, b, t, i) && t in a.lv && i < PTES
    requires child in a.own && child in a.lv && a.own[child] == Slot(t, i) && Entry(a.mem, t, i).ppn == child
    requires Gone(b, c, child)
    ensures IsTable(c.mem, t) && Good(SetLeaf(c, t, i, ZERO_PTE), {}) && Pruned(a, SetLeaf(c, t, i, ZERO_PTE), t, i + 1)
    ensures IsTable(SetEntry(c.mem, t, i, ZERO_PTE), t)
  {
    hide Below, Under, Entry, Good;
    BelowStep(a, b, t, i, child, child);
    ChildIsUnder(b, child);
    NotBelowItself(a, t, i);
    NotBelowItself(a, t, i + 1);
    forall x: nat
      ensures Below(a, x, t, i + 1) <==> Below(a, x, t, i) || Under(b, x, child)
    {
      BelowStep(a, b, t, i, child, x);
    }
    FillHole(c, t, i);
    var d := SetLeaf(c, t, i, ZERO_PTE);
    forall x: nat, j: nat | x in d.lv
      ensures if x == t && j < i + 1 then !IsValid(Entry(d.mem, x, j)) else Entry(d.mem, x, j) == Entry(a.mem, x, j)
    {
      EntryAfter(c.mem, t, i, ZERO_PTE, x, j);
      assert Entry(c.mem, x, j) == Entry(b.mem, x, j);
    }
  }

  lemma ChildIsUnder(b: Vm, child: nat)
    requires child in b.lv
    ensures Under(b, child, child)
  {
  }

  /** With every entry of t invalid, t holds nothing and can go. */
  lemma Emptied(a: Vm, b: Vm, t: nat)
    requires Good(a, {}) && Good(b, {}) && Pruned(a, b, t, PTES) && t in a.lv
    ensures 0 < t < |b.mem|
    ensures Gone(a, GivePage(Vm(b.mem, b.free, b.lv - {t}, b.own - {t}), t, Junk()), t)
  {
    hide Below;
    NotBelowItself(a, t, PTES);
    assert Level(b, t);
    var d := GivePage(Vm(b.mem, b.free, b.lv - {t}, b.own - {t}), t, Junk());
    DropTable(b, t);
    forall x ensures x in d.free <==> x == t || x in b.free {
    }
  }

  lemma DropTable(b: Vm, t: nat)
    requires Good(b, {}) && t in b.lv && t < |b.mem|
    requires forall i: nat :: i < PTES ==> !IsValid(Entry(b.mem, t, i))
    ensures Good(GivePage(Vm(b.mem, b.free, b.lv - {t}, b.own - {t}), t, Junk()), if t in b.own then {b.own[t]} else {})
    ensures forall x: nat, i: nat :: x in b.lv && x != t ==> Entry(b.mem[t := Junk()], x, i) == Entry(b.mem, x, i)
  {
    assert Level(b, t);
    var d := GivePage(Vm(b.mem, b.free, b.lv - {t}, b.own - {t}), t, Junk());
    var holes := if t in b.own then {b.own[t]} else {};
    forall u | u in d.lv ensures Level(d, u) {
      assert Level(b, u);
    }
    forall u, j | Slot(u, j) !in holes ensures Down(d, u, j) {
      assert Down(b, u, j);
    }
    forall y | y in d.own ensures Up(d, y) {
      assert Up(b, y);
    }
    assert forall k: nat :: k < |d.free| ==> d.free[k] == if k == 0 then t else b.free[k - 1];
  }

  // ----- uvmfree -----

  /** The only leaves under root map the first n pages. */
  ghost predicate OnlyPages(vm: Vm, root: nat, n: nat) {
    forall x: nat, i: nat {:trigger Under(vm, x, root), Entry(vm.mem, x, i)} ::
      Under(vm, x, root) && vm.lv[x] == 0 && IsValid(Entry(vm.mem, x, i)) ==> IsPage(vm, root, n, x, i)
  }

  predicate IsPage(vm: Vm, root: nat, n: nat, x: nat, i: nat) {
    exists v: nat :: v < n && x == TableAt(vm.mem, root, 0, v) && i == Px(0, v)
  }

  /** Every tree but the one under root is there, and translates as before. */
  ghost predicate OtherTrees(a: Vm, b: Vm, root: nat) {
    && (forall r {:trigger IsRoot(a, r)} :: IsRoot(a, r) && r != root ==> IsRoot(b, r))
    && (forall r: nat, v: nat {:trigger Lookup(b.mem, r, v)} {:trigger Lookup(a.mem, r, v)} ::
          IsRoot(a, r) && r != root && v < MAXVPN ==> Lookup(b.mem, r, v) == Lookup(a.mem, r, v))
  }

  /** Free the user pages of a process and then its page table: every page of both goes to the
      free list exactly once, and no other tree changes. */
  method Uvmfree(m: Machine, root: nat, sz: nat) returns (panic: bool)
    requires Good(m.S(), {}) && IsRoot(m.S(), root) && Pages(sz) <= MAXVPN
    requires AllLeaves(m.mem, root, 0, Pages(sz)) && OnlyPages(m.S(), root, Pages(sz))
    requires forall v: nat :: v < Pages(sz) ==> MayUnmap(m.S(), root, v, true)
    modifies m
    ensures !panic && Good(m.S(), {})
    ensures forall x :: x in m.free <==>
                        x in old(m.free) || x in PagesAt(old(m.mem), root, 0, Pages(sz)) || Under(old(m.S()), x, root)
    ensures OtherTrees(old(m.S()), m.S(), root)
  {
    hide Good, Lookup, Under, Gone, Unmapping, AllLeaves, MayUnmap, OnlyPages, Bare, OtherTrees;
    ghost var a := m.S();
    UnmapStart(a, root, 0, true);
    if sz > 0 {
      panic := m.Uvmunmap(root, 0, Pages(sz) * PGSIZE / PGSIZE, true);
    }
    ghost var b := m.S();
    NoLeavesLeft(a, b, root, Pages(sz));
    panic := Freewalk(m, root, 2);
    TreeFreed(a, b, m.S(), root, Pages(sz));
  }

  lemma NoLeavesLeft(a: Vm, b: Vm, root: nat, n: nat)
    requires Good(a, {}) && IsRoot(a, root) && Unmapping(a, b, root, 0, n, true) && OnlyPages(a, root, n) && n <= MAXVPN
    ensures Good(b, {}) && IsRoot(b, root) && Bare(b, root)
  {
    hide Lookup, Px, TableAt, Below, PagesAt;
    UnderIn(b, root);
    forall x: nat, i: nat | Under(b, x, root) && x in b.lv && b.lv[x] == 0 ensures !IsValid(Entry(b.mem, x, i)) {
      UnderBoth(a, b, root, n, x);
      if IsValid(Entry(b.mem, x, i)) {
        assert Under(a, x, root) && Entry(a.mem, x, i) == Entry(b.mem, x, i);
        PageIsGone(a, b, root, n, x, i);
      }
    }
  }

  lemma PageIsGone(a: Vm, b: Vm, root: nat, n: nat, x: nat, i: nat)
    requires IsRoot(a, root) && Unmapping(a, b, root, 0, n, true) && IsPage(a, root, n, x, i) && n <= MAXVPN
    ensures !IsValid(Entry(b.mem, x, i))
  {
    hide Px, TableAt;
    var v: nat :| v < n && x == TableAt(a.mem, root, 0, v) && i == Px(0, v);
    assert Lookup(b.mem, root, v) == ZERO_PTE;
    assert TableAt(b.mem, root, 0, v) == TableAt(a.mem, root, 0, v);
  }

  /** Unmapping user pages leaves the tables as they are. */
  lemma UnderBoth(a: Vm, b: Vm, root: nat, n: nat, x: nat)
    requires Good(a, {}) && Unmapping(a, b, root, 0, n, true)
    ensures Under(b, x, root) <==> Under(a, x, root)
  {
    hide Lookup, TableAt;
    forall c | c in a.own && c in a.lv ensures c in b.own && b.own[c] == a.own[c] {
      TableKept(a, b, root, n, c);
    }
    assert x in a.own && x in a.lv ==> Up(a, x);
  }

  lemma TableKept(a: Vm, b: Vm, root: nat, n: nat, c: nat)
    requires Good(a, {}) && Unmapping(a, b, root, 0, n, true) && c in a.own && c in a.lv
    ensures c in b.own && b.own[c] == a.own[c]
  {
    hide TableAt, Px, Lookup;
    PagesAtHas(a.mem, root, 0, n, c);
    forall v: nat | v < n ensures Lookup(a.mem, root, v).ppn != c {
      assert Owned(a, root, v);
    }
  }

  lemma TreeFreed(a: Vm, b: Vm, c: Vm, root: nat, n: nat)
    requires Good(a, {}) && IsRoot(a, root) && Unmapping(a, b, root, 0, n, true) && Gone(b, c, root) && n <= MAXVPN
    ensures Good(c, {})
    ensures forall x :: x in c.free <==> x in a.free || x in PagesAt(a.mem, root, 0, n) || Under(a, x, root)
    ensures OtherTrees(a, c, root)
  {
    hide Lookup, Px, TableAt, Below, PagesAt, Under;
    assert Level(b, root);
    forall x: nat ensures Under(b, x, root) <==> Under(a, x, root) {
      UnderBoth(a, b, root, n, x);
    }
    forall r: nat, v: nat | IsRoot(a, r) && r != root && v < MAXVPN
      ensures Lookup(c.mem, r, v) == Lookup(a.mem, r, v)
    {
      OtherTree(b, c, root, r, v);
    }
    forall r | IsRoot(a, r) && r != root ensures IsRoot(c, r) {
      OtherTree(b, c, root, r, 0);
    }
  }

  /** The tree under root shares no table with another. */
  lemma OtherTables(b: Vm, c: Vm, root: nat, r: nat, level: nat, v: nat)
    requires Good(b, {}) && IsRoot(b, root) && IsRoot(b, r) && r != root && Gone(b, c, root) && level <= 2
    ensures IsRoot(c, r) && TableAt(c.mem, r, level, v) == TableAt(b.mem, r, level, v)
    ensures TableAt(b.mem, r, level, v) != 0 ==> TableAt(b.mem, r, level, v) in c.lv
    ensures TableAt(b.mem, r, level, v) != 0 ==> !Under(b, TableAt(b.mem, r, level, v), root)
    decreases 2 - level
  {
    hide Under, Lookup;
    OtherRoot(b, root, r);
    if level < 2 {
      OtherTables(b, c, root, r, level + 1, v);
      var u := TableAt(b.mem, r, level + 1, v);
      NullEntry(b.mem, c.mem);
      if u != 0 {
        TableLevels(b, r, level + 1, v);
        assert Entry(c.mem, u, Px(level + 1, v)) == Entry(b.mem, u, Px(level + 1, v));
        assert Down(b, u, Px(level + 1, v));
        OtherChild(b, root, u, TableAt(b.mem, r, level, v), Px(level + 1, v));
      }
    }
  }

  lemma OtherRoot(b: Vm, root: nat, r: nat)
    requires Good(b, {}) && IsRoot(b, root) && IsRoot(b, r) && r != root
    ensures !Under(b, r, root)
  {
    assert Level(b, r);
  }

  lemma OtherChild(b: Vm, root: nat, u: nat, c: nat, i: nat)
    requires Good(b, {}) && IsRoot(b, root) && u in b.lv && !Under(b, u, root)
    ensures c in b.lv && c in b.own && b.own[c] == Slot(u, i) ==> !Under(b, c, root)
  {
    assert Level(b, root);
    assert u in b.own ==> Up(b, u);
    assert c in b.own ==> Up(b, c);
  }

  lemma OtherTree(b: Vm, c: Vm, root: nat, r: nat, v: nat)
    requires Good(b, {}) && IsRoot(b, root) && IsRoot(b, r) && r != root && Gone(b, c, root)
    ensures IsRoot(c, r) && Lookup(c.mem, r, v) == Lookup(b.mem, r, v)
  {
    hide Under, TableAt, Px;
    OtherTables(b, c, root, r, 0, v);
    NullEntry(b.mem, c.mem);
  }
}
