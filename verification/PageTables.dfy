/** Sv39 page tables (section 4.4 of the RISC-V Privileged Architecture) as kernel/vm.c builds
    them out of pages from kernel/kalloc.c: three-level trees whose leaves form a finite map. */
module PageTables {
  import opened Blocks
  import Bitmap

  const PGSIZE: nat := 4096
  const PTES: nat := 512
  const PTE_V: nat := 1
  const MAXVA: nat := 0x40_0000_0000
  const MAXVPN: nat := 0x400_0000    // MAXVA / PGSIZE

  /** A page-table entry: the page number and the ten flag bits below it. */
  datatype Pte = Pte(ppn: nat, flags: nat)

  const ZERO_PTE := Pte(0, 0)

  predicate IsValid(e: Pte) { e.flags % 2 == 1 }

  /** A leaf has a bit besides PTE_V. */
  predicate IsLeaf(e: Pte) { IsValid(e) && e.flags != PTE_V }

  /** PTE_R | PTE_W | PTE_X */
  predicate HasAccess(e: Pte) { e.flags / 2 % 8 != 0 }

  predicate IsUser(e: Pte) { e.flags / 16 % 2 == 1 }

  const PTE_V_BIT: nat := 0
  const PTE_R_BIT: nat := 1
  const PTE_U_BIT: nat := 4

  /** perm | PTE_V */
  function WithValid(perm: nat): nat {
    if perm % 2 == 1 then perm else perm + 1
  }

  /** PTE_R | PTE_U | xperm */
  function UserPerm(xperm: nat): nat {
    Bitmap.WithBit(Bitmap.WithBit(xperm, PTE_R_BIT), PTE_U_BIT)
  }

  /** mappages writes every bit of perm and PTE_V, and no other. */
  lemma ValidBits(perm: nat, j: nat)
    ensures Bitmap.HasBit(WithValid(perm), j) <==> j == PTE_V_BIT || Bitmap.HasBit(perm, j)
  {
    if j > 0 {
      assert WithValid(perm) / 2 == perm / 2;
    }
  }

  /** uvmalloc maps its pages with every bit of xperm, PTE_V, PTE_R and PTE_U, and no other. */
  lemma UserBits(xperm: nat, j: nat)
    ensures Bitmap.HasBit(WithValid(UserPerm(xperm)), j) <==>
            j == PTE_V_BIT || j == PTE_R_BIT || j == PTE_U_BIT || Bitmap.HasBit(xperm, j)
  {
    ValidBits(UserPerm(xperm), j);
    Bitmap.BitLaws(xperm, PTE_R_BIT, j);
    Bitmap.BitLaws(Bitmap.WithBit(xperm, PTE_R_BIT), PTE_U_BIT, j);
  }

  /** The tests of an entry are those of its bits: PTE_V, one of the three after it, and PTE_U. */
  lemma TestedBits(e: Pte)
    ensures IsValid(e) <==> Bitmap.HasBit(e.flags, PTE_V_BIT)
    ensures HasAccess(e) <==> Bitmap.HasBit(e.flags, 1) || Bitmap.HasBit(e.flags, 2) || Bitmap.HasBit(e.flags, 3)
    ensures IsUser(e) <==> Bitmap.HasBit(e.flags, PTE_U_BIT)
  {
    var x := e.flags / 2;
    assert Bitmap.HasBit(e.flags, 1) == Bitmap.HasBit(x, 0);
    assert Bitmap.HasBit(e.flags, 2) == Bitmap.HasBit(x, 1) == Bitmap.HasBit(x / 2, 0);
    assert Bitmap.HasBit(e.flags, 3) == Bitmap.HasBit(x, 2) == Bitmap.HasBit(x / 2, 1) == Bitmap.HasBit(x / 4, 0);
    assert Bitmap.HasBit(e.flags, 4) == Bitmap.HasBit(x, 3) == Bitmap.HasBit(x / 2, 2) == Bitmap.HasBit(x / 4, 1)
           == Bitmap.HasBit(x / 8, 0);
  }

  /** So what uvmalloc maps is a leaf for users. */
  lemma UserLeaf(ppn: nat, xperm: nat)
    ensures IsLeaf(Pte(ppn, WithValid(UserPerm(xperm)))) && IsUser(Pte(ppn, WithValid(UserPerm(xperm))))
    ensures HasAccess(Pte(ppn, WithValid(UserPerm(xperm))))
  {
    var e := Pte(ppn, WithValid(UserPerm(xperm)));
    TestedBits(e);
    UserBits(xperm, PTE_V_BIT);
    UserBits(xperm, PTE_R_BIT);
    UserBits(xperm, PTE_U_BIT);
  }

  /** The 64-bit word of an entry, and what PTE2PA and PTE_FLAGS read out of it. */
  function PteWord(e: Pte): nat { e.ppn * 1024 + e.flags }

  lemma PteWordReads(e: Pte)
    requires e.flags < 1024
    ensures PteWord(e) / 1024 == e.ppn && PteWord(e) % 1024 == e.flags
  {
  }

  /** A physical page used as a page table, or for bytes. */
  datatype Page = Ptes(e: seq<Pte>) | Bytes(b: seq<Byte>)

  /** Entry i of table t. */
  datatype Slot = Slot(t: nat, i: nat)

  /** Memory, the free list, the level of each page that is a table, and the slot that holds each
      table but the roots and each user page. */
  datatype Vm = Vm(mem: seq<Page>, free: seq<nat>, lv: map<nat, nat>, own: map<nat, Slot>)

  function ZeroTable(): Page {
    Ptes(seq(PTES, _ => ZERO_PTE))
  }

  function Entry(mem: seq<Page>, t: nat, i: nat): Pte {
    if 0 < t < |mem| && mem[t].Ptes? && i < |mem[t].e| then mem[t].e[i] else ZERO_PTE
  }

  /** The table below slot (t, i); 0 if there is none. */
  function Child(mem: seq<Page>, t: nat, i: nat): nat {
    if IsValid(Entry(mem, t, i)) then Entry(mem, t, i).ppn else 0
  }

  function Px(level: nat, vpn: nat): (i: nat)
    ensures i < PTES
  {
    if level == 0 then vpn % 512 else if level == 1 then vpn / 512 % 512 else vpn / 0x4_0000 % 512
  }

  /** The table that translates vpn at a level, 0 if it is missing. */
  function TableAt(mem: seq<Page>, root: nat, level: nat, vpn: nat): nat
    requires level <= 2
    decreases 2 - level
  {
    if level == 2 then root else Child(mem, TableAt(mem, root, level + 1, vpn), Px(level + 1, vpn))
  }

  /** What the tree under root says of a page: the leaf entry, or ZERO_PTE. */
  function Lookup(mem: seq<Page>, root: nat, vpn: nat): Pte {
    Entry(mem, TableAt(mem, root, 0, vpn), Px(0, vpn))
  }

  /** Address translation as the hardware does it: the top nine bits of the page number choose an entry of
      the root, the next nine one of the table found there, and the last nine the leaf. */
  lemma Sv39(mem: seq<Page>, root: nat, vpn: nat)
    requires vpn < MAXVPN
    ensures Lookup(mem, root, vpn) ==
            var e2 := Entry(mem, root, vpn / 0x4_0000);
            if !IsValid(e2) then ZERO_PTE
            else
              var e1 := Entry(mem, e2.ppn, vpn / 512 % 512);
              if IsValid(e1) then Entry(mem, e1.ppn, vpn % 512) else ZERO_PTE
  {
    assert vpn / 0x4_0000 % 512 == vpn / 0x4_0000;
    var t1 := TableAt(mem, root, 1, vpn);
    assert TableAt(mem, root, 2, vpn) == root && t1 == Child(mem, root, vpn / 0x4_0000);
    assert TableAt(mem, root, 0, vpn) == Child(mem, t1, vpn / 512 % 512);
  }

  // ----- well-formedness -----

  predicate IsTable(mem: seq<Page>, t: nat) {
    0 < t < |mem| && mem[t].Ptes? && |mem[t].e| == PTES
  }

  /** A valid entry above level 0 leads to a table of the next level that is held there. */
  predicate Down(vm: Vm, t: nat, i: nat) {
    t in vm.lv && vm.lv[t] > 0 && i < PTES && IsValid(Entry(vm.mem, t, i)) ==>
      var e := Entry(vm.mem, t, i);
      e.flags == PTE_V && e.ppn in vm.lv && vm.lv[e.ppn] + 1 == vm.lv[t] && e.ppn in vm.own
          && vm.own[e.ppn] == Slot(t, i)
  }

  /** A held page is where it is said to be. */
  predicate Up(vm: Vm, c: nat)
    requires c in vm.own
  {
    var s := vm.own[c];
    && s.t in vm.lv && s.i < PTES && 0 < c < |vm.mem|
    && IsValid(Entry(vm.mem, s.t, s.i)) && Entry(vm.mem, s.t, s.i).ppn == c
    && vm.lv[s.t] == (if c in vm.lv then vm.lv[c] + 1 else 0)
  }

  predicate Level(vm: Vm, t: nat)
    requires t in vm.lv
  {
    IsTable(vm.mem, t) && vm.lv[t] <= 2 && (t in vm.own <==> vm.lv[t] < 2)
  }

  ghost predicate FreeList(vm: Vm) {
    && (forall k: nat :: k < |vm.free| ==> 0 < vm.free[k] < |vm.mem| && vm.free[k] !in vm.lv && vm.free[k] !in vm.own)
    && (forall k: nat, j: nat :: k < j < |vm.free| ==> vm.free[k] != vm.free[j])
  }

  /** Every tree is well formed, no page is in two places; holes are entries that still name a
      page freed by the current call. */
  ghost predicate Good(vm: Vm, holes: set<Slot>) {
    && FreeList(vm)
    && (forall t {:trigger Level(vm, t)} :: t in vm.lv ==> Level(vm, t))
    && (forall t, i {:trigger Down(vm, t, i)} :: Slot(t, i) !in holes ==> Down(vm, t, i))
    && (forall c {:trigger Up(vm, c)} :: c in vm.own ==> Up(vm, c))
  }

  predicate IsRoot(vm: Vm, r: nat) {
    r in vm.lv && vm.lv[r] == 2
  }

  lemma VpnOfPx(v: nat, w: nat)
    requires v < MAXVPN && w < MAXVPN && Px(0, v) == Px(0, w) && Px(1, v) == Px(1, w) && Px(2, v) == Px(2, w)
    ensures v == w
  {
    hide Px;
    PxParts(v);
    PxParts(w);
  }

  lemma PxParts(v: nat)
    requires v < MAXVPN
    ensures v == 0x4_0000 * Px(2, v) + 512 * Px(1, v) + Px(0, v)
  {
    var a := v / 512;
    assert v == 512 * a + v % 512 && a == 512 * (a / 512) + a % 512;
    assert a / 512 == v / 0x4_0000;
    assert v / 0x4_0000 < 512;
  }

  /** The tables on the way to a page. */
  lemma TableLevels(vm: Vm, root: nat, level: nat, vpn: nat)
    requires Good(vm, {}) && IsRoot(vm, root) && level <= 2 && TableAt(vm.mem, root, level, vpn) != 0
    ensures TableAt(vm.mem, root, level, vpn) in vm.lv && vm.lv[TableAt(vm.mem, root, level, vpn)] == level
    decreases 2 - level
  {
    if level < 2 {
      var t := TableAt(vm.mem, root, level + 1, vpn);
      TableLevels(vm, root, level + 1, vpn);
      assert Down(vm, t, Px(level + 1, vpn));
    }
  }

  /** A table is reached from one root only, by pages that agree in the indices above its level. */
  lemma TableUnique(vm: Vm, r: nat, v: nat, r': nat, v': nat, level: nat)
    requires Good(vm, {}) && IsRoot(vm, r) && IsRoot(vm, r') && level <= 2
    requires TableAt(vm.mem, r, level, v) == TableAt(vm.mem, r', level, v') != 0
    ensures r == r' && (level < 2 ==> Px(2, v) == Px(2, v')) && (level < 1 ==> Px(1, v) == Px(1, v'))
    decreases 2 - level
  {
    if level < 2 {
      var t, t' := TableAt(vm.mem, r, level + 1, v), TableAt(vm.mem, r', level + 1, v');
      TableLevels(vm, r, level + 1, v);
      TableLevels(vm, r', level + 1, v');
      assert Down(vm, t, Px(level + 1, v)) && Down(vm, t', Px(level + 1, v'));
      TableUnique(vm, r, v, r', v', level + 1);
    }
  }

  function SetEntry(mem: seq<Page>, t: nat, i: nat, e: Pte): seq<Page>
    requires IsTable(mem, t) && i < PTES
  {
    mem[t := Ptes(mem[t].e[i := e])]
  }

  lemma EntryAfter(mem: seq<Page>, t: nat, i: nat, e: Pte, t': nat, i': nat)
    requires IsTable(mem, t) && i < PTES
    ensures Entry(SetEntry(mem, t, i, e), t', i') == if t' == t && i' == i then e else Entry(mem, t', i')
  {
  }

  // ----- leaf entries -----

  /** Writing a leaf entry: the tables on every way stay the same. */
  lemma LeafTables(vm: Vm, t: nat, i: nat, e: Pte, r: nat, level: nat, v: nat)
    requires Good(vm, {}) && t in vm.lv && vm.lv[t] == 0 && i < PTES && IsTable(vm.mem, t)
    requires IsRoot(vm, r) && level <= 2
    ensures TableAt(SetEntry(vm.mem, t, i, e), r, level, v) == TableAt(vm.mem, r, level, v)
    decreases 2 - level
  {
    if level < 2 {
      LeafTables(vm, t, i, e, r, level + 1, v);
      var u := TableAt(vm.mem, r, level + 1, v);
      if u != 0 {
        TableLevels(vm, r, level + 1, v);
      }
      EntryAfter(vm.mem, t, i, e, u, Px(level + 1, v));
    }
  }

  /** So it changes the translation of one page of one tree. */
  lemma LeafLookup(vm: Vm, root: nat, vpn: nat, e: Pte, r: nat, v: nat)
    requires Good(vm, {}) && IsRoot(vm, root) && IsRoot(vm, r) && vpn < MAXVPN && v < MAXVPN
    requires TableAt(vm.mem, root, 0, vpn) != 0
    ensures IsTable(vm.mem, TableAt(vm.mem, root, 0, vpn))
    ensures Lookup(SetEntry(vm.mem, TableAt(vm.mem, root, 0, vpn), Px(0, vpn), e), r, v)
            == if r == root && v == vpn then e else Lookup(vm.mem, r, v)
  {
    var t := TableAt(vm.mem, root, 0, vpn);
    TableLevels(vm, root, 0, vpn);
    assert Level(vm, t);
    LeafTables(vm, t, Px(0, vpn), e, r, 0, v);
    EntryAfter(vm.mem, t, Px(0, vpn), e, TableAt(vm.mem, r, 0, v), Px(0, v));
    if TableAt(vm.mem, r, 0, v) == t && Px(0, v) == Px(0, vpn) {
      TableUnique(vm, r, v, root, vpn, 0);
      VpnOfPx(v, vpn);
    }
  }

  function SetLeaf(vm: Vm, t: nat, i: nat, e: Pte): Vm
    requires IsTable(vm.mem, t) && i < PTES
  {
    Vm(SetEntry(vm.mem, t, i, e), vm.free, vm.lv, vm.own)
  }

  /** A leaf whose page nobody owns can be overwritten. */
  lemma SetLeafGood(vm: Vm, t: nat, i: nat, e: Pte)
    requires Good(vm, {}) && t in vm.lv && vm.lv[t] == 0 && i < PTES
    requires Entry(vm.mem, t, i).ppn in vm.own ==> vm.own[Entry(vm.mem, t, i).ppn] != Slot(t, i)
    ensures IsTable(vm.mem, t) && Good(SetLeaf(vm, t, i, e), {})
  {
    assert Level(vm, t);
    var vm' := SetLeaf(vm, t, i, e);
    forall u | u in vm'.lv ensures Level(vm', u) {
      assert Level(vm, u);
    }
    forall u, j ensures Down(vm', u, j) {
      assert Down(vm, u, j);
      EntryAfter(vm.mem, t, i, e, u, j);
    }
    forall c | c in vm'.own ensures Up(vm', c) {
      assert Up(vm, c);
      EntryAfter(vm.mem, t, i, e, vm.own[c].t, vm.own[c].i);
    }
  }

  // ----- pages that are no tables -----

  /** Changes outside the tables change no translation. */
  lemma LookupElsewhere(vm: Vm, mem': seq<Page>, r: nat, level: nat, v: nat)
    requires Good(vm, {}) && IsRoot(vm, r) && level <= 2
    requires forall t, i :: t in vm.lv ==> Entry(mem', t, i) == Entry(vm.mem, t, i)
    ensures TableAt(mem', r, level, v) == TableAt(vm.mem, r, level, v)
    ensures Lookup(mem', r, v) == Lookup(vm.mem, r, v)
    decreases 2 - level
  {
    TablesElsewhere(vm, mem', r, level, v);
    TablesElsewhere(vm, mem', r, 0, v);
    NullEntry(vm.mem, mem');
    if TableAt(vm.mem, r, 0, v) != 0 {
      TableLevels(vm, r, 0, v);
    }
  }

  lemma NullEntry(mem: seq<Page>, mem': seq<Page>)
    ensures forall i :: Entry(mem, 0, i) == Entry(mem', 0, i) == ZERO_PTE
  {
  }

  lemma TablesElsewhere(vm: Vm, mem': seq<Page>, r: nat, level: nat, v: nat)
    requires Good(vm, {}) && IsRoot(vm, r) && level <= 2
    requires forall t, i :: t in vm.lv ==> Entry(mem', t, i) == Entry(vm.mem, t, i)
    ensures TableAt(mem', r, level, v) == TableAt(vm.mem, r, level, v)
    decreases 2 - level
  {
    if level < 2 {
      TablesElsewhere(vm, mem', r, level + 1, v);
      var u := TableAt(vm.mem, r, level + 1, v);
      if u != 0 {
        TableLevels(vm, r, level + 1, v);
      }
      NullEntry(vm.mem, mem');
    }
  }

  /** A page that is neither free, nor a table, nor owned: taken by kalloc and not yet placed. */
  predicate Loose(vm: Vm, p: nat) {
    0 < p < |vm.mem| && p !in vm.free && p !in vm.lv && p !in vm.own
  }

  /** kalloc, and the first write of the page. */
  function TakePage(vm: Vm, page: Page): Vm
    requires vm.free != [] && vm.free[0] < |vm.mem|
  {
    Vm(vm.mem[vm.free[0] := page], vm.free[1..], vm.lv, vm.own)
  }

  lemma TakePageGood(vm: Vm, page: Page, holes: set<Slot>)
    requires Good(vm, holes) && vm.free != []
    ensures 0 < vm.free[0] < |vm.mem| && Good(TakePage(vm, page), holes) && Loose(TakePage(vm, page), vm.free[0])
    ensures SameTables(vm, TakePage(vm, page).mem)
  {
    var vm' := TakePage(vm, page);
    assert forall k: nat :: k < |vm'.free| ==> vm'.free[k] == vm.free[k + 1];
    StoreGood(vm, vm', vm.free[0], holes);
  }

  ghost predicate SameTables(vm: Vm, mem': seq<Page>) {
    forall t, i :: t in vm.lv ==> Entry(mem', t, i) == Entry(vm.mem, t, i)
  }

  /** A store into a page that is no table, with the free list kept well formed. */
  lemma StoreGood(vm: Vm, vm': Vm, p: nat, holes: set<Slot>)
    requires Good(vm, holes) && p !in vm.lv && |vm'.mem| == |vm.mem| && vm'.lv == vm.lv && vm'.own == vm.own
    requires forall t: nat :: t < |vm.mem| && t != p ==> vm'.mem[t] == vm.mem[t]
    requires FreeList(vm')
    ensures Good(vm', holes) && SameTables(vm, vm'.mem)
  {
    forall t | t in vm.lv ensures Level(vm', t) {
      assert Level(vm, t);
    }
    forall t, i ensures t in vm.lv ==> Entry(vm'.mem, t, i) == Entry(vm.mem, t, i) {
    }
    forall t, i | Slot(t, i) !in holes ensures Down(vm', t, i) {
      assert Down(vm, t, i);
    }
    forall c | c in vm'.own ensures Up(vm', c) {
      assert Up(vm, c);
    }
  }

  /** kfree: fill with junk and push. */
  function GivePage(vm: Vm, p: nat, junk: Page): Vm
    requires p < |vm.mem|
  {
    Vm(vm.mem[p := junk], [p] + vm.free, vm.lv, vm.own)
  }

  lemma GivePageGood(vm: Vm, p: nat, junk: Page, holes: set<Slot>)
    requires Good(vm, holes) && Loose(vm, p)
    ensures Good(GivePage(vm, p, junk), holes) && SameTables(vm, GivePage(vm, p, junk).mem)
  {
    var vm' := GivePage(vm, p, junk);
    assert forall k: nat :: k < |vm'.free| ==> vm'.free[k] == if k == 0 then p else vm.free[k - 1];
    StoreGood(vm, vm', p, holes);
  }

  /** A loose page becomes owned by the valid leaf that names it. */
  function Claim(vm: Vm, p: nat, t: nat, i: nat): Vm {
    Vm(vm.mem, vm.free, vm.lv, vm.own[p := Slot(t, i)])
  }

  lemma ClaimGood(vm: Vm, p: nat, t: nat, i: nat)
    requires Good(vm, {}) && Loose(vm, p) && t in vm.lv && vm.lv[t] == 0 && i < PTES
    requires IsValid(Entry(vm.mem, t, i)) && Entry(vm.mem, t, i).ppn == p
    ensures Good(Claim(vm, p, t, i), {})
  {
    var vm' := Claim(vm, p, t, i);
    forall u | u in vm'.lv ensures Level(vm', u) {
      assert Level(vm, u);
    }
    forall u, j ensures Down(vm', u, j) {
      assert Down(vm, u, j);
    }
    forall c | c in vm'.own ensures Up(vm', c) {
      assert c != p ==> Up(vm, c);
    }
    forall k: nat | k < |vm'.free| ensures vm'.free[k] !in vm'.own {
      assert vm.free[k] in vm.free;
    }
  }

  /** An owned user page becomes loose. */
  function Disown(vm: Vm, p: nat): Vm {
    Vm(vm.mem, vm.free, vm.lv, vm.own - {p})
  }

  lemma DisownGood(vm: Vm, p: nat)
    requires Good(vm, {}) && p in vm.own && p !in vm.lv && p < |vm.mem|
    ensures Good(Disown(vm, p), {}) && Loose(Disown(vm, p), p)
  {
    var vm' := Disown(vm, p);
    assert Up(vm, p);
    forall u | u in vm'.lv ensures Level(vm', u) {
      assert Level(vm, u);
    }
    forall u, j ensures Down(vm', u, j) {
      assert Down(vm, u, j);
    }
    forall c | c in vm'.own ensures Up(vm', c) {
      assert Up(vm, c);
    }
  }

  // ----- a new table -----

  /** walk links a zeroed page below an invalid entry. */
  function AddTable(vm: Vm, t: nat, i: nat): Vm
    requires vm.free != [] && vm.free[0] < |vm.mem| && t in vm.lv && vm.lv[t] > 0 && i < PTES
    requires IsTable(vm.mem, t) && t != vm.free[0]
  {
    var p := vm.free[0];
    Vm(SetEntry(vm.mem[p := ZeroTable()], t, i, Pte(p, PTE_V)), vm.free[1..],
       vm.lv[p := vm.lv[t] - 1], vm.own[p := Slot(t, i)])
  }

  lemma AddTableEntries(vm: Vm, t: nat, i: nat, u: nat, j: nat)
    requires Good(vm, {}) && vm.free != [] && t in vm.lv && vm.lv[t] > 0 && i < PTES
    ensures 0 < vm.free[0] < |vm.mem| && IsTable(vm.mem, t) && t != vm.free[0]
    ensures Entry(AddTable(vm, t, i).mem, u, j) ==
            if u == t && j == i then Pte(vm.free[0], PTE_V) else if u == vm.free[0] then ZERO_PTE
                else Entry(vm.mem, u, j)
  {
    assert Level(vm, t);
  }

  lemma AddTableGood(vm: Vm, t: nat, i: nat)
    requires Good(vm, {}) && vm.free != [] && t in vm.lv && vm.lv[t] > 0 && i < PTES && !IsValid(Entry(vm.mem, t, i))
    ensures vm.free[0] < |vm.mem| && IsTable(vm.mem, t) && t != vm.free[0] && Good(AddTable(vm, t, i), {})
  {
    assert Level(vm, t);
    var p, vm' := vm.free[0], AddTable(vm, t, i);
    forall u | u in vm'.lv ensures Level(vm', u) {
      assert u != p ==> Level(vm, u);
    }
    forall u, j ensures Down(vm', u, j) {
      AddTableEntries(vm, t, i, u, j);
      assert Down(vm, u, j);
    }
    forall c | c in vm'.own ensures Up(vm', c) {
      if c != p {
        assert Up(vm, c);
        AddTableEntries(vm, t, i, vm.own[c].t, vm.own[c].i);
      } else {
        AddTableEntries(vm, t, i, t, i);
      }
    }
    assert forall k: nat :: k < |vm'.free| ==> vm'.free[k] == vm.free[k + 1];
  }

  /** The ways through the new entry end in the new table; every other way is as before. */
  lemma AddTableTables(vm: Vm, t: nat, i: nat, r: nat, level: nat, v: nat)
    requires Good(vm, {}) && vm.free != [] && t in vm.lv && vm.lv[t] > 0 && i < PTES && !IsValid(Entry(vm.mem, t, i))
    requires IsRoot(vm, r) && level <= 2
    ensures vm.free[0] < |vm.mem| && IsTable(vm.mem, t) && t != vm.free[0]
    ensures var u := TableAt(AddTable(vm, t, i).mem, r, level, v);
            u == TableAt(vm.mem, r, level, v) || (TableAt(vm.mem, r, level, v) == 0 && u == vm.free[0])
    ensures level < 2 && TableAt(vm.mem, r, level + 1, v) == t && Px(level + 1, v) == i ==>
              TableAt(AddTable(vm, t, i).mem, r, level, v) == vm.free[0]
    decreases 2 - level
  {
    AddTableEntries(vm, t, i, t, i);
    if level < 2 {
      AddTableTables(vm, t, i, r, level + 1, v);
      var u, u' := TableAt(vm.mem, r, level + 1, v), TableAt(AddTable(vm, t, i).mem, r, level + 1, v);
      AddTableEntries(vm, t, i, u', Px(level + 1, v));
      if u != 0 {
        TableLevels(vm, r, level + 1, v);
      }
    }
  }

  /** So a new table changes no translation. */
  lemma AddTableLookup(vm: Vm, t: nat, i: nat, r: nat, v: nat)
    requires Good(vm, {}) && vm.free != [] && t in vm.lv && vm.lv[t] > 0 && i < PTES && !IsValid(Entry(vm.mem, t, i))
    requires IsRoot(vm, r)
    ensures vm.free[0] < |vm.mem| && IsTable(vm.mem, t) && t != vm.free[0]
    ensures Lookup(AddTable(vm, t, i).mem, r, v) == Lookup(vm.mem, r, v)
  {
    AddTableTables(vm, t, i, r, 0, v);
    var u' := TableAt(AddTable(vm, t, i).mem, r, 0, v);
    AddTableEntries(vm, t, i, u', Px(0, v));
    if TableAt(vm.mem, r, 0, v) != 0 {
      TableLevels(vm, r, 0, v);
    }
  }
}
