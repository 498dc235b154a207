/** The heap of user/umalloc.c: a circular, address-ordered list of free blocks, the blocks
    handed out, and the bytes obtained from sbrk. Addresses are byte addresses, sizes count
    16-byte units, header included. */
module FreeList {
  const UNIT: nat := 16

  /** Fields ptr and size of the headers; the free blocks, the blocks in use, and for each byte
      of the heap the block it is in. */
  datatype Heap = Heap(ptr: map<nat, nat>, size: map<nat, nat>, free: set<nat>, alloc: set<nat>, unit: map<nat, nat>)

  predicate IsBlock(h: Heap, x: nat) {
    x in h.free || x in h.alloc
  }

  function Ptr(h: Heap, x: nat): nat {
    if x in h.ptr then h.ptr[x] else 0
  }

  function Size(h: Heap, x: nat): nat {
    if x in h.size then h.size[x] else 0
  }

  /** The address just past a block. */
  function End(h: Heap, x: nat): nat {
    x + UNIT * Size(h, x)
  }

  /** y follows x on the cycle: the next free block up, or base after the last one. */
  predicate Follows(base: nat, free: set<nat>, x: nat, y: nat) {
    && y in free
    && (forall z :: z in free ==> if x < y then !(x < z < y) else z <= x)
    && (x < y || y == base)
  }

  /** The free blocks form one cycle in address order, from the static header base round to it. */
  ghost predicate Ring(base: nat, h: Heap) {
    && base in h.free && base in h.size && h.size[base] == 0
    && (forall x :: x in h.free && x != base ==> base < x && Size(h, x) > 0)
    && (forall x {:trigger Linked(base, h, x)} :: x in h.free ==> Linked(base, h, x))
  }

  predicate Linked(base: nat, h: Heap, x: nat) {
    Follows(base, h.free, x, Ptr(h, x))
  }

  /** Free and allocated blocks are pairwise disjoint and cover exactly the bytes in unit. */
  ghost predicate Cover(base: nat, h: Heap) {
    && (forall x :: x in h.alloc ==> base < x && x !in h.free && Size(h, x) > 0)
    && (forall b :: b in h.unit ==> Inside(h, b))
    && (forall x: nat, b: nat :: Covers(h, x, b) ==> Owns(h, x, b))
  }

  /** Byte b belongs to the block it is said to be in. */
  predicate Inside(h: Heap, b: nat)
    requires b in h.unit
  {
    Covers(h, h.unit[b], b)
  }

  predicate Covers(h: Heap, x: nat, b: nat) {
    IsBlock(h, x) && x <= b < End(h, x)
  }

  predicate Owns(h: Heap, x: nat, b: nat) {
    b in h.unit && h.unit[b] == x
  }

  /** No two free blocks are adjacent. */
  ghost predicate NoTouch(h: Heap) {
    forall x, y :: x in h.free && y in h.free && x < y ==> Gap(h, x, y)
  }

  predicate Gap(h: Heap, x: nat, y: nat) {
    End(h, x) < y
  }

  ghost predicate Good(base: nat, h: Heap) {
    Ring(base, h) && Cover(base, h) && NoTouch(h)
  }

  /** Blocks do not overlap. */
  lemma BlocksApart(base: nat, h: Heap, x: nat, y: nat)
    requires Cover(base, h) && IsBlock(h, x) && IsBlock(h, y) && x < y && Size(h, y) > 0
    ensures End(h, x) <= y
  {
    assert Covers(h, y, y) && Owns(h, y, y);
    assert !Owns(h, x, y);
    assert !Covers(h, x, y);
  }

  // ----- free -----

  /** Where bp belongs on the cycle: between p and the block after p. */
  predicate Place(base: nat, h: Heap, p: nat, bp: nat) {
    p in h.free && p < bp && (bp < Ptr(h, p) || Ptr(h, p) <= p)
  }

  function Insert(h: Heap, p: nat, bp: nat): Heap
  {
    Heap(h.ptr[bp := Ptr(h, p)][p := bp], h.size, h.free + {bp}, h.alloc - {bp}, h.unit)
  }

  /** Linking an allocated block in its place. */
  lemma InsertKeeps(base: nat, h: Heap, p: nat, bp: nat)
    requires Ring(base, h) && Cover(base, h) && bp in h.alloc && Place(base, h, p, bp)
    ensures Ring(base, Insert(h, p, bp)) && Cover(base, Insert(h, p, bp))
  {
    InsertRing(base, h, p, bp);
    SameBlocks(base, h, Insert(h, p, bp));
  }

  lemma InsertRing(base: nat, h: Heap, p: nat, bp: nat)
    requires Ring(base, h) && Place(base, h, p, bp) && bp !in h.free && Size(h, bp) > 0
    ensures Ring(base, Insert(h, p, bp))
  {
    var h' := Insert(h, p, bp);
    assert Linked(base, h, p);
    forall x | x in h'.free ensures Linked(base, h', x) {
      InsertedLink(base, h, p, bp, x);
    }
  }

  lemma InsertedLink(base: nat, h: Heap, p: nat, bp: nat, x: nat)
    requires Ring(base, h) && Place(base, h, p, bp) && bp !in h.free && x in h.free + {bp}
    ensures Linked(base, Insert(h, p, bp), x)
  {
    assert Linked(base, h, p);
    if x != bp && x != p {
      assert Linked(base, h, x);
      if x < p {
        assert Ptr(h, x) <= p;
      }
    }
  }

  /** The same blocks with the same sizes cover the same bytes. */
  lemma SameBlocks(base: nat, h: Heap, h': Heap)
    requires Cover(base, h) && h'.unit == h.unit
    requires forall x :: IsBlock(h', x) == IsBlock(h, x) && (IsBlock(h, x) ==> Size(h', x) == Size(h, x))
    requires forall x :: x in h'.alloc ==> base < x && x !in h'.free && Size(h, x) > 0
    ensures Cover(base, h')
  {
    forall b | b in h'.unit ensures Inside(h', b) {
      assert Inside(h, b);
    }
    forall x: nat, b: nat | Covers(h', x, b) ensures Owns(h', x, b) {
      assert Covers(h, x, b) && Owns(h, x, b);
    }
  }

  function Relabel(unit: map<nat, nat>, y: nat, x: nat): map<nat, nat> {
    map b | b in unit :: if unit[b] == y then x else unit[b]
  }

  /** Block x absorbs the free block y after it. */
  function Merge(h: Heap, x: nat, y: nat): Heap
  {
    Heap(h.ptr[x := Ptr(h, y)], h.size[x := Size(h, x) + Size(h, y)], h.free - {y}, h.alloc, Relabel(h.unit, y, x))
  }

  lemma MergeKeeps(base: nat, h: Heap, x: nat, y: nat)
    requires Ring(base, h) && Cover(base, h) && x in h.free && y in h.free && x != base && End(h, x) == y
    requires Ptr(h, x) == y
    ensures Ring(base, Merge(h, x, y)) && Cover(base, Merge(h, x, y))
    ensures Merge(h, x, y).unit.Keys == h.unit.Keys
  {
    MergeRing(base, h, x, y);
    MergeCover(base, h, x, y);
  }

  lemma MergeRing(base: nat, h: Heap, x: nat, y: nat)
    requires Ring(base, h) && x in h.free && y in h.free && x != base && x < y && Ptr(h, x) == y
    ensures Ring(base, Merge(h, x, y))
  {
    var h' := Merge(h, x, y);
    assert Linked(base, h, x) && Linked(base, h, y);
    forall z | z in h'.free ensures Linked(base, h', z) {
      assert Linked(base, h, z);
    }
  }

  lemma MergeCover(base: nat, h: Heap, x: nat, y: nat)
    requires Ring(base, h) && Cover(base, h) && x in h.free && y in h.free && x != base && End(h, x) == y && x < y
    ensures Cover(base, Merge(h, x, y))
  {
    var h' := Merge(h, x, y);
    assert End(h', x) == End(h, y);
    forall b | b in h'.unit ensures Inside(h', b) {
      assert Inside(h, b);
    }
    forall z: nat, b: nat | Covers(h', z, b) ensures Owns(h', z, b) {
      if z == x {
        assert Covers(h, if b < y then x else y, b) && Owns(h, if b < y then x else y, b);
      } else {
        assert Covers(h, z, b) && Owns(h, z, b);
      }
    }
  }

  /** free: link bp after p, joined with the block above and the block below where they touch. */
  function Release(h: Heap, p: nat, bp: nat): Heap {
    JoinBelow(JoinAbove(Insert(h, p, bp), bp, Ptr(h, p)), p, bp)
  }

  function JoinAbove(h: Heap, bp: nat, next: nat): Heap {
    if End(h, bp) == next then Merge(h, bp, next) else h
  }

  function JoinBelow(h: Heap, p: nat, bp: nat): Heap {
    if End(h, p) == bp then Merge(h, p, bp) else h
  }

  lemma ReleaseKeeps(base: nat, h: Heap, p: nat, bp: nat)
    requires Good(base, h) && bp in h.alloc && Place(base, h, p, bp)
    ensures Good(base, Release(h, p, bp)) && Release(h, p, bp).unit.Keys == h.unit.Keys
    ensures Release(h, p, bp).alloc == h.alloc - {bp} && p in Release(h, p, bp).free
    ensures forall x :: x in h.alloc - {bp} ==> Size(Release(h, p, bp), x) == Size(h, x)
    ensures exists g :: g in Release(h, p, bp).free && Size(Release(h, p, bp), g) >= Size(h, bp)
  {
    var n := Ptr(h, p);
    var h1 := Insert(h, p, bp);
    var h2 := JoinAbove(h1, bp, n);
    var h3 := JoinBelow(h2, p, bp);
    assert Linked(base, h, p);
    InsertKeeps(base, h, p, bp);
    if End(h1, bp) == n {
      MergeKeeps(base, h1, bp, n);
    }
    if End(h2, p) == bp {
      MergeKeeps(base, h2, p, bp);
    }
    ReleaseGaps(base, h, p, bp);
    assert Size(h3, if End(h2, p) == bp then p else bp) >= Size(h, bp);
  }

  /** Where the block that holds bp after the call ends: at no other free block. */
  lemma ReleaseGaps(base: nat, h: Heap, p: nat, bp: nat)
    requires Good(base, h) && bp in h.alloc && Place(base, h, p, bp)
    ensures NoTouch(Release(h, p, bp))
  {
    var n := Ptr(h, p);
    var h3 := Release(h, p, bp);
    assert Linked(base, h, p);
    forall x, y | x in h3.free && y in h3.free && x < y ensures Gap(h3, x, y) {
      if x < p {
        assert Gap(h, x, p) && (y != bp && y != p ==> Gap(h, x, y));
      } else if y == bp {
        BlocksApart(base, h, p, bp);
      } else if x <= bp {
        AboveBlock(base, h, p, bp, y);
      } else {
        assert Gap(h, x, y);
      }
    }
  }

  lemma AboveBlock(base: nat, h: Heap, p: nat, bp: nat, y: nat)
    requires Good(base, h) && bp in h.alloc && Place(base, h, p, bp) && y in h.free && bp < y
    ensures Ptr(h, p) <= y && End(h, bp) <= Ptr(h, p) && (y != Ptr(h, p) ==> Gap(h, Ptr(h, p), y))
  {
    var n := Ptr(h, p);
    assert Linked(base, h, p);
    BlocksApart(base, h, bp, n);
  }

  // ----- malloc -----

  /** Taking the whole of free block x, which follows prev. */
  function Take(h: Heap, prev: nat, x: nat): Heap
  {
    Heap(h.ptr[prev := Ptr(h, x)], h.size, h.free - {x}, h.alloc + {x}, h.unit)
  }

  lemma TakeKeeps(base: nat, h: Heap, prev: nat, x: nat)
    requires Good(base, h) && prev in h.free && x in h.free && x != base && Ptr(h, prev) == x
    ensures Good(base, Take(h, prev, x)) && x !in h.alloc && prev in Take(h, prev, x).free
  {
    var h' := Take(h, prev, x);
    assert Linked(base, h, prev) && Linked(base, h, x);
    forall z | z in h'.free ensures Linked(base, h', z) {
      assert Linked(base, h, z);
    }
    SameBlocks(base, h, h');
    forall y, z | y in h'.free && z in h'.free && y < z ensures Gap(h', y, z) {
      assert Gap(h, y, z);
    }
  }

  /** Cutting n units off the end of free block x. */
  function Tail(h: Heap, x: nat, n: nat): nat
    requires n <= Size(h, x)
  {
    x + UNIT * (Size(h, x) - n)
  }

  function Split(h: Heap, x: nat, n: nat): Heap
    requires n <= Size(h, x)
  {
    Heap(h.ptr, h.size[x := Size(h, x) - n][Tail(h, x, n) := n], h.free, h.alloc + {Tail(h, x, n)},
         map b | b in h.unit :: if Tail(h, x, n) <= b < Tail(h, x, n) + UNIT * n then Tail(h, x, n) else h.unit[b])
  }

  lemma TailIsInside(base: nat, h: Heap, x: nat, n: nat)
    requires Ring(base, h) && Cover(base, h) && x in h.free && x != base && 0 < n < Size(h, x)
    ensures !IsBlock(h, Tail(h, x, n)) && base < x < Tail(h, x, n) && Tail(h, x, n) + UNIT * n == End(h, x)
  {
    var q := Tail(h, x, n);
    assert Covers(h, x, q) && Owns(h, x, q);
    assert !Owns(h, q, q);
    assert !Covers(h, q, q);
  }

  lemma SplitKeeps(base: nat, h: Heap, x: nat, n: nat)
    requires Good(base, h) && x in h.free && x != base && 0 < n < Size(h, x)
    ensures Good(base, Split(h, x, n)) && Split(h, x, n).unit.Keys == h.unit.Keys && !IsBlock(h, Tail(h, x, n))
    ensures forall y :: y in h.alloc ==> Size(Split(h, x, n), y) == Size(h, y)
  {
    var h' := Split(h, x, n);
    TailIsInside(base, h, x, n);
    forall y, z | y in h'.free && z in h'.free && y < z ensures Gap(h', y, z) {
      assert Gap(h, y, z);
    }
    forall z | z in h'.free ensures Linked(base, h', z) {
      assert Linked(base, h, z);
    }
    SplitCover(base, h, x, n);
  }

  lemma SplitCover(base: nat, h: Heap, x: nat, n: nat)
    requires Ring(base, h) && Cover(base, h) && x in h.free && x != base && 0 < n < Size(h, x)
    ensures Cover(base, Split(h, x, n))
  {
    var h', q := Split(h, x, n), Tail(h, x, n);
    TailIsInside(base, h, x, n);
    forall b | b in h'.unit ensures Inside(h', b) {
      assert Inside(h, b);
      if q <= b < q + UNIT * n {
        assert Covers(h, x, b) && Owns(h, x, b);
      }
    }
    forall z: nat, b: nat | Covers(h', z, b) ensures Owns(h', z, b) {
      if z == q {
        assert Covers(h, x, b) && Owns(h, x, b);
      } else {
        assert Covers(h, z, b) && Owns(h, z, b);
        assert Covers(h, x, b) ==> Owns(h, x, b);
      }
    }
  }

  /** The n addresses from x on. */
  function Bytes(x: nat, n: nat): (s: set<nat>)
    ensures forall b: nat :: b in s <==> x <= b < x + n
    decreases n
  {
    if n == 0 then {} else Bytes(x, n - 1) + {x + n - 1}
  }

  /** Fresh memory from sbrk, as one block in use. */
  function Obtain(h: Heap, hp: nat, n: nat): Heap {
    Heap(h.ptr, h.size[hp := n], h.free, h.alloc + {hp},
         map b | b in h.unit.Keys + Bytes(hp, UNIT * n) :: if b in h.unit then h.unit[b] else hp)
  }

  lemma ObtainKeeps(base: nat, h: Heap, hp: nat, n: nat)
    requires Good(base, h) && base < hp && n > 0 && forall b :: b in h.unit ==> b < hp
    ensures Good(base, Obtain(h, hp, n)) && !IsBlock(h, hp)
    ensures Obtain(h, hp, n).unit.Keys == h.unit.Keys + Bytes(hp, UNIT * n)
  {
    var h' := Obtain(h, hp, n);
    forall x: nat | IsBlock(h, x) ensures x < hp && End(h, x) <= hp && Size(h', x) == Size(h, x) {
      BlockBelow(base, h, hp, x);
    }
    ObtainRing(base, h, hp, n);
    ObtainCover(base, h, hp, n);
  }

  lemma ObtainRing(base: nat, h: Heap, hp: nat, n: nat)
    requires Ring(base, h) && NoTouch(h) && n > 0
    requires forall x: nat :: x in h.free ==> x < hp
    ensures Ring(base, Obtain(h, hp, n)) && NoTouch(Obtain(h, hp, n))
  {
    hide Bytes;
    var h' := Obtain(h, hp, n);
    forall y, z | y in h'.free && z in h'.free && y < z ensures Gap(h', y, z) {
      assert Gap(h, y, z);
    }
    forall x | x in h'.free ensures Linked(base, h', x) {
      assert Linked(base, h, x);
    }
  }

  lemma ObtainCover(base: nat, h: Heap, hp: nat, n: nat)
    requires Cover(base, h) && base < hp && n > 0 && forall b :: b in h.unit ==> b < hp
    requires forall x: nat :: IsBlock(h, x) ==> x < hp && End(h, x) <= hp
    ensures Cover(base, Obtain(h, hp, n))
  {
    var h' := Obtain(h, hp, n);
    assert !IsBlock(h, hp);
    forall x: nat | x in h'.alloc ensures base < x && x !in h'.free && Size(h', x) > 0 {
      assert x != hp ==> IsBlock(h, x);
    }
    assert hp in h'.alloc && IsBlock(h', hp);
    forall b | b in h'.unit ensures Inside(h', b) {
      if b in h.unit {
        assert Inside(h, b) && Covers(h, h.unit[b], b);
      }
    }
    forall z: nat, b: nat | Covers(h', z, b) ensures Owns(h', z, b) {
      if z != hp {
        assert IsBlock(h, z) && Covers(h, z, b) && Owns(h, z, b);
      }
    }
  }

  lemma BlockBelow(base: nat, h: Heap, hp: nat, x: nat)
    requires Ring(base, h) && Cover(base, h) && base < hp && (forall b :: b in h.unit ==> b < hp) && IsBlock(h, x)
    ensures x < hp && End(h, x) <= hp
  {
    if Size(h, x) > 0 {
      assert Covers(h, x, End(h, x) - 1) && Owns(h, x, End(h, x) - 1);
    }
  }
}
