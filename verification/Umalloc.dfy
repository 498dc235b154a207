/** malloc, free and morecore of user/umalloc.c, over an address space grown by sbrk. */
module Umalloc {
  import opened FreeList

  const MIN_UNITS: nat := 4096

  /** The units malloc needs for a request: the header and whole units of payload. */
  function Units(nbytes: nat): nat {
    (nbytes + UNIT - 1) / UNIT + 1
  }

  /** A byte count as the int parameter of sbrk sees it. */
  function IntArg(n: nat): int {
    if n % 0x1_0000_0000 < 0x8000_0000 then n % 0x1_0000_0000 else n % 0x1_0000_0000 - 0x1_0000_0000
  }

  /** malloc asks sbrk for the size it computed exactly when the request is small enough; for
      the next larger request the argument is negative and would shrink the process. */
  lemma SbrkArgument(nbytes: nat)
    requires nbytes < 0x1_0000_0000
    ensures IntArg(UNIT * Units(nbytes)) == UNIT * Units(nbytes) <==> nbytes <= 0x7FFF_FFE0
    ensures IntArg(UNIT * Units(0x7FFF_FFE1)) == -0x8000_0000
  {
  }

  /** The free blocks malloc's walk has passed when it stands at p. */
  predicate Passed(freep: nat, p: nat, x: nat) {
    if freep < p then freep < x < p else x > freep || x < p
  }

  /** From freep on, which comes last itself, p is the first free block of n units or more. */
  ghost predicate NextFit(h: Heap, freep: nat, p: nat, n: nat) {
    && p in h.free && Size(h, p) >= n
    && forall x :: x in h.free && Passed(freep, p, x) ==> Size(h, x) < n
  }

  class Allocator {
    const base: nat    // &base, below the heap
    const limit: nat   // the address up to which sbrk has memory
    var ptr: map<nat, nat>
    var size: map<nat, nat>
    var freep: nat     // 0 before the first call
    var brk: nat
    ghost var blocks: set<nat>      // the free list
    ghost var alloc: set<nat>
    ghost var unit: map<nat, nat>

    ghost function H(): Heap
      reads this
    {
      Heap(ptr, size, blocks, alloc, unit)
    }

    ghost predicate Valid()
      reads this
    {
      Sound(base, brk, freep, H())
    }

    constructor (base: nat, brk: nat, limit: nat)
      requires 0 < base < brk
      ensures Valid() && this.base == base && this.brk == brk && this.limit == limit && alloc == {} && unit == map[]
    {
      this.base, this.brk, this.limit := base, brk, limit;
      ptr, size, freep := map[], map[], 0;
      blocks, alloc, unit := {}, {}, map[];
    }

    /** The system call: n more bytes at the old break, or -1. */
    method Sbrk(n: nat) returns (p: int)
      modifies this`brk
      ensures p == -1 ==> brk == old(brk) && brk + n > limit
      ensures p != -1 ==> p == old(brk) && brk == p + n
    {
      if brk + n > limit {
        return -1;
      }
      p := brk;
      brk := brk + n;
    }

    /** free's walk from freep to the block after which bp belongs. */
    method FindPlace(bp: nat) returns (p: nat)
      requires Valid() && bp in alloc
      ensures p in ptr && p in blocks && Place(base, H(), p, bp)
    {
      hide Good, Sound, Place;
      ghost var h := H();
      SoundParts(base, brk, freep, h, bp);
      p := freep;
      Bounds(base, h, brk, p, bp);
      while !(bp > p && bp < ptr[p])
        invariant p in blocks && p in ptr && p < brk && p != bp
        decreases if p < bp then bp - p else brk + brk - p
      {
        Bounds(base, h, brk, p, bp);
        if p >= ptr[p] && (bp > p || bp < ptr[p]) {
          break;
        }
        p := ptr[p];
      }
      PlaceFound(base, h, p, bp);
    }

    /** Return the block with header bp to the free list, joined with the free blocks it touches. */
    method Free(bp: nat)
      requires Valid() && bp in alloc
      modifies this`ptr, this`size, this`freep, this`blocks, this`alloc, this`unit
      ensures Valid() && freep != 0
      ensures alloc == old(alloc) - {bp} && unit.Keys == old(unit).Keys
      ensures forall x :: x in alloc ==> Size(H(), x) == Size(old(H()), x)
      ensures exists g :: g in blocks && Size(H(), g) >= Size(old(H()), bp)
      ensures Place(base, old(H()), freep, bp) && H() == Release(old(H()), freep, bp)
    {
      hide Good, Sound, Place, Release;
      ghost var h := H();
      var p: nat := FindPlace(bp);
      SoundParts(base, brk, freep, h, bp);
      Bounds(base, h, brk, p, bp);
      var n := ptr[p];
      InMaps(base, h, bp);
      InMaps(base, h, p);
      InMaps(base, h, n);
      if bp + UNIT * size[bp] == n {
        size := size[bp := size[bp] + size[n]];
        ptr := ptr[bp := ptr[n]];
      } else {
        ptr := ptr[bp := n];
      }
      ReleaseFields(base, h, p, bp, ptr, size);
      if p + UNIT * size[p] == bp {
        size := size[p := size[p] + size[bp]];
        ptr := ptr[p := ptr[bp]];
      } else {
        ptr := ptr[p := bp];
      }
      freep := p;
      ReleaseKeeps(base, h, p, bp);
      blocks, alloc, unit := Release(h, p, bp).free, Release(h, p, bp).alloc, Release(h, p, bp).unit;
      assert H() == Release(h, p, bp);
      MakeSound(base, brk, p, h, H());
    }

    /** A block of at least nu units from sbrk, put on the free list. */
    method Morecore(nu: nat) returns (p: nat)
      requires Valid() && freep != 0 && 0 < nu && UNIT * nu < 0x8000_0000
      modifies this
      ensures Valid() && freep != 0 && p == (if brk == old(brk) then 0 else freep)
      ensures p == 0 ==> H() == old(H()) && freep == old(freep) && brk + UNIT * Most(nu, MIN_UNITS) > limit
      ensures p != 0 ==> brk == old(brk) + UNIT * Most(nu, MIN_UNITS)
      ensures p != 0 ==> exists g :: g in blocks && Size(H(), g) >= nu
      ensures p != 0 ==> forall x :: x in blocks ==>
                End(H(), x) == brk || (x in old(blocks) && Size(H(), x) == Size(old(H()), x))
      ensures alloc == old(alloc) && Grown(old(unit), unit, old(brk), brk)
      ensures forall x :: x in alloc ==> Size(H(), x) == Size(old(H()), x)
    {
      hide Good, Sound, Obtain, Grown, Low;
      ghost var h := H();
      SoundBrk(base, brk, freep, h);
      var n := if nu < MIN_UNITS then MIN_UNITS else nu;
      var hp := Sbrk(IntArg(n * UNIT));
      if hp == -1 {
        GrownNone(unit, brk);
        return 0;
      }
      ObtainSound(base, h, hp, n);
      size := size[hp := n];
      alloc, unit := alloc + {hp}, Obtain(h, hp, n).unit;
      assert H() == Obtain(h, hp, n);
      MakeSoundBelow(base, brk, freep, H());
      ghost var u := unit;
      ghost var h' := H();
      Free(hp);
      TopJoins(base, h', freep, hp);
      GrownSame(old(unit), u, unit, old(brk), brk);
      p := freep;
    }

    /** Hand out free block p, whole if it fits exactly and else its upper end. */
    method Carve(prevp: nat, p: nat, nunits: nat) returns (q: nat)
      requires Valid() && freep != 0 && prevp in blocks && p in blocks && prevp in ptr && ptr[prevp] == p
      requires 0 < nunits <= Size(H(), p)
      modifies this`ptr, this`size, this`freep, this`blocks, this`alloc, this`unit
      ensures Valid() && freep == prevp && freep != 0 && unit.Keys == old(unit).Keys
      ensures q + UNIT * nunits == End(old(H()), p)
      ensures q !in old(alloc) && alloc == old(alloc) + {q} && Size(H(), q) == nunits
      ensures forall x :: x in old(alloc) ==> Size(H(), x) == Size(old(H()), x)
    {
      hide Good, Sound, Take, Split;
      ghost var h := H();
      SoundBrk(base, brk, freep, h);
      InMaps(base, h, p);
      InMaps(base, h, prevp);
      NotBase(base, h, prevp, p, nunits);
      q := p;
      if size[q] == nunits {
        TakeKeeps(base, h, prevp, q);
        TakeFields(h, prevp, q);
        ptr := ptr[prevp := ptr[q]];
        blocks, alloc := blocks - {q}, alloc + {q};
        assert H() == Take(h, prevp, p);
      } else {
        SplitKeeps(base, h, p, nunits);
        SplitFields(h, p, nunits);
        size := size[q := size[q] - nunits];
        q := q + UNIT * size[q];
        size := size[q := nunits];
        alloc, unit := alloc + {q}, Split(h, p, nunits).unit;
        assert H() == Split(h, p, nunits);
      }
      freep := prevp;
      MakeSound(base, brk, prevp, h, H());
    }

    /** A block with room for nbytes, or 0 when none fits and sbrk has no more memory. The heap grows
        only if no free block fitted, by the units asked for or MIN_UNITS if those are more. */
    method Malloc(nbytes: nat) returns (r: nat)
      requires Valid() && nbytes <= 0x7FFF_FFE0
      modifies this
      ensures Valid() && freep != 0 && Grown(old(unit), unit, old(brk), brk)
      ensures forall x :: x in old(alloc) ==> Size(H(), x) == Size(old(H()), x)
      ensures r == 0 ==> alloc == old(alloc) && brk == old(brk) && brk + UNIT * Most(Units(nbytes), MIN_UNITS) > limit
      ensures r == 0 ==> forall x :: x in blocks ==> Size(H(), x) < Units(nbytes)
      ensures brk != old(brk) ==> brk == old(brk) + UNIT * Most(Units(nbytes), MIN_UNITS)
      ensures brk != old(brk) ==> forall x :: x in old(blocks) ==> Size(old(H()), x) < Units(nbytes)
      ensures r != 0 ==> r >= UNIT && r - UNIT !in old(alloc) && alloc == old(alloc) + {r - UNIT}
      ensures brk != old(brk) ==> r != 0 && r - UNIT + UNIT * Units(nbytes) == brk
      ensures r != 0 && brk == old(brk) && old(freep) != 0 ==>
                && freep in old(ptr) && NextFit(old(H()), old(freep), old(ptr)[freep], Units(nbytes))
                && r - UNIT + UNIT * Units(nbytes) == End(old(H()), old(ptr)[freep])
      ensures r != 0 ==>
                Size(H(), r - UNIT) == Units(nbytes) && nbytes <= UNIT * (Size(H(), r - UNIT) - 1) < nbytes + UNIT
    {
      hide Good, Sound, Grown, Passed, End;
      var nunits := Units(nbytes);
      GrownNone(unit, brk);
      if freep == 0 {
        ptr, size, freep := ptr[base := base], size[base := 0], base;
        blocks := {base};
        FirstCall(base, brk, old(H()), H());
      }
      ghost var grown := false;
      var prevp := freep;
      WalkStarts(base, brk, H(), freep);
      var p := ptr[prevp];
      while true
        invariant Valid() && freep != 0 && prevp in blocks && p in blocks && prevp in ptr && ptr[prevp] == p
        invariant alloc == old(alloc) && Grown(old(unit), unit, old(brk), brk)
        invariant !grown ==> brk == old(brk) && unit == old(unit) && old(blocks) <= blocks
        invariant !grown ==> forall x :: x in old(blocks) ==> Size(H(), x) == Size(old(H()), x)
        invariant !grown && old(freep) != 0 ==> H() == old(H()) && freep == old(freep)
        invariant grown ==> brk == old(brk) + UNIT * Most(nunits, MIN_UNITS) > old(brk)
        invariant grown ==> forall x :: x in old(blocks) ==> Size(old(H()), x) < nunits
        invariant grown ==> exists g :: g in blocks && Size(H(), g) >= nunits
        invariant grown ==> forall x :: x in blocks && Size(H(), x) >= nunits ==> End(H(), x) == brk
        invariant forall x :: x in old(alloc) ==> Size(H(), x) == Size(old(H()), x)
        invariant forall x :: x in blocks && Passed(freep, p, x) ==> Size(H(), x) < nunits
        decreases !grown, if p > freep then brk + brk - p else freep - p
      {
        WalkGoesOn(base, brk, H(), freep, p);
        if size[p] >= nunits {
          ghost var h := H();
          p := Carve(prevp, p, nunits);
          GrownSame(old(unit), h.unit, unit, old(brk), brk);
          return p + UNIT;
        }
        if p == freep {
          if grown {
            assert false;
          }
          p := Morecore(nunits);
          if p == 0 {
            return 0;
          }
          grown := true;
          WalkStarts(base, brk, H(), p);
        }
        prevp := p;
        p := ptr[p];
      }
    }
  }

  ghost predicate Low(unit: map<nat, nat>, brk: nat) {
    forall b :: b in unit ==> b < brk
  }

  /** Before the first call there is nothing; afterwards one well-formed heap below the break. */
  ghost predicate Sound(base: nat, brk: nat, freep: nat, h: Heap) {
    && 0 < base < brk && Low(h.unit, brk)
    && (if freep == 0 then h.free == {} && h.alloc == {} && h.unit == map[] else freep in h.free && Good(base, h))
  }

  lemma SoundParts(base: nat, brk: nat, freep: nat, h: Heap, bp: nat)
    requires Sound(base, brk, freep, h) && bp in h.alloc
    ensures 0 < base < brk && freep != 0 && freep in h.free && Good(base, h) && Low(h.unit, brk)
  {
  }

  lemma SoundBrk(base: nat, brk: nat, freep: nat, h: Heap)
    requires Sound(base, brk, freep, h) && freep != 0
    ensures 0 < base < brk && freep in h.free && Good(base, h) && Low(h.unit, brk)
  {
  }

  lemma MakeSound(base: nat, brk: nat, freep: nat, h: Heap, h': Heap)
    requires 0 < base < brk && Low(h.unit, brk) && h'.unit.Keys == h.unit.Keys && freep in h'.free && Good(base, h')
    ensures Sound(base, brk, freep, h') && freep != 0
  {
    hide Cover, NoTouch;
  }

  lemma MakeSoundBelow(base: nat, brk: nat, freep: nat, h: Heap)
    requires 0 < base < brk && freep in h.free && freep != 0 && Good(base, h) && Low(h.unit, brk)
    ensures Sound(base, brk, freep, h)
  {
  }

  function Most(a: nat, b: nat): nat {
    if a < b then b else a
  }

  /** The heap has grown by exactly the bytes that sbrk returned. */
  ghost predicate Grown(unit: map<nat, nat>, unit': map<nat, nat>, brk: nat, brk': nat) {
    brk <= brk' && unit'.Keys == unit.Keys + Bytes(brk, brk' - brk)
  }

  /** The topmost block, when it is freed, joins at most the free block below it. */
  lemma TopJoins(base: nat, h: Heap, p: nat, bp: nat)
    requires Good(base, h) && base < bp && bp in h.alloc && Place(base, h, p, bp) && Low(h.unit, End(h, bp))
    ensures forall x :: x in Release(h, p, bp).free ==>
              || End(Release(h, p, bp), x) == End(h, bp)
              || (x in h.free && Size(Release(h, p, bp), x) == Size(h, x))
  {
    assert Linked(base, h, p);
    forall x | x in h.free && x != base ensures x < End(h, bp) {
      assert Covers(h, x, x) && Owns(h, x, x);
    }
    if bp < Ptr(h, p) {
      AboveBlock(base, h, p, bp, Ptr(h, p));
      assert false;
    }
  }

  lemma InMaps(base: nat, h: Heap, x: nat)
    requires Good(base, h) && 0 < base && IsBlock(h, x)
    ensures x in h.size && (x in h.free ==> x in h.ptr && h.ptr[x] in h.free)
  {
    if x in h.free {
      assert Linked(base, h, x);
    }
  }

  lemma Bounds(base: nat, h: Heap, brk: nat, p: nat, bp: nat)
    requires Good(base, h) && 0 < base < brk && Low(h.unit, brk) && p in h.free && bp in h.alloc
    ensures p < brk && base < bp < brk && p != bp && p in h.ptr && h.ptr[p] in h.free && h.ptr[p] != bp
    ensures h.ptr[p] < brk
    ensures h.ptr[p] in h.ptr && (h.ptr[p] > p || h.ptr[p] == base)
  {
    InMaps(base, h, p);
    InMaps(base, h, h.ptr[p]);
    assert Linked(base, h, p);
    BlockBelow(base, h, brk, p);
    BlockBelow(base, h, brk, h.ptr[p]);
    BlockBelow(base, h, brk, bp);
  }

  lemma PlaceFound(base: nat, h: Heap, p: nat, bp: nat)
    requires Good(base, h) && 0 < base && p in h.free && p in h.ptr && bp in h.alloc && p != bp
    requires (bp > p && bp < h.ptr[p]) || (p >= h.ptr[p] && (bp > p || bp < h.ptr[p]))
    ensures Place(base, h, p, bp)
  {
    assert Linked(base, h, p);
  }

  /** The stores of free, in the order the code makes them. */
  lemma ReleaseFields(base: nat, h: Heap, p: nat, bp: nat, ptr1: map<nat, nat>, size1: map<nat, nat>)
    requires Good(base, h) && bp in h.alloc && Place(base, h, p, bp)
    requires ptr1 == if End(h, bp) == Ptr(h, p) then h.ptr[bp := Ptr(h, Ptr(h, p))] else h.ptr[bp := Ptr(h, p)]
    requires size1 == if End(h, bp) == Ptr(h, p) then h.size[bp := Size(h, bp) + Size(h, Ptr(h, p))] else h.size
    ensures bp in ptr1 && bp in size1
    ensures Release(h, p, bp).ptr == ptr1[p := if End(h, p) == bp then ptr1[bp] else bp]
    ensures Release(h, p, bp).size == if End(h, p) == bp then size1[p := Size(h, p) + size1[bp]] else size1
  {
    assert Linked(base, h, p);
    var n := Ptr(h, p);
    var h1 := Insert(h, p, bp);
    if End(h, bp) == n {
      assert n != p && n != bp && Ptr(h1, n) == Ptr(h, n);
    }
  }

  lemma ObtainSound(base: nat, h: Heap, hp: nat, n: nat)
    requires Good(base, h) && base < hp && n > 0 && Low(h.unit, hp)
    ensures Obtain(h, hp, n).ptr == h.ptr && Obtain(h, hp, n).size == h.size[hp := n]
    ensures Obtain(h, hp, n).free == h.free && Obtain(h, hp, n).alloc == h.alloc + {hp}
    ensures Good(base, Obtain(h, hp, n)) && !IsBlock(h, hp)
    ensures Low(Obtain(h, hp, n).unit, hp + UNIT * n) && Grown(h.unit, Obtain(h, hp, n).unit, hp, hp + UNIT * n)
  {
    hide Good;
    ObtainKeeps(base, h, hp, n);
  }

  lemma TakeFields(h: Heap, prev: nat, x: nat)
    requires x in h.ptr
    ensures Take(h, prev, x) == Heap(h.ptr[prev := h.ptr[x]], h.size, h.free - {x}, h.alloc + {x}, h.unit)
  {
  }

  lemma SplitFields(h: Heap, x: nat, n: nat)
    requires x in h.size && n <= h.size[x]
    ensures Split(h, x, n).ptr == h.ptr && Split(h, x, n).free == h.free
    ensures Split(h, x, n).size == h.size[x := h.size[x] - n][Tail(h, x, n) := n]
    ensures Split(h, x, n).alloc == h.alloc + {Tail(h, x, n)}
  {
  }

  /** malloc's first call: the cycle is the static header alone. */
  lemma FirstCall(base: nat, brk: nat, h: Heap, h': Heap)
    requires Sound(base, brk, 0, h)
    requires h' == Heap(h.ptr[base := base], h.size[base := 0], {base}, h.alloc, h.unit)
    ensures Sound(base, brk, base, h') && h'.alloc == {} && h.free == {}
  {
    assert Linked(base, h', base);
    assert forall x: nat, b: nat :: !Covers(h', x, b);
  }

  lemma NotBase(base: nat, h: Heap, prevp: nat, p: nat, n: nat)
    requires Good(base, h) && 0 < base && p in h.free && n > 0 && Size(h, p) >= n && prevp in h.free
    ensures p != base && prevp != 0
  {
  }

  /** Just after freep, no block has been passed. */
  lemma WalkStarts(base: nat, brk: nat, h: Heap, freep: nat)
    requires Sound(base, brk, freep, h) && freep != 0
    ensures freep in h.free && freep in h.ptr && h.ptr[freep] in h.free
    ensures forall x :: x in h.free ==> !Passed(freep, h.ptr[freep], x)
  {
    InMaps(base, h, freep);
    assert Linked(base, h, freep);
  }

  /** One step passes one block and comes nearer to freep, where every block has been passed. */
  lemma WalkGoesOn(base: nat, brk: nat, h: Heap, freep: nat, p: nat)
    requires Sound(base, brk, freep, h) && freep != 0 && p in h.free
    ensures p < brk && freep < brk && p in h.size && p in h.ptr && h.ptr[p] in h.free && h.ptr[p] < brk
    ensures p != freep ==> forall x :: x in h.free && Passed(freep, h.ptr[p], x) ==> x == p || Passed(freep, p, x)
    ensures p == freep ==> forall x :: x in h.free ==> x == p || Passed(freep, p, x)
    ensures p > freep ==> h.ptr[p] > p || h.ptr[p] <= freep
    ensures p < freep ==> p < h.ptr[p] <= freep
  {
    InMaps(base, h, p);
    assert Linked(base, h, p);
    BlockBelow(base, h, brk, p);
    BlockBelow(base, h, brk, freep);
    BlockBelow(base, h, brk, h.ptr[p]);
  }

  lemma GrownNone(unit: map<nat, nat>, brk: nat)
    ensures Grown(unit, unit, brk, brk)
  {
  }

  lemma GrownSame(unit0: map<nat, nat>, unit: map<nat, nat>, unit': map<nat, nat>, brk: nat, brk': nat)
    requires Grown(unit0, unit, brk, brk') && unit'.Keys == unit.Keys
    ensures Grown(unit0, unit', brk, brk')
  {
  }

  /** Sizes fit the 32-bit field as long as the address space is below 64 GiB. */
  lemma SizesFit(base: nat, h: Heap, brk: nat, x: nat)
    requires Good(base, h) && base < brk <= 0x10_0000_0000 && (forall b :: b in h.unit ==> b < brk) && IsBlock(h, x)
    ensures Size(h, x) < 0x1_0000_0000
  {
    BlockBelow(base, h, brk, x);
    assert x == base ==> Size(h, x) == 0;
  }
}
