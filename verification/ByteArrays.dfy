/** Files as byte arrays: what a write does to one. */
module ByteArrays {
  import opened Blocks

  /** The bytes of c with those from off on replaced by bytes, growing c if they reach past its end. */
  function Splice(c: seq<Byte>, off: nat, bytes: seq<Byte>): seq<Byte>
    requires off <= |c|
  {
    c[..off] + bytes + (if off + |bytes| <= |c| then c[off + |bytes|..] else [])
  }

  lemma SpliceAt(c: seq<Byte>, off: nat, bytes: seq<Byte>, i: nat)
    requires off <= |c| && i < |Splice(c, off, bytes)|
    ensures Splice(c, off, bytes)[i] == if off <= i < off + |bytes| then bytes[i - off] else if i < |c| then c[i] else 0
  {
  }

  /** Two adjoining splices are one. */
  lemma SpliceTwice(c: seq<Byte>, off: nat, a: seq<Byte>, b: seq<Byte>)
    requires off <= |c|
    ensures off + |a| <= |Splice(c, off, a)|
    ensures Splice(Splice(c, off, a), off + |a|, b) == Splice(c, off, a + b)
  {
    var d := Splice(c, off, a);
    assert |Splice(d, off + |a|, b)| == |Splice(c, off, a + b)|;
    forall i: nat | i < |Splice(c, off, a + b)| ensures Splice(d, off + |a|, b)[i] == Splice(c, off, a + b)[i] {
      SpliceAt(c, off, a + b, i);
      SpliceAt(d, off + |a|, b, i);
      if i < |d| {
        SpliceAt(c, off, a, i);
      }
    }
  }

  /** The size of a file of old size a once bytes up to b are in place. */
  function Reach(a: nat, b: nat): nat {
    if a < b then b else a
  }

  function Least(a: nat, b: nat): nat {
    if a < b then a else b
  }

  lemma SpliceMore(c: seq<Byte>, off: nat, src: seq<Byte>, i: nat, n: nat, r: nat)
    requires r <= n && i + n <= |src|
    ensures off <= |c| ==> off + i <= |Splice(c, off, src[..i])|
    ensures off <= |c| ==> Splice(Splice(c, off, src[..i]), off + i, src[i..i + n][..r]) == Splice(c, off, src[..i + r])
  {
    assert src[..i] + src[i..i + n][..r] == src[..i + r];
    if off <= |c| {
      SpliceTwice(c, off, src[..i], src[i..i + n][..r]);
    }
  }

  lemma SpliceNothing(c: seq<Byte>, off: nat)
    ensures off <= |c| ==> Splice(c, off, []) == c
  {
  }

  lemma SpliceLength(c: seq<Byte>, off: nat, bytes: seq<Byte>)
    ensures off <= |c| ==> off + |bytes| <= |Splice(c, off, bytes)|
  {
  }
}
