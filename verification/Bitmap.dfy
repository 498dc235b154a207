/** A free-map block: BSIZE bytes of eight bits, tested and changed with a mask 1 << (bi % 8). */
module Bitmap {
  import opened Blocks

  const BPB: nat := 8192   // bits per block

  /** x & (1 << k), as a truth value. */
  predicate HasBit(x: nat, k: nat) {
    if k == 0 then x % 2 == 1 else HasBit(x / 2, k - 1)
  }

  /** x | (1 << k). */
  function WithBit(x: nat, k: nat): nat {
    if k == 0 then x - x % 2 + 1 else 2 * WithBit(x / 2, k - 1) + x % 2
  }

  /** x & ~(1 << k). */
  function WithoutBit(x: nat, k: nat): nat {
    if k == 0 then x - x % 2 else 2 * WithoutBit(x / 2, k - 1) + x % 2
  }

  function Pow2(n: nat): nat {
    if n == 0 then 1 else 2 * Pow2(n - 1)
  }

  lemma {:induction false} BitLaws(x: nat, k: nat, j: nat)
    ensures HasBit(WithBit(x, k), j) == (j == k || HasBit(x, j))
    ensures HasBit(WithoutBit(x, k), j) == (j != k && HasBit(x, j))
  {
    if k == 0 {
      assert WithBit(x, 0) / 2 == x / 2 && WithoutBit(x, 0) / 2 == x / 2;
    } else {
      assert WithBit(x, k) / 2 == WithBit(x / 2, k - 1) && WithoutBit(x, k) / 2 == WithoutBit(x / 2, k - 1);
      if j > 0 {
        BitLaws(x / 2, k - 1, j - 1);
      }
    }
  }

  lemma {:induction false} BitRange(x: nat, k: nat, n: nat)
    requires k < n && x < Pow2(n)
    ensures WithBit(x, k) < Pow2(n) && WithoutBit(x, k) < Pow2(n)
  {
    if k > 0 {
      BitRange(x / 2, k - 1, n - 1);
    }
  }

  function WithBitByte(x: Byte, k: nat): Byte
    requires k < 8
  {
    assert Pow2(8) == 256;
    BitRange(x, k, 8);
    WithBit(x, k)
  }

  function WithoutBitByte(x: Byte, k: nat): Byte
    requires k < 8
  {
    assert Pow2(8) == 256;
    BitRange(x, k, 8);
    WithoutBit(x, k)
  }

  predicate TestBit(b: Block, bi: nat)
    requires bi < BPB
  {
    HasBit(b[bi / 8], bi % 8)
  }

  function SetBit(b: Block, bi: nat): Block
    requires bi < BPB
  {
    b[bi / 8 := WithBitByte(b[bi / 8], bi % 8)]
  }

  function ClearBit(b: Block, bi: nat): Block
    requires bi < BPB
  {
    b[bi / 8 := WithoutBitByte(b[bi / 8], bi % 8)]
  }

  /** Setting or clearing one bit of a block changes that bit alone. */
  lemma BlockBits(b: Block, bi: nat, j: nat)
    requires bi < BPB && j < BPB
    ensures TestBit(SetBit(b, bi), j) == (j == bi || TestBit(b, j))
    ensures TestBit(ClearBit(b, bi), j) == (j != bi && TestBit(b, j))
  {
    BitLaws(b[bi / 8], bi % 8, j % 8);
  }
}
