/** The block writes of an operation, in order, and what they make of the disk. */
module Journal {
  import opened Blocks

  /** One log_write: the block and the contents it then has. */
  datatype BlockWrite = BlockWrite(b: nat, data: Block)

  ghost function Numbers(log: seq<BlockWrite>): set<nat> {
    set k | 0 <= k < |log| :: log[k].b
  }

  function Replay(blocks: seq<Block>, log: seq<BlockWrite>): (r: seq<Block>)
    ensures |r| == |blocks|
    decreases |log|
  {
    if log == [] then blocks
    else
      var r, w := Replay(blocks, log[..|log| - 1]), log[|log| - 1];
      if w.b < |r| then r[w.b := w.data] else r
  }

  lemma NumbersPlus(a: seq<BlockWrite>, b: seq<BlockWrite>)
    ensures Numbers(a + b) == Numbers(a) + Numbers(b)
  {
    forall x | x in Numbers(a) + Numbers(b) ensures x in Numbers(a + b) {
      if x in Numbers(a) {
        var k :| 0 <= k < |a| && a[k].b == x;
        assert (a + b)[k].b == x;
      } else {
        var k :| 0 <= k < |b| && b[k].b == x;
        assert (a + b)[|a| + k].b == x;
      }
    }
  }

  lemma NumbersOne(w: BlockWrite)
    ensures Numbers([w]) == {w.b}
  {
    assert [w][0] == w;
  }

  lemma {:induction false} ReplayPlus(blocks: seq<Block>, a: seq<BlockWrite>, b: seq<BlockWrite>)
    ensures Replay(blocks, a + b) == Replay(Replay(blocks, a), b)
    decreases |b|
  {
    if b == [] {
      assert a + b == a;
    } else {
      ReplayPlus(blocks, a, b[..|b| - 1]);
      assert (a + b)[..|a + b| - 1] == a + b[..|b| - 1];
    }
  }

  /** A block that is not written stays. */
  lemma {:induction false} ReplayKeeps(blocks: seq<Block>, log: seq<BlockWrite>, x: nat)
    requires x < |blocks| && x !in Numbers(log)
    ensures Replay(blocks, log)[x] == blocks[x]
    decreases |log|
  {
    if log != [] {
      assert log == log[..|log| - 1] + [log[|log| - 1]];
      NumbersPlus(log[..|log| - 1], [log[|log| - 1]]);
      NumbersOne(log[|log| - 1]);
      ReplayKeeps(blocks, log[..|log| - 1], x);
    }
  }

  lemma ReplayOne(blocks: seq<Block>, w: BlockWrite)
    requires w.b < |blocks|
    ensures Replay(blocks, [w]) == blocks[w.b := w.data]
  {
    assert [w][..0] == [];
  }
}
