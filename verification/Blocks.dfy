/** Disk blocks as the kernel sees them: BSIZE bytes that are also read as
    little-endian 32-bit words (log header, indirect block, on-disk inode)
    and as bits (free map). */
module Blocks {
  const BSIZE: nat := 1024
  const WORDS: nat := 256
  const WORD_LIMIT: nat := 0x1_0000_0000

  type Byte = x: int | 0 <= x < 256
  type Block = b: seq<Byte> | |b| == BSIZE witness seq(BSIZE, _ => 0)

  datatype Option<+T> = None | Some(value: T)

  /** A block of zeros: what bzero leaves, and a buffer that was never filled. */
  function Zeroed(): Block {
    seq(BSIZE, _ => 0)
  }

  function LittleEndian(b0: int, b1: int, b2: int, b3: int): int {
    b0 + 0x100 * b1 + 0x1_0000 * b2 + 0x100_0000 * b3
  }

  /** The i-th 32-bit word of a block. */
  function Word(b: Block, i: nat): (w: nat)
    requires i < WORDS
    ensures w < WORD_LIMIT
  {
    LittleEndian(b[4 * i], b[4 * i + 1], b[4 * i + 2], b[4 * i + 3])
  }

  function SetWord(b: Block, i: nat, w: nat): (r: Block)
    requires i < WORDS && w < WORD_LIMIT
  {
    b[4 * i := w % 0x100][4 * i + 1 := w / 0x100 % 0x100]
     [4 * i + 2 := w / 0x1_0000 % 0x100][4 * i + 3 := w / 0x100_0000]
  }

  /** Store consecutive words, as a memmove of an int array does. */
  function SetWords(b: Block, at: nat, ws: seq<nat>): Block
    requires at + |ws| <= WORDS
    requires forall k :: 0 <= k < |ws| ==> ws[k] < WORD_LIMIT
    decreases |ws|
  {
    if ws == [] then b
    else SetWord(SetWords(b, at, ws[..|ws| - 1]), at + |ws| - 1, ws[|ws| - 1])
  }

  lemma DigitsOfWord(w: nat)
    ensures LittleEndian(w % 0x100, w / 0x100 % 0x100, w / 0x1_0000 % 0x100, w / 0x100_0000) == w
  {
    assert w / 0x1_0000 == w / 0x100 / 0x100 && w / 0x100_0000 == w / 0x1_0000 / 0x100;
  }

  lemma WordOfSetWord(b: Block, i: nat, w: nat, j: nat)
    requires i < WORDS && j < WORDS && w < WORD_LIMIT
    ensures Word(SetWord(b, i, w), j) == if i == j then w else Word(b, j)
  {
    DigitsOfWord(w);
  }

  /** Storing words and reading them back: the written words are found, every other is kept. */
  lemma {:induction false} WordOfSetWords(b: Block, at: nat, ws: seq<nat>, j: nat)
    requires at + |ws| <= WORDS && j < WORDS
    requires forall k :: 0 <= k < |ws| ==> ws[k] < WORD_LIMIT
    ensures Word(SetWords(b, at, ws), j) == if at <= j < at + |ws| then ws[j - at] else Word(b, j)
    decreases |ws|
  {
    if ws != [] {
      WordOfSetWords(b, at, ws[..|ws| - 1], j);
      WordOfSetWord(SetWords(b, at, ws[..|ws| - 1]), at + |ws| - 1, ws[|ws| - 1], j);
    }
  }
}
