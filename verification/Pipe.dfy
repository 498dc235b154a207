/** kernel/pipe.c: a ring of PIPESIZE bytes between counters of 32 bits that wrap. A call holds the
    pipe's lock except while it sleeps, so any run of any number of readers and writers is a
    sequence of the stretches below, each from the lock to the next sleep or return. */
module Pipe {
  import opened Blocks
  import opened ByteArrays

  const PIPESIZE: nat := 512

  /** How a stretch ends: asleep with i bytes done, or returning a value. */
  datatype Outcome = Sleeps | Returns(value: int)

  class Pipe {
    const data: array<Byte>
    var nread: nat
    var nwrite: nat
    var readopen: bool
    var writeopen: bool
    ghost var put: seq<Byte>   // all bytes ever written
    ghost var got: seq<Byte>   // all bytes ever taken out

    /** What was taken is a prefix of what was put, at most PIPESIZE bytes are in flight, and the
        ring holds them where the wrapped counters say. */
    ghost predicate Valid()
      reads this, data
    {
      && data.Length == PIPESIZE
      && got <= put && |put| - |got| <= PIPESIZE
      && nread == |got| % WORD_LIMIT && nwrite == |put| % WORD_LIMIT
      && forall k: nat :: |got| <= k < |put| ==> data[k % PIPESIZE] == put[k]
    }

    constructor ()
      ensures Valid() && fresh(data) && put == [] && got == [] && readopen && writeopen
    {
      data := new Byte[PIPESIZE](_ => 0);
      nread, nwrite, readopen, writeopen := 0, 0, true, true;
      put, got := [], [];
    }

    /** Both counters wrap, so full and empty are tested by differences only. */
    lemma Counters()
      requires Valid()
      ensures nwrite == (nread + PIPESIZE) % WORD_LIMIT <==> |put| == |got| + PIPESIZE
      ensures nread == nwrite <==> |put| == |got|
      ensures nwrite % PIPESIZE == |put| % PIPESIZE && nread % PIPESIZE == |got| % PIPESIZE
    {
      Residues(|put|);
      Residues(|got|);
    }

    method PutByte(ch: Byte)
      requires Valid() && |put| < |got| + PIPESIZE
      modifies this`nwrite, this`put, data
      ensures Valid() && put == old(put) + [ch]
    {
      Counters();
      ghost var n := |put|;
      forall k: nat | |got| <= k < n ensures k % PIPESIZE != n % PIPESIZE {
        Apart(k, n);
      }
      data[nwrite % PIPESIZE] := ch;
      nwrite := (nwrite + 1) % WORD_LIMIT;
      put := put + [ch];
      Succ(n);
    }

    method TakeByte() returns (ch: Byte)
      requires Valid() && |got| < |put|
      modifies this`nread, this`got
      ensures Valid() && ch == put[|old(got)|] && got == old(got) + [ch]
    {
      Counters();
      ch := data[nread % PIPESIZE];
      Succ(|got|);
      nread := (nread + 1) % WORD_LIMIT;
      got := got + [ch];
    }

    /** pipewrite from byte i0 of src on; readable says how many bytes of src the user memory yields,
        and killed what the process sees before each byte. */
    method Write(src: seq<Byte>, i0: nat, readable: nat, killed: seq<bool>) returns (i: nat, outcome: Outcome)
      requires Valid() && i0 <= |src| == |killed|
      modifies this`nwrite, this`put, data
      ensures Valid() && i0 <= i <= |src| && put == old(put) + src[i0..i]
      ensures outcome == Sleeps ==> i < |src| && |put| == |got| + PIPESIZE && readopen && !killed[i]
      ensures outcome.Returns? && outcome.value != -1 ==> outcome.value == i && (i == |src| || i >= readable)
      ensures outcome == Returns(i) && i < |src| ==> readopen && !killed[i] && |put| < |got| + PIPESIZE
      ensures outcome == Returns(-1) ==> i < |src| && (!readopen || killed[i])
      ensures (i > i0 ==> readopen) && forall k :: i0 <= k < i ==> !killed[k]
    {
      i := i0;
      assert src[i0..i0] == [];
      while i < |src|
        invariant Valid() && i0 <= i <= |src| && put == old(put) + src[i0..i]
        invariant (i > i0 ==> readopen) && forall k :: i0 <= k < i ==> !killed[k]
      {
        if !readopen || killed[i] {
          return i, Returns(-1);
        }
        Counters();
        if nwrite == (nread + PIPESIZE) % WORD_LIMIT {
          return i, Sleeps;
        }
        if i >= readable {
          break;
        }
        PutByte(src[i]);
        assert src[i0..i] + [src[i]] == src[i0..i + 1];
        i := i + 1;
      }
      return i, Returns(i);
    }

    /** piperead of up to n bytes; writable says how many bytes the user memory takes. out are the
        bytes delivered; one more is taken and lost when the user memory fails. */
    method Read(n: nat, writable: nat, killed: bool) returns (out: seq<Byte>, outcome: Outcome)
      requires Valid()
      modifies this`nread, this`got
      ensures Valid()
      ensures outcome == Sleeps <==> old(got) == put && writeopen && !killed
      ensures outcome == Returns(-1) <==> old(got) == put && writeopen && killed
      ensures outcome == Sleeps || outcome == Returns(-1) ==> out == [] && got == old(got)
      ensures outcome.Returns? && outcome.value != -1 ==>
                outcome.value == |out| == Least(Least(n, writable), |put| - |old(got)|)
                && old(got) + out <= got && |got| == Least(|old(got)| + |out| + (if writable < n then 1 else 0), |put|)
    {
      Counters();
      out := [];
      if nread == nwrite && writeopen {
        if killed {
          return [], Returns(-1);
        }
        return [], Sleeps;
      }
      var i := 0;
      while i < n
        invariant 0 <= i <= n && i <= writable && Valid() && |out| == i && got == old(got) + out
        invariant |got| <= |put|
      {
        Counters();
        if nread == nwrite {
          break;
        }
        var ch := TakeByte();
        if i >= writable {
          break;
        }
        out := out + [ch];
        i := i + 1;
      }
      return out, Returns(i);
    }

    /** pipeclose of one end; the page goes back to kalloc with the last. */
    method Close(writable: bool) returns (freed: bool)
      requires Valid()
      modifies this`readopen, this`writeopen
      ensures Valid() && writeopen == (old(writeopen) && !writable) && readopen == (old(readopen) && writable)
      ensures freed <==> !readopen && !writeopen
    {
      if writable {
        writeopen := false;
      } else {
        readopen := false;
      }
      freed := !readopen && !writeopen;
    }
  }

  lemma Residues(n: nat)
    ensures n % WORD_LIMIT % PIPESIZE == n % PIPESIZE
  {
    assert PIPESIZE == 512 && WORD_LIMIT == 0x80_0000 * 512;
    var q, r := n / 0x1_0000_0000, n % 0x1_0000_0000;
    assert n == 512 * (0x80_0000 * q + r / 512) + r % 512;
  }

  lemma Succ(n: nat)
    ensures (n % WORD_LIMIT + 1) % WORD_LIMIT == (n + 1) % WORD_LIMIT
  {
  }

  lemma Apart(k: nat, n: nat)
    requires k < n < k + PIPESIZE
    ensures k % PIPESIZE != n % PIPESIZE
  {
  }
}
