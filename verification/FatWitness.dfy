/** A volume of one cluster, on which all three reads outside the table happen. */
module FatWitness {
  import opened Blocks
  import opened FatChains
  import FV = FatVolume

  /** After one file has been created and its cluster filled, writing past it, creating another file and
      truncating the first to its size all leave the table. */
  method ReadsOutside(b: Byte) returns (write: bool, create: bool, truncate: bool)
    ensures write && create && truncate
  {
    var fat := new nat[3](_ => FREE);
    var data := new seq<Byte>[3](_ => [b]);
    var v := new FV.FatVolume(1, 1, fat, data, [], []);
    assert v.Valid();
    assert fat[..][2] == FREE;
    var f, fault := v.Create();
    var r;
    r, fault := v.Pwrite(f, [b], 0);
    assert r == 1;
    r, write := v.Pwrite(f, [b], 1);
    v.errno := 0; // the caller's, before its next call
    var f';
    f', create := v.Create();
    truncate := v.Truncate(f, 1);
  }
}
