/** The in-memory signature of sumset.h. */
module Sumset {
  import opened Bytes

  const STRONG_LENGTH := 16   // RS_MD4_LENGTH

  /** rs_block_sig: blocks are numbered from one. */
  datatype BlockSig = BlockSig(i: nat, weak: nat, strong: seq<Byte>)

  /** rs_target: an entry of the tag index, `i` counting from zero. */
  datatype Target = Target(t: nat, i: nat)

  /** The value of a signature at some moment. */
  datatype SigValue = SigValue(blockLen: int, strongLen: int, blocks: seq<BlockSig>,
                       targets: seq<Target>, tagTable: seq<int>, oldFile: seq<Byte>)

  class Signature {
    var blockLen: int
    var strongLen: int
    var blocks: seq<BlockSig>
    var targets: seq<Target>
    var tagTable: seq<int>
    const oldFile: seq<Byte>

    constructor (oldFile: seq<Byte>)
      ensures Value() == SigValue(0, 0, [], [], [], oldFile)
    {
      this.oldFile := oldFile;
      blockLen, strongLen, blocks, targets, tagTable := 0, 0, [], [], [];
    }

    ghost function Value(): (r: SigValue)
      reads this
    {
      SigValue(blockLen, strongLen, blocks, targets, tagTable, oldFile)
    }
  }
}
