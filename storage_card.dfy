/**
 * The memory image of a storage card: a sparse map from block address to the
 * block's bytes, where an absent address is a block never read.
 */
module Card {
  import opened Bytes
  import opened Results
  import opened Errors
  import opened ProductTypes

  /** The card as seen by the application: fixed session data and the memory image. */
  datatype StorageCard = StorageCard(productType: ProductType, uid: seq<byte>, blocks: map<int, seq<byte>>)

  /** Addresses the image can hold: the main area, plus the system block where the product has one. */
  predicate InImage(p: ProductType, address: int)
  {
    InMainArea(p, address) || (HasSystemBlock(p) && address == SystemBlockAddress)
  }

  /** Every stored block sits at an image address and has exactly BlockSize bytes. */
  ghost predicate WellFormed(c: StorageCard)
  {
    forall n :: n in c.blocks ==> InImage(c.productType, n) && |c.blocks[n]| == BlockSize(c.productType)
  }

  /** The image handed over at the start of a session, before any block is read. */
  function EmptyCard(p: ProductType, uid: seq<byte>): (c: StorageCard)
    ensures WellFormed(c) && c.productType == p && c.uid == uid
    ensures forall n :: n !in c.blocks
  {
    StorageCard(p, uid, map[])
  }

  /** The stored content of a block, or zeros for a block never read. */
  function BlockContent(c: StorageCard, n: int): seq<byte>
  {
    if n in c.blocks then c.blocks[n] else Zeros(BlockSize(c.productType))
  }

  /** getProductType: the product type the card was identified as. */
  function GetProductType(c: StorageCard): (p: ProductType)
    ensures p == c.productType
  {
    c.productType
  }

  /** getUID: the unique identifier read when the card was selected. */
  function GetUID(c: StorageCard): (u: seq<byte>)
    ensures u == c.uid
  {
    c.uid
  }

  /** getBlock: one block of the image; IllegalArgument out of range. */
  function GetBlock(c: StorageCard, blockNumber: int): (r: Result<seq<byte>, UsageError>)
    ensures r.Success? <==> InImage(c.productType, blockNumber)
    ensures r.Failure? ==> r.error == IllegalArgument
    ensures r.Success? && blockNumber in c.blocks ==> r.value == c.blocks[blockNumber]
    ensures r.Success? && blockNumber !in c.blocks ==> r.value == Zeros(BlockSize(c.productType))
    ensures r.Success? && WellFormed(c) ==> |r.value| == BlockSize(c.productType)
  {
    if InImage(c.productType, blockNumber) then Success(BlockContent(c, blockNumber))
    else Failure(IllegalArgument)
  }

  /** The contents of blocks from..to, in address order. */
  function Range(c: StorageCard, from: int, to: int): seq<seq<byte>>
  {
    seq(if from <= to then to - from + 1 else 0, j => BlockContent(c, from + j))
  }

  /**
   * getBlocks: blocks from..to of the main area concatenated in order, unread
   * blocks as zeros; IllegalArgument when from > to, from < 0 or to is past
   * the main area.
   */
  function GetBlocks(c: StorageCard, fromBlockNumber: int, toBlockNumber: int): (r: Result<seq<byte>, UsageError>)
    ensures r.Success? <==> 0 <= fromBlockNumber <= toBlockNumber < BlockCount(c.productType)
    ensures r.Failure? ==> r.error == IllegalArgument
    ensures r.Success? && WellFormed(c) ==>
      |r.value| == (toBlockNumber - fromBlockNumber + 1) * BlockSize(c.productType)
    ensures r.Success? && WellFormed(c) ==>
      forall i :: fromBlockNumber <= i <= toBlockNumber ==>
        Chunk(r.value, i - fromBlockNumber, BlockSize(c.productType)) == BlockContent(c, i)
  {
    if 0 <= fromBlockNumber <= toBlockNumber < BlockCount(c.productType) then
      RangeLayout(c, fromBlockNumber, toBlockNumber);
      Success(Flatten(Range(c, fromBlockNumber, toBlockNumber)))
    else
      Failure(IllegalArgument)
  }

  lemma RangeLayout(c: StorageCard, from: int, to: int)
    requires 0 <= from <= to < BlockCount(c.productType)
    ensures WellFormed(c) ==>
      |Flatten(Range(c, from, to))| == (to - from + 1) * BlockSize(c.productType)
    ensures WellFormed(c) ==>
      forall i :: from <= i <= to ==>
        Chunk(Flatten(Range(c, from, to)), i - from, BlockSize(c.productType)) == BlockContent(c, i)
  {
    if WellFormed(c) {
      var blocks := Range(c, from, to);
      var size := BlockSize(c.productType);
      forall j | 0 <= j < |blocks| ensures |blocks[j]| == size {
        assert blocks[j] == BlockContent(c, from + j);
      }
      FlattenLength(blocks, size);
      forall i | from <= i <= to
        ensures Chunk(Flatten(blocks), i - from, size) == BlockContent(c, i)
      {
        FlattenChunk(blocks, size, i - from);
      }
    }
  }

  /** A block in range that was never read reads as BlockSize zero bytes. */
  lemma UnreadBlockReadsAsZeros(c: StorageCard, n: int)
    requires InImage(c.productType, n) && n !in c.blocks
    ensures GetBlock(c, n) == Success(Zeros(BlockSize(c.productType)))
  {
  }

  /** The slice of getBlocks(from, to) for block i is what getBlock(i) returns. */
  lemma GetBlocksSliceIsGetBlock(c: StorageCard, from: int, to: int, i: int)
    requires WellFormed(c) && 0 <= from <= i <= to < BlockCount(c.productType)
    ensures GetBlocks(c, from, to).Success? && GetBlock(c, i).Success?
    ensures Chunk(GetBlocks(c, from, to).value, i - from, BlockSize(c.productType)) == GetBlock(c, i).value
  {
  }

  /** getBlocks is determined by the blocks it covers: images agreeing on from..to give the same bytes. */
  lemma {:induction false} GetBlocksDependsOnRangeOnly(c: StorageCard, c': StorageCard, from: int, to: int)
    requires WellFormed(c) && WellFormed(c') && c.productType == c'.productType
    requires 0 <= from <= to < BlockCount(c.productType)
    requires forall i :: from <= i <= to ==> BlockContent(c, i) == BlockContent(c', i)
    ensures GetBlocks(c, from, to) == GetBlocks(c', from, to)
  {
    assert Range(c, from, to) == Range(c', from, to);
  }
}
