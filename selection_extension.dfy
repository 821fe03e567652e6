/**
 * The storage card selection extension: reads prepared here run during card
 * selection, and their results seed the memory image of the selected card.
 */
module Selection {
  import opened Bytes
  import opened Results
  import opened Errors
  import opened ProductTypes
  import opened Card
  import opened Commands
  import opened Processing
  import opened ProcessingProperties

  /** Selection knows the product type only: no authentication takes place. */
  function SelectionSession(p: ProductType): Session
  {
    Session(p, false, _ => 0, 0)
  }

  class StorageCardSelectionExtension {
    const productType: ProductType
    var pending: seq<Command>

    ghost predicate Valid()
      reads this
    {
      forall i :: 0 <= i < |pending| ==>
        (pending[i].ReadBlock? || pending[i].ReadBlocks?) && CommandOk(SelectionSession(productType), pending[i])
    }

    /** An extension for cards of the given product type, with no command yet. */
    constructor (p: ProductType)
      ensures Valid() && productType == p && pending == []
    {
      productType, pending := p, [];
    }

    /** prepareReadBlock: IllegalArgument outside 0..BlockCount-1; returns this instance. */
    method PrepareReadBlock(blockAddress: int) returns (r: Result<StorageCardSelectionExtension, UsageError>)
      requires Valid()
      modifies this
      ensures Valid()
      ensures r.Success? <==> InMainArea(productType, blockAddress)
      ensures r.Success? ==> r.value == this && pending == old(pending) + [ReadBlock(blockAddress)]
      ensures r.Failure? ==> r.error == IllegalArgument && pending == old(pending)
    {
      if !InMainArea(productType, blockAddress) {
        return Failure(IllegalArgument);
      }
      pending := pending + [ReadBlock(blockAddress)];
      r := Success(this);
    }

    /** prepareReadBlocks: IllegalArgument unless 0 <= from <= to <= BlockCount-1; returns this instance. */
    method PrepareReadBlocks(fromBlockAddress: int, toBlockAddress: int)
      returns (r: Result<StorageCardSelectionExtension, UsageError>)
      requires Valid()
      modifies this
      ensures Valid()
      ensures r.Success? <==>
        InMainArea(productType, fromBlockAddress) && InMainArea(productType, toBlockAddress)
        && fromBlockAddress <= toBlockAddress
      ensures r.Success? ==> r.value == this && pending == old(pending) + [ReadBlocks(fromBlockAddress, toBlockAddress)]
      ensures r.Failure? ==> r.error == IllegalArgument && pending == old(pending)
    {
      if !(InMainArea(productType, fromBlockAddress) && InMainArea(productType, toBlockAddress)
           && fromBlockAddress <= toBlockAddress)
      {
        return Failure(IllegalArgument);
      }
      pending := pending + [ReadBlocks(fromBlockAddress, toBlockAddress)];
      r := Success(this);
    }
  }

  /** The reads of a selection run on an empty image. */
  function SelectionRun(p: ProductType, uid: seq<byte>, cmds: seq<Command>, replies: seq<Reply>): RunResult
  {
    Run(SelectionSession(p), State(EmptyCard(p, uid), Unauthenticated), cmds, replies)
  }

  /** The card a successful selection hands to the application: its UID, its product type and the blocks read. */
  function SelectedCard(p: ProductType, uid: seq<byte>, cmds: seq<Command>, replies: seq<Reply>)
    : (r: Result<StorageCard, ProcessError>)
    ensures r.Success? <==> SelectionRun(p, uid, cmds, replies).outcome.Pass?
    ensures r.Success? ==> r.value.productType == p && r.value.uid == uid
    ensures r.Success? && AllOk(SelectionSession(p), cmds) ==> WellFormed(r.value)
    ensures r.Failure? ==> SelectionRun(p, uid, cmds, replies).outcome == Fail(r.error)
  {
    var x := SelectionRun(p, uid, cmds, replies);
    if x.outcome.Pass? then Success(x.state.card) else Failure(x.outcome.error)
  }

  /**
   * A block read during selection is available through getBlock of the
   * selected card, holding the bytes of the last read that covered it.
   */
  lemma SelectedBlocksAvailable(p: ProductType, uid: seq<byte>, pre: seq<Command>, cmd: Command, post: seq<Command>,
                                replies: seq<Reply>, b: int)
    requires IsRead(cmd) && CommandOk(SelectionSession(p), cmd) && Touches(SelectionSession(p), cmd, b)
    requires !ReadBy(SelectionSession(p), post, b)
    requires SelectedCard(p, uid, pre + [cmd] + post, replies).Success?
    ensures var before := SelectionRun(p, uid, pre, replies);
      && before.outcome == Pass && before.replies != [] && before.replies[0].Answer?
      && GetBlock(SelectedCard(p, uid, pre + [cmd] + post, replies).value, b)
         == Success(Chunk(before.replies[0].data, b - FirstBlock(cmd), BlockSize(p)))
  {
    assert pre + [cmd] + post == pre + ([cmd] + post);
    LastReadWins(SelectionSession(p), State(EmptyCard(p, uid), Unauthenticated), pre, cmd, post, replies, b);
  }

  /** A block no selection read covered reads as zeros on the selected card. */
  lemma UnselectedBlocksAreZeros(p: ProductType, uid: seq<byte>, cmds: seq<Command>, replies: seq<Reply>, b: int)
    requires InMainArea(p, b) && !ReadBy(SelectionSession(p), cmds, b)
    requires SelectedCard(p, uid, cmds, replies).Success?
    ensures GetBlock(SelectedCard(p, uid, cmds, replies).value, b) == Success(Zeros(BlockSize(p)))
  {
    UnreadBlocksUntouched(SelectionSession(p), State(EmptyCard(p, uid), Unauthenticated), cmds, replies, b);
  }
}
