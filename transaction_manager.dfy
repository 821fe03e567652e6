/**
 * The storage card transaction manager: prepare calls check their arguments
 * at once and append a command to the pending list; processing runs the list
 * in order against the card, updating the memory image and the Mifare Classic
 * authentication state, and stops at the first failure.
 */
module Transaction {
  import opened Bytes
  import opened Results
  import opened Errors
  import opened ProductTypes
  import opened Card
  import opened Commands
  import opened Processing

  /** Policy for the physical channel once the commands are processed. */
  datatype ChannelControl = KeepOpen | CloseAfter

  class StorageCardTransactionManager {
    const session: Session
    /** The StorageCard of the transaction: its memory image and fixed session data. */
    var card: StorageCard
    var auth: AuthState
    var pending: seq<Command>
    /** The channel policy requested by the last batch processed without failure. */
    var channel: Option<ChannelControl>

    ghost predicate Valid()
      reads this
    {
      && WellFormed(card)
      && card.productType == session.product
      && AllOk(session, pending)
    }

    constructor (s: Session, c: StorageCard)
      requires WellFormed(c) && c.productType == s.product
      ensures Valid()
      ensures session == s && card == c && auth == Unauthenticated && pending == [] && channel == None
    {
      session, card, auth, pending, channel := s, c, Unauthenticated, [], None;
    }

    /** Appends a command that passed its checks. */
    method Append(cmd: Command)
      requires Valid() && CommandOk(session, cmd)
      modifies this`pending
      ensures Valid() && pending == old(pending) + [cmd]
    {
      pending := pending + [cmd];
    }

    /** prepareReadBlock: IllegalArgument outside 0..BlockCount-1. */
    method PrepareReadBlock(blockAddress: int) returns (r: Result<StorageCardTransactionManager, UsageError>)
      requires Valid()
      modifies this`pending
      ensures Valid()
      ensures r.Success? <==> InMainArea(session.product, blockAddress)
      ensures r.Success? ==> r.value == this && pending == old(pending) + [ReadBlock(blockAddress)]
      ensures r.Failure? ==> r.error == IllegalArgument && pending == old(pending)
    {
      if !InMainArea(session.product, blockAddress) {
        return Failure(IllegalArgument);
      }
      Append(ReadBlock(blockAddress));
      r := Success(this);
    }

    /** prepareReadBlocks: IllegalArgument unless 0 <= from <= to <= BlockCount-1; one command for the whole range. */
    method PrepareReadBlocks(fromBlockAddress: int, toBlockAddress: int)
      returns (r: Result<StorageCardTransactionManager, UsageError>)
      requires Valid()
      modifies this`pending
      ensures Valid()
      ensures r.Success? <==>
        InMainArea(session.product, fromBlockAddress) && InMainArea(session.product, toBlockAddress)
        && fromBlockAddress <= toBlockAddress
      ensures r.Success? ==> r.value == this && pending == old(pending) + [ReadBlocks(fromBlockAddress, toBlockAddress)]
      ensures r.Failure? ==> r.error == IllegalArgument && pending == old(pending)
    {
      if !(InMainArea(session.product, fromBlockAddress) && InMainArea(session.product, toBlockAddress)
           && fromBlockAddress <= toBlockAddress)
      {
        return Failure(IllegalArgument);
      }
      Append(ReadBlocks(fromBlockAddress, toBlockAddress));
      r := Success(this);
    }

    /**
     * prepareWriteBlocks: IllegalArgument when the length of `data` is not a
     * multiple of BlockSize; the command writes |data| / BlockSize blocks from
     * `fromBlockAddress` on.
     */
    method PrepareWriteBlocks(fromBlockAddress: int, data: seq<byte>)
      returns (r: Result<StorageCardTransactionManager, UsageError>)
      requires Valid()
      modifies this`pending
      ensures Valid()
      ensures r.Success? <==> |data| % BlockSize(session.product) == 0
      ensures r.Success? ==> r.value == this && pending == old(pending) + [WriteBlocks(fromBlockAddress, data)]
      ensures r.Success? ==> BlockTotal(session, WriteBlocks(fromBlockAddress, data)) * BlockSize(session.product) == |data|
      ensures r.Failure? ==> r.error == IllegalArgument && pending == old(pending)
    {
      if |data| % BlockSize(session.product) != 0 {
        return Failure(IllegalArgument);
      }
      Append(WriteBlocks(fromBlockAddress, data));
      r := Success(this);
    }

    /** prepareSt25ReadSystemBlock: UnsupportedOperation unless the card is an ST25/SRT512. */
    method PrepareSt25ReadSystemBlock() returns (r: Result<StorageCardTransactionManager, UsageError>)
      requires Valid()
      modifies this`pending
      ensures Valid()
      ensures r.Success? <==> session.product == St25Srt512
      ensures r.Success? ==> r.value == this && pending == old(pending) + [ReadSystemBlock]
      ensures r.Failure? ==> r.error == UnsupportedOperation && pending == old(pending)
    {
      if !HasSystemBlock(session.product) {
        return Failure(UnsupportedOperation);
      }
      Append(ReadSystemBlock);
      r := Success(this);
    }

    /**
     * prepareSt25WriteSystemBlock: UnsupportedOperation unless the card is an
     * ST25/SRT512, then IllegalArgument unless |data| is BlockSize.
     */
    method PrepareSt25WriteSystemBlock(data: seq<byte>) returns (r: Result<StorageCardTransactionManager, UsageError>)
      requires Valid()
      modifies this`pending
      ensures Valid()
      ensures r.Success? <==> session.product == St25Srt512 && |data| == BlockSize(session.product)
      ensures session.product != St25Srt512 ==> r == Failure(UnsupportedOperation)
      ensures r.Success? ==> r.value == this && pending == old(pending) + [WriteSystemBlock(data)]
      ensures r.Failure? ==> r.error in {IllegalArgument, UnsupportedOperation} && pending == old(pending)
      ensures r.Failure? && HasSystemBlock(session.product) ==> r.error == IllegalArgument
    {
      if !HasSystemBlock(session.product) {
        return Failure(UnsupportedOperation);
      }
      if |data| != BlockSize(session.product) {
        return Failure(IllegalArgument);
      }
      Append(WriteSystemBlock(data));
      r := Success(this);
    }

    /** prepareReadSystemBlock (deprecated): the same as PrepareSt25ReadSystemBlock. */
    method PrepareReadSystemBlock() returns (r: Result<StorageCardTransactionManager, UsageError>)
      requires Valid()
      modifies this`pending
      ensures Valid()
      ensures r.Success? <==> HasSystemBlock(session.product)
      ensures r.Success? ==> r.value == this && pending == old(pending) + [ReadSystemBlock]
      ensures r.Failure? ==> r.error == UnsupportedOperation && pending == old(pending)
    {
      r := PrepareSt25ReadSystemBlock();
    }

    /** prepareWriteSystemBlock (deprecated): the same as PrepareSt25WriteSystemBlock. */
    method PrepareWriteSystemBlock(data: seq<byte>) returns (r: Result<StorageCardTransactionManager, UsageError>)
      requires Valid()
      modifies this`pending
      ensures Valid()
      ensures r.Success? <==> HasSystemBlock(session.product) && |data| == BlockSize(session.product)
      ensures !HasSystemBlock(session.product) ==> r == Failure(UnsupportedOperation)
      ensures r.Success? ==> r.value == this && pending == old(pending) + [WriteSystemBlock(data)]
      ensures r.Failure? ==> r.error in {IllegalArgument, UnsupportedOperation} && pending == old(pending)
      ensures r.Failure? && HasSystemBlock(session.product) ==> r.error == IllegalArgument
    {
      r := PrepareSt25WriteSystemBlock(data);
    }

    /** Checks shared by the two authentication prepares. */
    method PrepareAuthenticate(blockAddress: int, keyType: KeyType, key: KeySource)
      returns (r: Result<StorageCardTransactionManager, UsageError>)
      requires Valid()
      modifies this`pending
      ensures Valid()
      ensures r.Success? <==> session.authentication && InMainArea(session.product, blockAddress) && KeyOk(session, key)
      ensures !session.authentication ==> r == Failure(UnsupportedOperation)
      ensures r.Success? ==> r.value == this && pending == old(pending) + [Authenticate(blockAddress, keyType, key)]
      ensures r.Failure? ==> pending == old(pending)
      ensures r.Failure? && session.authentication ==> r.error == IllegalArgument
    {
      if !session.authentication {
        return Failure(UnsupportedOperation);
      }
      if !(InMainArea(session.product, blockAddress) && KeyOk(session, key)) {
        return Failure(IllegalArgument);
      }
      Append(Authenticate(blockAddress, keyType, key));
      r := Success(this);
    }

    /**
     * prepareMifareClassicAuthenticate with a key value: UnsupportedOperation
     * when the card does not authenticate; IllegalArgument for a block out of
     * range or a key that is not exactly 6 bytes.
     */
    method PrepareMifareClassicAuthenticate(blockAddress: int, keyType: KeyType, key: seq<byte>)
      returns (r: Result<StorageCardTransactionManager, UsageError>)
      requires Valid()
      modifies this`pending
      ensures Valid()
      ensures r.Success? <==>
        session.authentication && InMainArea(session.product, blockAddress) && |key| == MifareClassicKeyLength
      ensures !session.authentication ==> r == Failure(UnsupportedOperation)
      ensures r.Success? ==> r.value == this && pending == old(pending) + [Authenticate(blockAddress, keyType, InlineKey(key))]
      ensures r.Failure? ==> pending == old(pending)
      ensures r.Failure? && session.authentication ==> r.error == IllegalArgument
    {
      r := PrepareAuthenticate(blockAddress, keyType, InlineKey(key));
    }

    /**
     * prepareMifareClassicAuthenticate with a key number: UnsupportedOperation
     * when the card does not authenticate; IllegalArgument for a block out of
     * range or a key number outside the reader's key storage.
     */
    method PrepareMifareClassicAuthenticateWithKeyNumber(blockAddress: int, keyType: KeyType, keyNumber: int)
      returns (r: Result<StorageCardTransactionManager, UsageError>)
      requires Valid()
      modifies this`pending
      ensures Valid()
      ensures r.Success? <==>
        session.authentication && InMainArea(session.product, blockAddress) && 0 <= keyNumber < session.keySlots
      ensures !session.authentication ==> r == Failure(UnsupportedOperation)
      ensures r.Success? ==> r.value == this && pending == old(pending) + [Authenticate(blockAddress, keyType, StoredKey(keyNumber))]
      ensures r.Failure? ==> pending == old(pending)
      ensures r.Failure? && session.authentication ==> r.error == IllegalArgument
    {
      r := PrepareAuthenticate(blockAddress, keyType, StoredKey(keyNumber));
    }

    /**
     * processCommands: runs the pending commands in order, each exchange
     * taking the next of `replies`, and stops at the first failure.  The new
     * image and authentication state are those of Run; the channel policy is
     * recorded only when every command succeeded.  The pending list is
     * emptied whatever the outcome.
     */
    method ProcessCommands(control: ChannelControl, replies: seq<Reply>) returns (outcome: Outcome<ProcessError>)
      requires Valid()
      modifies this
      ensures Valid()
      ensures var r := Run(session, old(State(card, auth)), old(pending), replies);
        card == r.state.card && auth == r.state.auth && outcome == r.outcome
      ensures card.uid == old(card.uid) && card.productType == old(card.productType)
      ensures channel == if outcome.Pass? then Some(control) else old(channel)
      ensures pending == []
    {
      var cmds := pending;
      ghost var r := Run(session, State(card, auth), cmds, replies);
      var st := State(card, auth);
      var rs := replies;
      var i := 0;
      outcome := Pass;
      while i < |cmds|
        invariant 0 <= i <= |cmds|
        invariant outcome == Pass
        invariant WellFormed(st.card) && st.card.productType == session.product
        invariant st.card.uid == card.uid
        invariant Run(session, st, cmds[i..], rs).state == r.state
        invariant Run(session, st, cmds[i..], rs).outcome == r.outcome
      {
        assert cmds[i..][0] == cmds[i] && cmds[i..][1..] == cmds[i + 1..];
        var x := Step(session, st, cmds[i], rs);
        st, rs := x.state, x.replies;
        if x.outcome.Fail? {
          outcome := x.outcome;
          break;
        }
        i := i + 1;
      }
      card, auth, pending := st.card, st.auth, [];
      if outcome.Pass? {
        channel := Some(control);
      }
    }

    /** Removing the card from the field ends every authentication. */
    method CardRemoved()
      requires Valid()
      modifies this`auth
      ensures Valid() && auth == Unauthenticated
    {
      auth := Unauthenticated;
    }
  }
}
