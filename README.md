# Keypop storage card API — a verified model

This project models the storage card API of Eclipse Keypop: the commands an
application prepares for a storage card (Mifare Ultralight, ST25/SRT512, and
cards supporting Mifare Classic sector authentication), how a transaction
manager processes them against the card, and the memory image of the card
(the `StorageCard`) that reads fill in and the application then queries.

- `results.dfy` (Results): Option, Result and Outcome.
- `errors.dfy` (Errors): the exceptions. Usage errors are thrown by prepare calls and accessors. Every processing error except InconsistentData carries the address of the block involved, or none.
- `bytes.dfy` (Bytes): bytes, splitting a byte string into blocks and concatenating it back, with the lemmas relating the two.
- `product_type.dfy` (ProductTypes): the two product types and their geometry (16 blocks of 4 bytes each), plus the ST25/SRT512 system block at address 255.
- `storage_card.dfy` (Card): the memory image as a sparse map from block address to bytes. It provides `getBlock` and `getBlocks`; a block never read reads as zeros.
- `commands.dfy` (Commands): prepared commands and the argument rules they passed.
- `processing.dfy` (Processing): processing as a function of the state and of the card's replies.
  - The card is an oracle: a sequence of replies, one per exchange.
  - A read stores the blocks it receives.
  - A write never changes the image. On ST25/SRT512 a block write is followed by a verification read.
  - Authentication keeps one sector authenticated at a time.
  - Processing stops at the first failure.
- `processing_properties.dfy` (ProcessingProperties): what processing promises, stated over whole batches.
- `transaction_manager.dfy` (Transaction): the transaction manager as a class.
  - Prepare methods check their arguments and append a command to the pending list.
  - `ProcessCommands` runs the list with a loop that is proved equal to the functional semantics.
- `selection_extension.dfy` (Selection): reads prepared for card selection, and the selected card they produce.

External inputs are parameters:
- The card's replies are a sequence of `Reply` values.
- What the model cannot see of the card sits in `Session`: whether it accepts Mifare Classic authentication, how its block addresses map to sectors, and how many keys the reader stores.

## Model

| member | source | states |
|---|---|---|
| ProductTypes.ProductTable | src/main/java/org/eclipse/keypop/storagecard/card/ProductType.java:24-31 | Mifare Ultralight and ST25/SRT512 both have 16 blocks of 4 bytes |
| ProductTypes.BlockCount | src/main/java/org/eclipse/keypop/storagecard/card/ProductType.java:47-58 | the main area has a positive number of blocks, below the system block address, which it does not count |
| ProductTypes.BlockSize | src/main/java/org/eclipse/keypop/storagecard/card/ProductType.java:60-68 | blocks have a positive size in bytes |
| ProductTypes.SystemBlockOutsideMainArea | src/main/java/org/eclipse/keypop/storagecard/card/ProductType.java:50-51 | the system block (address 255) is never a main-area address |
| Card.GetProductType | src/main/java/org/eclipse/keypop/storagecard/card/StorageCard.java:21-27 | returns the card's product type; SessionDataFixed and ProcessCommands show that no batch changes it |
| Card.GetUID | src/main/java/org/eclipse/keypop/storagecard/card/StorageCard.java:29-34 | returns the card's UID; SessionDataFixed and ProcessCommands show that no batch changes it |
| Card.GetBlock | src/main/java/org/eclipse/keypop/storagecard/card/StorageCard.java:36-44 | succeeds exactly for a main-area address or the ST25 system block, and otherwise fails with IllegalArgument; returns the stored bytes of a block that was read, zeros for one that was not, and always BlockSize bytes on a well-formed image |
| Card.GetBlocks | src/main/java/org/eclipse/keypop/storagecard/card/StorageCard.java:46-59 | succeeds exactly when 0 <= from <= to < BlockCount and otherwise fails with IllegalArgument; the result holds (to-from+1)*BlockSize bytes, and its i-th block is block from+i of the image, or zeros if unread |
| Card.UnreadBlockReadsAsZeros | src/main/java/org/eclipse/keypop/storagecard/card/StorageCard.java:49-50 | a block of the image that was never read reads as BlockSize zero bytes |
| Card.GetBlocksSliceIsGetBlock | src/main/java/org/eclipse/keypop/storagecard/card/StorageCard.java:47-49 | each block-sized slice of getBlocks(from, to) is what getBlock returns for that block |
| Card.GetBlocksDependsOnRangeOnly | src/main/java/org/eclipse/keypop/storagecard/card/StorageCard.java:47-50 | two images that agree on blocks from..to give the same getBlocks(from, to) |
| Processing.Store | src/main/java/org/eclipse/keypop/storagecard/transaction/StorageCardTransactionManager.java:39-40 | storing n blocks sets addresses from..from+n-1 to the successive blocks of the data and keeps every other entry |
| Processing.FirstMismatch | src/main/java/org/eclipse/keypop/storagecard/CardIOException.java:24-26 | gives the least block at which the written and the re-read data differ, or n when they agree |
| Processing.MismatchFound | src/main/java/org/eclipse/keypop/storagecard/CardIOException.java:24-26 | two different byte strings of n blocks differ in some block below n |
| Processing.ReadStep | src/main/java/org/eclipse/keypop/storagecard/transaction/StorageCardTransactionManager.java:39-40 | a read keeps the UID and product type and leaves the image unchanged when it fails. It consumes exactly one reply, or none when none is left |
| Processing.VerificationRead | src/main/java/org/eclipse/keypop/storagecard/transaction/StorageCardTransactionManager.java:181-186 | the verification read never changes the state. It consumes exactly one reply, or none when none is left; an answer of the wrong length is reported at the first written block |
| Processing.WriteStep | src/main/java/org/eclipse/keypop/storagecard/transaction/StorageCardTransactionManager.java:42-45 | a write never changes the memory image |
| Processing.AuthStep | src/main/java/org/eclipse/keypop/storagecard/transaction/StorageCardTransactionManager.java:201-203 | an authentication never changes the memory image. It consumes exactly one reply, or none when none is left |
| Processing.ReadStepWellFormed | src/main/java/org/eclipse/keypop/storagecard/transaction/StorageCardTransactionManager.java:39-40 | a read of a validly prepared command keeps the image well formed: stored blocks are at image addresses and hold BlockSize bytes |
| Processing.Step | src/main/java/org/eclipse/keypop/storagecard/transaction/StorageCardTransactionManager.java:36-45 | one command keeps UID and product type; only a successful read changes the image; it consumes no more replies than given; a valid command keeps the image well formed |
| Processing.Run | src/main/java/org/eclipse/keypop/storagecard/transaction/StorageCardTransactionManager.java:33-47 | a batch processes at most all its commands, succeeds exactly when all of them succeeded, keeps UID and product type, and keeps a well-formed image well formed |
| ProcessingProperties.SessionDataFixed | src/main/java/org/eclipse/keypop/storagecard/card/StorageCard.java:21-34 | whatever a batch does, getProductType and getUID of the card return what they returned before it |
| ProcessingProperties.FailFast | src/main/java/org/eclipse/keypop/storagecard/transaction/StorageCardTransactionManager.java:47 | once a batch fails, appending commands to it changes neither the outcome nor the final state |
| ProcessingProperties.RunAppend | src/main/java/org/eclipse/keypop/storagecard/transaction/StorageCardTransactionManager.java:33-37 | a successful batch hands its state and its remaining replies to the commands after it |
| ProcessingProperties.PrefixPasses | src/main/java/org/eclipse/keypop/storagecard/transaction/StorageCardTransactionManager.java:47 | every prefix of a successful batch succeeds |
| ProcessingProperties.FailureKeepsEarlierUpdates | src/main/java/org/eclipse/keypop/storagecard/transaction/StorageCardTransactionManager.java:36-47 | a failed batch stops at command k: commands before k all succeeded, the outcome is that of command k, and the image is exactly the one the earlier commands left |
| ProcessingProperties.NoReadsKeepImage | src/main/java/org/eclipse/keypop/storagecard/transaction/StorageCardTransactionManager.java:42-45 | a batch of writes and authentications leaves the image as it was, whatever its outcome |
| ProcessingProperties.StepKeepsOtherBlocks | src/main/java/org/eclipse/keypop/storagecard/transaction/StorageCardTransactionManager.java:39-40 | a command that does not read block b leaves block b as it was (stored or unread) |
| ProcessingProperties.UnreadBlocksUntouched | src/main/java/org/eclipse/keypop/storagecard/transaction/StorageCardTransactionManager.java:39-45 | a block that no read of a batch covers keeps its content, or stays unread |
| ProcessingProperties.ReadStepStores | src/main/java/org/eclipse/keypop/storagecard/transaction/StorageCardTransactionManager.java:39-40 | a read succeeds exactly when the card answers with BlockSize bytes per block read, and then stores those bytes block by block and consumes one reply |
| ProcessingProperties.LastReadWins | src/main/java/org/eclipse/keypop/storagecard/transaction/StorageCardTransactionManager.java:39-40 | in a successful batch, a block holds the bytes given by the last read that covered it |
| ProcessingProperties.ReadThenGetBlocks | src/main/java/org/eclipse/keypop/storagecard/transaction/StorageCardTransactionManager.java:155-170 | after reading blocks from..to, getBlocks(from, to) returns exactly the bytes the card sent |
| ProcessingProperties.ReadThenGetBlock | src/main/java/org/eclipse/keypop/storagecard/transaction/StorageCardTransactionManager.java:139-153 | after reading a block (or the ST25 system block), getBlock returns exactly the bytes the card sent |
| ProcessingProperties.WriteExchanges | src/main/java/org/eclipse/keypop/storagecard/transaction/StorageCardTransactionManager.java:181-186 | a write leaves the image unchanged. A block write on an ST25/SRT512 needs an accepted exchange and a second exchange whose answer equals the written data, consuming two replies. Every other write needs one accepted exchange, consuming one reply. The write succeeds exactly then |
| ProcessingProperties.SystemBlockWriteNotVerified | src/main/java/org/eclipse/keypop/storagecard/transaction/StorageCardTransactionManager.java:123-127 | a system block write gets no automatic verification read, even on ST25/SRT512: it succeeds when the card accepts it and uses one reply |
| ProcessingProperties.AcceptedWriteIsVerified | src/main/java/org/eclipse/keypop/storagecard/transaction/StorageCardTransactionManager.java:181-186 | on ST25/SRT512, a block write the card accepts succeeds or fails as the verification read of the same blocks does |
| ProcessingProperties.WriteDataLength | src/main/java/org/eclipse/keypop/storagecard/transaction/StorageCardTransactionManager.java:176-179 | a validly prepared write carries exactly BlockSize bytes for each block it writes |
| ProcessingProperties.VerificationReadMismatch | src/main/java/org/eclipse/keypop/storagecard/CardIOException.java:24-26 | a verification read of different bytes fails with a card I/O error at the first differing block |
| ProcessingProperties.VerificationMismatch | src/main/java/org/eclipse/keypop/storagecard/CardIOException.java:24-26 | on ST25/SRT512, a block write whose verification read returns other bytes fails with CardIO. The error names the first differing block: every block before it matches. The image is unchanged |
| ProcessingProperties.VerificationErrorAddress | src/main/java/org/eclipse/keypop/storagecard/CardIOException.java:24-26 | the block a failed verification read reports is one of the written blocks, or the first one when none is written. An answer of the wrong length is reported at the first written block |
| ProcessingProperties.WriteErrorAddress | src/main/java/org/eclipse/keypop/storagecard/CardIOException.java:24-26 | every block address a failed write reports lies among the blocks it writes, or is its first block when it writes none |
| ProcessingProperties.MissingResponseIsInconsistent | src/main/java/org/eclipse/keypop/storagecard/InconsistentDataException.java:18-19 | a command left without a response fails with InconsistentData |
| ProcessingProperties.AuthenticateSetsSector | src/main/java/org/eclipse/keypop/storagecard/transaction/StorageCardTransactionManager.java:201-203 | an accepted authentication authenticates the sector of the given block with the given key type. A rejected one fails with AuthenticationFailed at that block and leaves no sector authenticated |
| ProcessingProperties.SameSectorKeepsAuthentication | src/main/java/org/eclipse/keypop/storagecard/transaction/StorageCardTransactionManager.java:217-219 | reads and writes inside the authenticated sector keep it authenticated |
| ProcessingProperties.AuthenticationCoversSector | src/main/java/org/eclipse/keypop/storagecard/transaction/StorageCardTransactionManager.java:201-203 | after authenticating through any block of a sector, later commands that stay in that sector run authenticated |
| ProcessingProperties.OtherSectorDropsAuthentication | src/main/java/org/eclipse/keypop/storagecard/transaction/StorageCardTransactionManager.java:217-219 | reading or writing a block of another sector ends the authentication |
| Transaction.StorageCardTransactionManager.PrepareReadBlock | src/main/java/org/eclipse/keypop/storagecard/transaction/StorageCardTransactionManager.java:139-153 | succeeds exactly for 0 <= address < BlockCount, returns the same manager, and appends one read. Otherwise it fails with IllegalArgument and the queue is unchanged |
| Transaction.StorageCardTransactionManager.PrepareReadBlocks | src/main/java/org/eclipse/keypop/storagecard/transaction/StorageCardTransactionManager.java:155-170 | succeeds exactly when both addresses are in range and from <= to, appending one range read. Otherwise it fails with IllegalArgument and the queue is unchanged |
| Transaction.StorageCardTransactionManager.PrepareWriteBlocks | src/main/java/org/eclipse/keypop/storagecard/transaction/StorageCardTransactionManager.java:172-196 | succeeds exactly when the data length is a multiple of BlockSize. The command then writes length/BlockSize blocks; otherwise the call fails with IllegalArgument |
| Transaction.StorageCardTransactionManager.PrepareSt25ReadSystemBlock | src/main/java/org/eclipse/keypop/storagecard/transaction/StorageCardTransactionManager.java:101-113 | succeeds exactly on ST25/SRT512, and otherwise fails with UnsupportedOperation |
| Transaction.StorageCardTransactionManager.PrepareSt25WriteSystemBlock | src/main/java/org/eclipse/keypop/storagecard/transaction/StorageCardTransactionManager.java:115-137 | UnsupportedOperation unless the card is ST25/SRT512; on an ST25/SRT512, IllegalArgument exactly when the data is not one block |
| Transaction.StorageCardTransactionManager.PrepareReadSystemBlock | src/main/java/org/eclipse/keypop/storagecard/transaction/StorageCardTransactionManager.java:54-70 | the deprecated form, with the same contract as PrepareSt25ReadSystemBlock |
| Transaction.StorageCardTransactionManager.PrepareWriteSystemBlock | src/main/java/org/eclipse/keypop/storagecard/transaction/StorageCardTransactionManager.java:72-99 | the deprecated form, with the same contract as PrepareSt25WriteSystemBlock: UnsupportedOperation without a system block, otherwise IllegalArgument exactly when the data is not one block |
| Transaction.StorageCardTransactionManager.PrepareMifareClassicAuthenticate | src/main/java/org/eclipse/keypop/storagecard/transaction/StorageCardTransactionManager.java:198-231 | UnsupportedOperation when the card does not authenticate; otherwise success exactly for an address in range and a 6-byte key, and IllegalArgument else |
| Transaction.StorageCardTransactionManager.PrepareMifareClassicAuthenticateWithKeyNumber | src/main/java/org/eclipse/keypop/storagecard/transaction/StorageCardTransactionManager.java:233-258 | UnsupportedOperation when the card does not authenticate; otherwise success exactly for an address in range and a key number within the reader's key storage, and IllegalArgument else |
| Transaction.StorageCardTransactionManager.ProcessCommands | src/main/java/org/eclipse/keypop/storagecard/transaction/StorageCardTransactionManager.java:31-47 | the new image, authentication state and outcome are those of Run on the pending commands. The channel policy is recorded only on success. The queue is emptied, a behaviour this API does not document (see Left out) |
| Transaction.StorageCardTransactionManager.CardRemoved | src/main/java/org/eclipse/keypop/storagecard/transaction/StorageCardTransactionManager.java:217-219 | removing the card ends every authentication |
| Selection.StorageCardSelectionExtension.PrepareReadBlock | src/main/java/org/eclipse/keypop/storagecard/card/StorageCardSelectionExtension.java:24-38 | succeeds exactly for 0 <= address < BlockCount, returning the same extension, and otherwise fails with IllegalArgument |
| Selection.StorageCardSelectionExtension.PrepareReadBlocks | src/main/java/org/eclipse/keypop/storagecard/card/StorageCardSelectionExtension.java:40-56 | succeeds exactly when both addresses are in range and from <= to, and otherwise fails with IllegalArgument |
| Selection.SelectedCard | src/main/java/org/eclipse/keypop/storagecard/card/StorageCardSelectionExtension.java:46-47 | the selected card has the UID and product type of the card and a well-formed image. It is available exactly when every selection read succeeded, and otherwise the selection error is reported |
| Selection.SelectedBlocksAvailable | src/main/java/org/eclipse/keypop/storagecard/card/StorageCardSelectionExtension.java:46-47 | a block read during selection is returned by getBlock on the selected card, holding the bytes of the last read that covered it |
| Selection.UnselectedBlocksAreZeros | src/main/java/org/eclipse/keypop/storagecard/card/StorageCard.java:49-50 | a main-area block that no selection read covered reads as zeros on the selected card |

Where the API documentation leaves room, the model chooses:
- Writes never update the memory image, even after a successful verification read (StorageCardTransactionManager.java lines 42-45 and 81-85); only reads fill it in.
- No local "authentication required" error exists, as the exception classes hold none. A read or write is always sent to the card, and a card rejection arrives as a fault of the exchange.
- prepareWriteBlocks documents only the block-multiple length rule (lines 191-192). The model therefore accepts empty data and does not range-check the start address.
- prepareReadBlocks reads "one of the arguments is out of range" (StorageCardTransactionManager.java line 166, StorageCardSelectionExtension.java line 52) as rejecting to < from as well: a range whose end comes before its start is out of range.
- The block address of a failed verification read is the first differing block. For an answer of the wrong length it is the first written block, as for a read.
- getBlock accepts the ST25/SRT512 system block address 255 as well as the main area, since the system block, once read, is "available in StorageCard" (StorageCardTransactionManager.java lines 104-107) and getBlock is the only accessor for a single block.
- getBlocks accepts only main-area ranges 0..BlockCount-1 and rejects 255. "The available range of the memory image" (StorageCard.java lines 56-57) is read as the main area that getBlockCount describes.
- ProcessCommands records the requested channel policy only when every command succeeded (StorageCardTransactionManager.java lines 33-34 say only that the channel is closed if requested). After a failure the policy is left as it was.
- Only block writes get the automatic verification read. prepareWriteBlocks promises it (StorageCardTransactionManager.java lines 181-186). For the system block, lines 123-127 (and 81-85 for the deprecated form) leave verification to an explicit read by the application. So a system block write succeeds when the card accepts it.
- SelectedCard: a failure of any selection read leaves no selected card, only the error; StorageCardSelectionExtension.java says nothing about failed selection reads.
- No product type describes a Mifare Classic card. Authentication capability, the block-to-sector mapping and the key storage size are therefore session parameters. The authentication prepares check the block address against the session product's BlockCount, so an authenticating session addresses blocks 0..15 only, not a real Mifare Classic card's range.

## Left out

- ProcessCommands: emptying the pending list after processing is assumed. It belongs to the inherited processCommands, which this API does not document.
- Communication: the reader, APDU encoding and status words are not modelled. Each exchange is one reply from the card oracle; a fault says only which layer failed.
- ProcessCommands: what closing the physical channel does (and card-removal sequences) is not modelled. Only the requested policy is recorded.
- PrepareMifareClassicAuthenticate: the Load Key exchange that stores an inline key in the reader's volatile slot 0 is not modelled. The key is only checked and recorded in the command.
- Null arguments: a null data array or key throwing IllegalArgumentException has no counterpart, because Dafny sequences are never null.
- Integer width: addresses and lengths are unbounded integers, so Java `int` overflow of a start address plus a length is not modelled.
- Aliasing: the manager's StorageCard is a value held in a field. It is not a shared object that other parts of the application can observe mid-batch.
- Reliance on processing order: surplus replies left after a batch are ignored, and replies are not matched to commands by anything but order.
- The second cause of InconsistentDataException, in-session data diverging from data read outside the session, is not modelled: no such comparison happens in the core.
- Selection: the selection phase itself (card detection, protocol negotiation) belongs to the reader layer. A selection is modelled as running the prepared reads on an empty image.
- StorageCardApiFactory, StorageCardApiProperties, package-info and the exception class hierarchy (messages, causes, inheritance) are not part of this model.
- Concurrency: a manager is used by one caller at a time, and nothing in the model is concurrent.
- PrepareWriteBlocks: does not reject an empty write or an out-of-range start address, because its documented contract lists only the length rule.
