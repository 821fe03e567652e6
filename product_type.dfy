/** The product types of storage card the API supports, with their memory geometry. */
module ProductTypes {

  datatype ProductType =
    | MifareUltralight  // NXP Mifare Ultralight
    | St25Srt512        // ST Microelectronics ST25 / SRT512

  /** Address of the ST25/SRT512 system block, which lies outside the main memory area. */
  const SystemBlockAddress: int := 255

  /**
   * Number of blocks in the main memory area.  System blocks are not counted,
   * so the system block address is never a main-area address.
   */
  function BlockCount(p: ProductType): (n: nat)
    ensures 0 < n <= SystemBlockAddress
  {
    match p
    case MifareUltralight => 16
    case St25Srt512 => 16
  }

  /** Size of each block, in bytes. */
  function BlockSize(p: ProductType): (n: nat)
    ensures 0 < n
  {
    match p
    case MifareUltralight => 4
    case St25Srt512 => 4
  }

  /** Addresses of the main memory area: 0 to BlockCount - 1. */
  predicate InMainArea(p: ProductType, address: int)
  {
    0 <= address < BlockCount(p)
  }

  /** Only ST25/SRT512 cards have a system block at address 255. */
  predicate HasSystemBlock(p: ProductType)
  {
    p == St25Srt512
  }

  /**
   * Cards without a reliable write acknowledgment (ST25/SRT512): every block
   * write is followed by a verification read.
   */
  predicate NeedsWriteVerification(p: ProductType)
  {
    p == St25Srt512
  }

  /** The constructor arguments of the two enum constants. */
  lemma ProductTable()
    ensures BlockCount(MifareUltralight) == 16 && BlockSize(MifareUltralight) == 4
    ensures BlockCount(St25Srt512) == 16 && BlockSize(St25Srt512) == 4
  {
  }

  /** The system block lies outside every product's main area. */
  lemma SystemBlockOutsideMainArea(p: ProductType)
    ensures !InMainArea(p, SystemBlockAddress)
  {
  }
}
