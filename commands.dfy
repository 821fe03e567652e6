/**
 * The commands a transaction manager (or a selection extension) holds between
 * the prepare calls and processing, and the session data they are checked against.
 */
module Commands {
  import opened Bytes
  import opened ProductTypes

  /** Mifare Classic key types. */
  datatype KeyType = KeyA | KeyB

  /** An authentication key: 6 bytes given inline, or an index into the reader's key storage. */
  datatype KeySource = InlineKey(key: seq<byte>) | StoredKey(keyNumber: int)

  /** Length of a Mifare Classic key value, in bytes. */
  const MifareClassicKeyLength: nat := 6

  datatype Command =
    | ReadBlock(address: int)
    | ReadBlocks(from: int, to: int)
    | ReadSystemBlock
    | WriteBlocks(from: int, data: seq<byte>)
    | WriteSystemBlock(data: seq<byte>)
    | Authenticate(address: int, keyType: KeyType, keySource: KeySource)

  /**
   * Fixed data of one card session.  No product type of the API describes a
   * Mifare Classic card, so whether the card accepts authentication, how block
   * addresses map to sectors, and how many keys the reader stores are given here.
   */
  datatype Session = Session(product: ProductType, authentication: bool, sectorOf: int -> int, keySlots: nat)

  predicate KeyOk(s: Session, k: KeySource)
  {
    match k
    case InlineKey(key) => |key| == MifareClassicKeyLength
    case StoredKey(n) => 0 <= n < s.keySlots
  }

  /** The argument rules a command passed when it was prepared. */
  predicate CommandOk(s: Session, cmd: Command)
  {
    match cmd
    case ReadBlock(a) => InMainArea(s.product, a)
    case ReadBlocks(f, t) => InMainArea(s.product, f) && InMainArea(s.product, t) && f <= t
    case ReadSystemBlock => HasSystemBlock(s.product)
    case WriteBlocks(_, data) => |data| % BlockSize(s.product) == 0
    case WriteSystemBlock(data) => HasSystemBlock(s.product) && |data| == BlockSize(s.product)
    case Authenticate(a, _, k) => s.authentication && InMainArea(s.product, a) && KeyOk(s, k)
  }

  ghost predicate AllOk(s: Session, cmds: seq<Command>)
  {
    forall i :: 0 <= i < |cmds| ==> CommandOk(s, cmds[i])
  }

  predicate IsRead(cmd: Command)
  {
    cmd.ReadBlock? || cmd.ReadBlocks? || cmd.ReadSystemBlock?
  }

  predicate IsWrite(cmd: Command)
  {
    cmd.WriteBlocks? || cmd.WriteSystemBlock?
  }

  /** Number of blocks from..to, both inclusive. */
  function ReadCount(from: int, to: int): nat
  {
    if from <= to then to - from + 1 else 0
  }

  /** First block a command accesses: the block read or written, or the block an authentication names. */
  function FirstBlock(cmd: Command): int
  {
    match cmd
    case ReadBlock(a) => a
    case ReadBlocks(f, _) => f
    case ReadSystemBlock => SystemBlockAddress
    case WriteBlocks(f, _) => f
    case WriteSystemBlock(_) => SystemBlockAddress
    case Authenticate(a, _, _) => a
  }

  /** How many consecutive blocks from FirstBlock a command reads or writes; none for an authentication. */
  function BlockTotal(s: Session, cmd: Command): nat
  {
    match cmd
    case ReadBlock(_) => 1
    case ReadBlocks(f, t) => ReadCount(f, t)
    case ReadSystemBlock => 1
    case WriteBlocks(_, data) => |data| / BlockSize(s.product)
    case WriteSystemBlock(_) => 1
    case Authenticate(_, _, _) => 0
  }

  /** The command reads or writes block `b`. */
  predicate Touches(s: Session, cmd: Command, b: int)
  {
    FirstBlock(cmd) <= b < FirstBlock(cmd) + BlockTotal(s, cmd)
  }

  /** Some read among the commands covers block `b`. */
  predicate ReadBy(s: Session, cmds: seq<Command>, b: int)
  {
    cmds != [] && ((IsRead(cmds[0]) && Touches(s, cmds[0], b)) || ReadBy(s, cmds[1..], b))
  }
}
