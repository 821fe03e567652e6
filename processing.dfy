/**
 * Processing of prepared commands, as a function of the state before and of
 * the replies of the card.  The card is an oracle: each exchange with it
 * consumes the next reply of a given sequence.
 */
module Processing {
  import opened Bytes
  import opened Results
  import opened Errors
  import opened ProductTypes
  import opened Card
  import opened Commands

  /** The layer at which an exchange failed. */
  datatype Fault =
    | ReaderFault   // the reader could not transmit the command
    | CardFault     // no proper response from the card (transmission error, card removed)
    | StatusFault   // the card answered with a status that rejects the command

  /** What one exchange with the card yields: the bytes of a successful response, or a fault. */
  datatype Reply = Answer(data: seq<byte>) | Failed(fault: Fault)

  /** Mifare Classic authentication: at most one sector is authenticated at a time. */
  datatype AuthState = Unauthenticated | Authenticated(sector: int, keyType: KeyType)

  datatype State = State(card: StorageCard, auth: AuthState)

  datatype StepResult = StepResult(state: State, replies: seq<Reply>, outcome: Outcome<ProcessError>)

  datatype RunResult = RunResult(state: State, replies: seq<Reply>, outcome: Outcome<ProcessError>, processed: nat)

  /** The exception for a failed exchange about block `address`. */
  function FaultError(f: Fault, address: int): ProcessError
  {
    match f
    case ReaderFault => ReaderIO(Some(address))
    case CardFault => CardIO(Some(address))
    case StatusFault => InvalidCardResponse(Some(address))
  }

  /** Every block the command reads or writes lies in sector `sector`. */
  predicate WithinSector(s: Session, cmd: Command, sector: int)
  {
    var lo := FirstBlock(cmd);
    forall b :: lo <= b < lo + BlockTotal(s, cmd) ==> s.sectorOf(b) == sector
  }

  /** Authentication after a read or write: kept inside the authenticated sector, lost by accessing another one. */
  function Access(s: Session, auth: AuthState, cmd: Command): AuthState
  {
    if auth.Authenticated? && WithinSector(s, cmd, auth.sector) then auth else Unauthenticated
  }

  /** The image with blocks from..from+n-1 set to the successive blocks of `d`. */
  function Store(c: StorageCard, from: int, d: seq<byte>, n: nat, size: nat): (c': StorageCard)
    decreases n
    ensures c'.productType == c.productType && c'.uid == c.uid
    ensures forall b :: b in c'.blocks <==> b in c.blocks || from <= b < from + n
    ensures forall b :: b in c'.blocks ==>
      c'.blocks[b] == if from <= b < from + n then Chunk(d, b - from, size) else c.blocks[b]
  {
    if n == 0 then c
    else
      var c0 := Store(c, from, d, n - 1, size);
      c0.(blocks := c0.blocks[from + n - 1 := Chunk(d, n - 1, size)])
  }

  /**
   * The first block, from `k` on, in which `actual` differs from `expected`;
   * `n` when blocks k..n-1 all agree.
   */
  function FirstMismatch(expected: seq<byte>, actual: seq<byte>, size: nat, k: nat, n: nat): (m: nat)
    requires k <= n
    decreases n - k
    ensures k <= m <= n
    ensures forall j :: k <= j < m ==> Chunk(expected, j, size) == Chunk(actual, j, size)
    ensures m < n ==> Chunk(expected, m, size) != Chunk(actual, m, size)
  {
    if k == n then n
    else if Chunk(expected, k, size) != Chunk(actual, k, size) then k
    else FirstMismatch(expected, actual, size, k + 1, n)
  }

  /** Two different strings of n blocks differ in one of those blocks. */
  lemma MismatchFound(expected: seq<byte>, actual: seq<byte>, size: nat, n: nat)
    requires |expected| == n * size && |actual| == n * size && expected != actual
    ensures FirstMismatch(expected, actual, size, 0, n) < n
  {
    if FirstMismatch(expected, actual, size, 0, n) == n {
      ChunksDetermine(expected, actual, n, size);
    }
  }

  /** A read: one exchange; its bytes go into the image. */
  function ReadStep(s: Session, st: State, cmd: Command, replies: seq<Reply>): (r: StepResult)
    requires IsRead(cmd)
    ensures r.state.card.productType == st.card.productType && r.state.card.uid == st.card.uid
    ensures r.outcome.Fail? ==> r.state.card == st.card
    ensures replies == [] ==> r.replies == []
    ensures replies != [] ==> r.replies == replies[1..]
  {
    var from := FirstBlock(cmd);
    var n := BlockTotal(s, cmd);
    var size := BlockSize(s.product);
    var accessed := State(st.card, Access(s, st.auth, cmd));
    if replies == [] then StepResult(accessed, replies, Fail(InconsistentData))
    else match replies[0]
      case Failed(f) => StepResult(accessed, replies[1..], Fail(FaultError(f, from)))
      case Answer(d) =>
        if |d| != n * size then StepResult(accessed, replies[1..], Fail(CardIO(Some(from))))
        else StepResult(accessed.(card := Store(st.card, from, d, n, size)), replies[1..], Pass)
  }

  /**
   * The read that checks a write on a card without reliable acknowledgment.
   * An answer of the wrong length is reported at the first written block.
   */
  function VerificationRead(st: State, from: int, data: seq<byte>, n: nat, size: nat, replies: seq<Reply>): (r: StepResult)
    ensures r.state == st
    ensures replies == [] ==> r.replies == []
    ensures replies != [] ==> r.replies == replies[1..]
  {
    if replies == [] then StepResult(st, replies, Fail(InconsistentData))
    else match replies[0]
      case Failed(f) => StepResult(st, replies[1..], Fail(FaultError(f, from)))
      case Answer(v) =>
        if v == data then StepResult(st, replies[1..], Pass)
        else if |v| != |data| then StepResult(st, replies[1..], Fail(CardIO(Some(from))))
        else StepResult(st, replies[1..], Fail(CardIO(Some(from + FirstMismatch(data, v, size, 0, n)))))
  }

  /**
   * Writes followed by an automatic verification read: block writes on a card
   * without reliable acknowledgment.  A system block write is left for the
   * application to check by an explicit read.
   */
  predicate VerifiedWrite(s: Session, cmd: Command)
  {
    cmd.WriteBlocks? && NeedsWriteVerification(s.product)
  }

  /** A write: one exchange, then a verification read for a verified write; never changes the image. */
  function WriteStep(s: Session, st: State, cmd: Command, replies: seq<Reply>): (r: StepResult)
    requires IsWrite(cmd)
    ensures r.state.card == st.card && |r.replies| <= |replies|
  {
    var from := FirstBlock(cmd);
    var accessed := State(st.card, Access(s, st.auth, cmd));
    if replies == [] then StepResult(accessed, replies, Fail(InconsistentData))
    else match replies[0]
      case Failed(f) => StepResult(accessed, replies[1..], Fail(FaultError(f, from)))
      case Answer(_) =>
        if !VerifiedWrite(s, cmd) then StepResult(accessed, replies[1..], Pass)
        else VerificationRead(accessed, from, cmd.data, BlockTotal(s, cmd), BlockSize(s.product), replies[1..])
  }

  /** A Mifare Classic authentication: on success the sector of the given block is authenticated. */
  function AuthStep(s: Session, st: State, cmd: Command, replies: seq<Reply>): (r: StepResult)
    requires cmd.Authenticate?
    ensures r.state.card == st.card
    ensures replies == [] ==> r.replies == []
    ensures replies != [] ==> r.replies == replies[1..]
  {
    if replies == [] then StepResult(st, replies, Fail(InconsistentData))
    else match replies[0]
      case Answer(_) =>
        StepResult(st.(auth := Authenticated(s.sectorOf(cmd.address), cmd.keyType)), replies[1..], Pass)
      case Failed(StatusFault) =>
        StepResult(st.(auth := Unauthenticated), replies[1..], Fail(AuthenticationFailed(Some(cmd.address))))
      case Failed(f) =>
        StepResult(st.(auth := Unauthenticated), replies[1..], Fail(FaultError(f, cmd.address)))
  }

  lemma ReadStepWellFormed(s: Session, st: State, cmd: Command, replies: seq<Reply>)
    requires IsRead(cmd)
    ensures CommandOk(s, cmd) && st.card.productType == s.product && WellFormed(st.card) ==>
      WellFormed(ReadStep(s, st, cmd, replies).state.card)
  {
    if CommandOk(s, cmd) && st.card.productType == s.product && WellFormed(st.card)
      && replies != [] && replies[0].Answer?
    {
      var from, n, size := FirstBlock(cmd), BlockTotal(s, cmd), BlockSize(s.product);
      var d := replies[0].data;
      if |d| == n * size {
        var c' := Store(st.card, from, d, n, size);
        forall b | b in c'.blocks
          ensures InImage(c'.productType, b) && |c'.blocks[b]| == size
        {
          if from <= b < from + n {
            ChunkLength(d, b - from, n, size);
          }
        }
      }
    }
  }

  /** Processing one command. */
  function Step(s: Session, st: State, cmd: Command, replies: seq<Reply>): (r: StepResult)
    ensures r.state.card.productType == st.card.productType && r.state.card.uid == st.card.uid
    ensures r.outcome.Fail? || !IsRead(cmd) ==> r.state.card == st.card
    ensures |r.replies| <= |replies|
    ensures CommandOk(s, cmd) && st.card.productType == s.product && WellFormed(st.card) ==>
      WellFormed(r.state.card)
  {
    if IsRead(cmd) then
      ReadStepWellFormed(s, st, cmd, replies);
      ReadStep(s, st, cmd, replies)
    else if IsWrite(cmd) then WriteStep(s, st, cmd, replies)
    else AuthStep(s, st, cmd, replies)
  }

  /**
   * Processing a list of commands in order, stopping at the first failure.
   * `processed` counts the commands that succeeded before it.
   */
  function Run(s: Session, st: State, cmds: seq<Command>, replies: seq<Reply>): (r: RunResult)
    decreases |cmds|
    ensures r.processed <= |cmds|
    ensures r.outcome.Pass? <==> r.processed == |cmds|
    ensures r.state.card.productType == st.card.productType && r.state.card.uid == st.card.uid
    ensures |r.replies| <= |replies|
    ensures AllOk(s, cmds) && st.card.productType == s.product && WellFormed(st.card) ==>
      WellFormed(r.state.card)
  {
    if cmds == [] then RunResult(st, replies, Pass, 0)
    else
      var x := Step(s, st, cmds[0], replies);
      if x.outcome.Fail? then RunResult(x.state, x.replies, x.outcome, 0)
      else
        assert AllOk(s, cmds) ==> AllOk(s, cmds[1..]) by {
          if AllOk(s, cmds) {
            forall i | 0 <= i < |cmds| - 1 ensures CommandOk(s, cmds[1..][i]) {
              assert cmds[1..][i] == cmds[i + 1];
            }
          }
        }
        var y := Run(s, x.state, cmds[1..], x.replies);
        RunResult(y.state, y.replies, y.outcome, y.processed + 1)
  }
}
