/** What processing promises: fail-fast, reads update the image, writes do not, verification, sector authentication. */
module ProcessingProperties {
  import opened Bytes
  import opened Results
  import opened Errors
  import opened ProductTypes
  import opened Card
  import opened Commands
  import opened Processing

  /** Commands after a failed one never run: appending commands to a failing batch changes nothing. */
  lemma {:induction false} FailFast(s: Session, st: State, cmds: seq<Command>, more: seq<Command>, replies: seq<Reply>)
    requires Run(s, st, cmds, replies).outcome.Fail?
    ensures Run(s, st, cmds + more, replies) == Run(s, st, cmds, replies)
    decreases |cmds|
  {
    var x := Step(s, st, cmds[0], replies);
    assert (cmds + more)[0] == cmds[0];
    if x.outcome.Pass? {
      assert (cmds + more)[1..] == cmds[1..] + more;
      FailFast(s, x.state, cmds[1..], more, x.replies);
    }
  }

  /** The product type and the UID of the card stay those of the session, whatever a batch does. */
  lemma SessionDataFixed(s: Session, st: State, cmds: seq<Command>, replies: seq<Reply>)
    ensures GetProductType(Run(s, st, cmds, replies).state.card) == GetProductType(st.card)
    ensures GetUID(Run(s, st, cmds, replies).state.card) == GetUID(st.card)
  {
  }

  /** A batch that succeeds hands its final state and its unused replies on to the commands after it. */
  lemma {:induction false} RunAppend(s: Session, st: State, cmds: seq<Command>, more: seq<Command>, replies: seq<Reply>)
    requires Run(s, st, cmds, replies).outcome.Pass?
    ensures var r := Run(s, st, cmds, replies);
      var q := Run(s, r.state, more, r.replies);
      Run(s, st, cmds + more, replies) == RunResult(q.state, q.replies, q.outcome, |cmds| + q.processed)
    decreases |cmds|
  {
    if cmds == [] {
      assert cmds + more == more;
    } else {
      var x := Step(s, st, cmds[0], replies);
      assert (cmds + more)[0] == cmds[0];
      assert (cmds + more)[1..] == cmds[1..] + more;
      RunAppend(s, x.state, cmds[1..], more, x.replies);
    }
  }

  /**
   * A failed batch stops at command `processed`: the commands before it all
   * succeeded, and the failing one left the state they produced untouched in
   * its image.
   */
  lemma {:induction false} FailureKeepsEarlierUpdates(s: Session, st: State, cmds: seq<Command>, replies: seq<Reply>)
    requires Run(s, st, cmds, replies).outcome.Fail?
    ensures var r := Run(s, st, cmds, replies);
      var k := r.processed;
      var before := Run(s, st, cmds[..k], replies);
      var failing := Step(s, before.state, cmds[k], before.replies);
      && k < |cmds|
      && before.outcome == Pass
      && failing.outcome == r.outcome
      && r.state == failing.state
      && r.state.card == before.state.card
    decreases |cmds|
  {
    var x := Step(s, st, cmds[0], replies);
    if x.outcome.Pass? {
      var tl := cmds[1..];
      FailureKeepsEarlierUpdates(s, x.state, tl, x.replies);
      var k' := Run(s, x.state, tl, x.replies).processed;
      var pre := cmds[..k' + 1];
      assert pre[0] == cmds[0] && pre[1..] == tl[..k'];
      assert tl[k'] == cmds[k' + 1];
      var inner := Run(s, x.state, tl[..k'], x.replies);
      assert Run(s, st, pre, replies) == RunResult(inner.state, inner.replies, inner.outcome, inner.processed + 1);
    } else {
      assert cmds[..0] == [];
    }
  }

  /** Only reads change the image: a batch of writes and authentications leaves it as it was, whatever the outcome. */
  lemma {:induction false} NoReadsKeepImage(s: Session, st: State, cmds: seq<Command>, replies: seq<Reply>)
    requires forall i :: 0 <= i < |cmds| ==> !IsRead(cmds[i])
    ensures Run(s, st, cmds, replies).state.card == st.card
    decreases |cmds|
  {
    if cmds != [] {
      var x := Step(s, st, cmds[0], replies);
      if x.outcome.Pass? {
        assert forall i :: 0 <= i < |cmds| - 1 ==> cmds[1..][i] == cmds[i + 1];
        NoReadsKeepImage(s, x.state, cmds[1..], x.replies);
      }
    }
  }

  /** A command that does not read block `b` leaves that block of the image as it was. */
  lemma StepKeepsOtherBlocks(s: Session, st: State, cmd: Command, replies: seq<Reply>, b: int)
    requires !(IsRead(cmd) && Touches(s, cmd, b))
    ensures var c := Step(s, st, cmd, replies).state.card;
      (b in c.blocks <==> b in st.card.blocks) && (b in c.blocks ==> c.blocks[b] == st.card.blocks[b])
  {
  }

  /** A block that no read of the batch covers keeps its content, or stays unread. */
  lemma {:induction false} UnreadBlocksUntouched(s: Session, st: State, cmds: seq<Command>, replies: seq<Reply>, b: int)
    requires !ReadBy(s, cmds, b)
    ensures var c := Run(s, st, cmds, replies).state.card;
      (b in c.blocks <==> b in st.card.blocks) && (b in c.blocks ==> c.blocks[b] == st.card.blocks[b])
    decreases |cmds|
  {
    if cmds != [] {
      var x := Step(s, st, cmds[0], replies);
      StepKeepsOtherBlocks(s, st, cmds[0], replies, b);
      if x.outcome.Pass? {
        UnreadBlocksUntouched(s, x.state, cmds[1..], x.replies, b);
      }
    }
  }

  /**
   * A read succeeds exactly when the card answers with one block's worth of
   * bytes per block read, and then stores those bytes, block by block.
   */
  lemma ReadStepStores(s: Session, st: State, cmd: Command, replies: seq<Reply>)
    requires IsRead(cmd)
    ensures var r := Step(s, st, cmd, replies);
      var n := BlockTotal(s, cmd);
      var size := BlockSize(s.product);
      r.outcome.Pass? <==> replies != [] && replies[0].Answer? && |replies[0].data| == n * size
    ensures var r := Step(s, st, cmd, replies);
      var from := FirstBlock(cmd);
      r.outcome.Pass? ==>
        && r.replies == replies[1..]
        && forall b :: from <= b < from + BlockTotal(s, cmd) ==>
             b in r.state.card.blocks && r.state.card.blocks[b] == Chunk(replies[0].data, b - from, BlockSize(s.product))
  {
  }

  /** A batch that succeeds as a whole succeeds on each of its prefixes. */
  lemma {:induction false} PrefixPasses(s: Session, st: State, cmds: seq<Command>, more: seq<Command>, replies: seq<Reply>)
    requires Run(s, st, cmds + more, replies).outcome.Pass?
    ensures Run(s, st, cmds, replies).outcome.Pass?
    decreases |cmds|
  {
    if cmds != [] {
      var x := Step(s, st, cmds[0], replies);
      assert (cmds + more)[0] == cmds[0];
      assert (cmds + more)[1..] == cmds[1..] + more;
      if x.outcome.Pass? {
        PrefixPasses(s, x.state, cmds[1..], more, x.replies);
      }
    }
  }

  /**
   * In a successful batch, a block ends up holding the bytes of the last read
   * that covered it: the answer the card gave to that read.
   */
  lemma LastReadWins(s: Session, st: State, pre: seq<Command>, cmd: Command, post: seq<Command>,
                     replies: seq<Reply>, b: int)
    requires IsRead(cmd) && Touches(s, cmd, b) && !ReadBy(s, post, b)
    requires Run(s, st, pre + ([cmd] + post), replies).outcome.Pass?
    ensures var before := Run(s, st, pre, replies);
      var c := Run(s, st, pre + ([cmd] + post), replies).state.card;
      && before.outcome.Pass? && before.replies != [] && before.replies[0].Answer?
      && b in c.blocks && c.blocks[b] == Chunk(before.replies[0].data, b - FirstBlock(cmd), BlockSize(s.product))
  {
    var tail := [cmd] + post;
    PrefixPasses(s, st, pre, tail, replies);
    RunAppend(s, st, pre, tail, replies);
    var before := Run(s, st, pre, replies);
    assert tail[0] == cmd && tail[1..] == post;
    var x := Step(s, before.state, cmd, before.replies);
    ReadStepStores(s, before.state, cmd, before.replies);
    UnreadBlocksUntouched(s, x.state, post, x.replies, b);
  }

  /** Round trip: after reading blocks from..to, getBlocks(from, to) returns exactly the bytes the card sent. */
  lemma ReadThenGetBlocks(s: Session, st: State, from: int, to: int, d: seq<byte>, rest: seq<Reply>)
    requires CommandOk(s, ReadBlocks(from, to)) && st.card.productType == s.product && WellFormed(st.card)
    requires |d| == (to - from + 1) * BlockSize(s.product)
    ensures var r := Step(s, st, ReadBlocks(from, to), [Answer(d)] + rest);
      r.outcome == Pass && r.replies == rest && GetBlocks(r.state.card, from, to) == Success(d)
  {
    var replies := [Answer(d)] + rest;
    var cmd := ReadBlocks(from, to);
    var r := Step(s, st, cmd, replies);
    var size := BlockSize(s.product);
    var n := to - from + 1;
    ReadStepStores(s, st, cmd, replies);
    var c := r.state.card;
    var g := GetBlocks(c, from, to).value;
    forall k | 0 <= k < n ensures Chunk(g, k, size) == Chunk(d, k, size) {
      assert Chunk(g, from + k - from, size) == BlockContent(c, from + k);
    }
    ChunksDetermine(g, d, n, size);
  }

  /** Round trip for one block (a main-area block or the system block): getBlock returns the bytes read. */
  lemma ReadThenGetBlock(s: Session, st: State, cmd: Command, d: seq<byte>, rest: seq<Reply>)
    requires cmd.ReadBlock? || cmd.ReadSystemBlock?
    requires CommandOk(s, cmd) && st.card.productType == s.product && WellFormed(st.card)
    requires |d| == BlockSize(s.product)
    ensures var r := Step(s, st, cmd, [Answer(d)] + rest);
      r.outcome == Pass && r.replies == rest && GetBlock(r.state.card, FirstBlock(cmd)) == Success(d)
  {
    var replies := [Answer(d)] + rest;
    ReadStepStores(s, st, cmd, replies);
    assert d[0..BlockSize(s.product)] == d;
  }

  /**
   * Writes: a block write on an ST25/SRT512 card takes the write and a
   * verification read, and succeeds only when that read returns the written
   * bytes; every other write takes one exchange.  The image is never changed.
   */
  lemma WriteExchanges(s: Session, st: State, cmd: Command, replies: seq<Reply>)
    requires IsWrite(cmd)
    ensures var r := Step(s, st, cmd, replies);
      r.state.card == st.card &&
      (r.outcome.Pass? <==>
        replies != [] && replies[0].Answer? &&
        (VerifiedWrite(s, cmd) ==> |replies| >= 2 && replies[1] == Answer(cmd.data)))
    ensures var r := Step(s, st, cmd, replies);
      r.outcome.Pass? ==>
        r.replies == if VerifiedWrite(s, cmd) then replies[2..] else replies[1..]
  {
  }

  lemma DivMul(x: nat, size: nat)
    requires 0 < size && x % size == 0
    ensures x == (x / size) * size
  {
  }

  /** A verification read of bytes that differ from the written ones reports the first differing block. */
  lemma VerificationReadMismatch(st: State, from: int, data: seq<byte>, n: nat, size: nat, v: seq<byte>, rest: seq<Reply>)
    requires |data| == n * size && |v| == |data| && v != data
    ensures var m := FirstMismatch(data, v, size, 0, n);
      && m < n
      && VerificationRead(st, from, data, n, size, [Answer(v)] + rest).outcome == Fail(CardIO(Some(from + m)))
  {
    MismatchFound(data, v, size, n);
  }

  /** On a card without reliable acknowledgment, an accepted block write is decided by the verification read. */
  lemma AcceptedWriteIsVerified(s: Session, st: State, cmd: Command, w: seq<byte>, tail: seq<Reply>)
    requires VerifiedWrite(s, cmd)
    ensures Step(s, st, cmd, [Answer(w)] + tail)
      == VerificationRead(State(st.card, Access(s, st.auth, cmd)), FirstBlock(cmd), cmd.data,
                          BlockTotal(s, cmd), BlockSize(s.product), tail)
  {
    var replies := [Answer(w)] + tail;
    assert replies[0] == Answer(w) && replies[1..] == tail;
  }

  /**
   * A system block write gets no automatic verification read, even on an
   * ST25/SRT512 card: the card accepting it is success, and one reply is used.
   */
  lemma SystemBlockWriteNotVerified(s: Session, st: State, data: seq<byte>, w: seq<byte>, rest: seq<Reply>)
    ensures Step(s, st, WriteSystemBlock(data), [Answer(w)] + rest)
      == StepResult(State(st.card, Access(s, st.auth, WriteSystemBlock(data))), rest, Pass)
  {
    assert ([Answer(w)] + rest)[1..] == rest;
  }

  /** A valid write carries BlockTotal blocks of data. */
  lemma WriteDataLength(s: Session, cmd: Command)
    requires IsWrite(cmd) && CommandOk(s, cmd)
    ensures |cmd.data| == BlockTotal(s, cmd) * BlockSize(s.product)
  {
    if cmd.WriteBlocks? {
      DivMul(|cmd.data|, BlockSize(s.product));
    }
  }

  /**
   * A verification read returning other bytes of the right length fails the
   * write with a card I/O error at the first block that differs.
   */
  lemma VerificationMismatch(s: Session, st: State, cmd: Command, w: seq<byte>, v: seq<byte>, rest: seq<Reply>)
    requires VerifiedWrite(s, cmd) && CommandOk(s, cmd)
    requires |v| == |cmd.data| && v != cmd.data
    ensures var r := Step(s, st, cmd, [Answer(w), Answer(v)] + rest);
      var size := BlockSize(s.product);
      var m := FirstMismatch(cmd.data, v, size, 0, BlockTotal(s, cmd));
      && m < BlockTotal(s, cmd)
      && r.outcome == Fail(CardIO(Some(FirstBlock(cmd) + m)))
      && Chunk(v, m, size) != Chunk(cmd.data, m, size)
      && (forall j :: 0 <= j < m ==> Chunk(v, j, size) == Chunk(cmd.data, j, size))
      && r.state.card == st.card
  {
    var size, n := BlockSize(s.product), BlockTotal(s, cmd);
    var accessed := State(st.card, Access(s, st.auth, cmd));
    assert [Answer(w), Answer(v)] + rest == [Answer(w)] + ([Answer(v)] + rest);
    AcceptedWriteIsVerified(s, st, cmd, w, [Answer(v)] + rest);
    WriteDataLength(s, cmd);
    VerificationReadMismatch(accessed, FirstBlock(cmd), cmd.data, n, size, v, rest);
  }

  /**
   * The block address a verification read reports lies among the written
   * blocks (the first one when none is written); an answer of the wrong
   * length is reported at the first written block.
   */
  lemma VerificationErrorAddress(st: State, from: int, data: seq<byte>, n: nat, size: nat, replies: seq<Reply>)
    requires |data| == n * size
    ensures var r := VerificationRead(st, from, data, n, size, replies);
      r.outcome.Fail? && !r.outcome.error.InconsistentData? && r.outcome.error.block.Some? ==>
        from <= r.outcome.error.block.value < from + (if n == 0 then 1 else n)
    ensures replies != [] && replies[0].Answer? && |replies[0].data| != |data| ==>
      VerificationRead(st, from, data, n, size, replies).outcome == Fail(CardIO(Some(from)))
  {
    if replies != [] && replies[0].Answer? && replies[0].data != data && |replies[0].data| == |data| {
      MismatchFound(data, replies[0].data, size, n);
    }
  }

  /** Every block address a failed write reports is one of the blocks it writes (its first one when it writes none). */
  lemma WriteErrorAddress(s: Session, st: State, cmd: Command, replies: seq<Reply>)
    requires IsWrite(cmd) && CommandOk(s, cmd)
    ensures var r := Step(s, st, cmd, replies);
      var n := BlockTotal(s, cmd);
      r.outcome.Fail? && !r.outcome.error.InconsistentData? && r.outcome.error.block.Some? ==>
        FirstBlock(cmd) <= r.outcome.error.block.value < FirstBlock(cmd) + (if n == 0 then 1 else n)
  {
    if replies != [] && replies[0].Answer? && VerifiedWrite(s, cmd) {
      assert replies == [replies[0]] + replies[1..];
      AcceptedWriteIsVerified(s, st, cmd, replies[0].data, replies[1..]);
      WriteDataLength(s, cmd);
      VerificationErrorAddress(State(st.card, Access(s, st.auth, cmd)), FirstBlock(cmd), cmd.data,
                               BlockTotal(s, cmd), BlockSize(s.product), replies[1..]);
    }
  }

  /** A request left without a response is inconsistent data (fewer responses than requests). */
  lemma MissingResponseIsInconsistent(s: Session, st: State, cmd: Command)
    ensures Step(s, st, cmd, []).outcome == Fail(InconsistentData)
  {
  }

  /**
   * Authenticating through a block authenticates that block's sector with the
   * given key type; a rejection leaves no sector authenticated.
   */
  lemma AuthenticateSetsSector(s: Session, st: State, a: int, kt: KeyType, key: KeySource, replies: seq<Reply>)
    ensures var r := Step(s, st, Authenticate(a, kt, key), replies);
      && r.state.card == st.card
      && (replies != [] && replies[0].Answer? ==>
            r.outcome == Pass && r.state.auth == Authenticated(s.sectorOf(a), kt))
      && (replies != [] && replies[0] == Failed(StatusFault) ==>
            r.outcome == Fail(AuthenticationFailed(Some(a))) && r.state.auth == Unauthenticated)
  {
  }

  /** Reads and writes inside the authenticated sector keep it authenticated, whatever their outcome. */
  lemma {:induction false} SameSectorKeepsAuthentication(s: Session, st: State, cmds: seq<Command>, replies: seq<Reply>)
    requires st.auth.Authenticated?
    requires forall i :: 0 <= i < |cmds| ==> !cmds[i].Authenticate? && WithinSector(s, cmds[i], st.auth.sector)
    ensures Run(s, st, cmds, replies).state.auth == st.auth
    decreases |cmds|
  {
    if cmds != [] {
      var x := Step(s, st, cmds[0], replies);
      if x.outcome.Pass? {
        assert forall i :: 0 <= i < |cmds| - 1 ==> cmds[1..][i] == cmds[i + 1];
        SameSectorKeepsAuthentication(s, x.state, cmds[1..], x.replies);
      }
    }
  }

  /**
   * Authenticating through any block of a sector lets the later reads and
   * writes of the batch that stay in that sector run authenticated.
   */
  lemma AuthenticationCoversSector(s: Session, st: State, a: int, kt: KeyType, key: KeySource, x: seq<byte>,
                                   cmds: seq<Command>, rest: seq<Reply>)
    requires forall i :: 0 <= i < |cmds| ==> !cmds[i].Authenticate? && WithinSector(s, cmds[i], s.sectorOf(a))
    ensures Run(s, st, [Authenticate(a, kt, key)] + cmds, [Answer(x)] + rest).state.auth
         == Authenticated(s.sectorOf(a), kt)
  {
    var all := [Authenticate(a, kt, key)] + cmds;
    var first := Step(s, st, all[0], [Answer(x)] + rest);
    assert all[1..] == cmds;
    SameSectorKeepsAuthentication(s, first.state, cmds, first.replies);
  }

  /** Reading or writing a block of another sector ends the authentication. */
  lemma OtherSectorDropsAuthentication(s: Session, st: State, cmd: Command, replies: seq<Reply>, b: int)
    requires (IsRead(cmd) || IsWrite(cmd)) && Touches(s, cmd, b)
    requires st.auth.Authenticated? && s.sectorOf(b) != st.auth.sector
    ensures Step(s, st, cmd, replies).state.auth == Unauthenticated
  {
  }
}
