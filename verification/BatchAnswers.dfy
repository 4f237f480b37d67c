/** When the builder gives out a batch, what exactly is in it, and which blocks it takes. */
module BatchAnswers {
  import opened Wrappers
  import opened ByteStrings
  import opened Batch
  import opened BatchProofs

  // ---------- processing a good queue, told from sizes and epochs ----------

  /** How many blocks fit: a block is taken as long as the level before it is within the target. */
  function Takes(cfg: Config, target: nat, f: Fill, blocks: seq<Block>): (n: nat)
    ensures n <= |blocks|
    decreases |blocks|
  {
    if blocks == [] || f.Level() > target then 0
    else 1 + Takes(cfg, target, AddBlock(cfg, f, blocks[0]), blocks[1..])
  }

  /** The sizes after processing the queue; a block that does not fit closes the open sub-batch. */
  function FillAfter(cfg: Config, target: nat, f: Fill, blocks: seq<Block>): Fill {
    var n := Takes(cfg, target, f, blocks);
    var g := AddAll(cfg, f, blocks[..n]);
    if n < |blocks| then Fill(g.Level(), 0, false) else g
  }

  /** The timeout after looking at some blocks. */
  function TimeoutAfter(cfg: Config, timeout: nat, blocks: seq<Block>): nat
    decreases |blocks|
  {
    if blocks == [] then timeout
    else
      var call := OracleCallOf(cfg, blocks[0]);
      TimeoutAfter(cfg, if call.Epoch? then UpdateTimeout(cfg, timeout, call.epoch) else timeout, blocks[1..])
  }

  /** The blocks that are looked at: those that fit, and the first that does not. */
  function Seen(cfg: Config, target: nat, f: Fill, blocks: seq<Block>): seq<Block> {
    var n := Takes(cfg, target, f, blocks);
    if n < |blocks| then blocks[..n + 1] else blocks
  }

  lemma {:induction false} FullCloses(b: Builder, block: Block)
    requires Good(b.cfg, block) && FillOf(b.encoder).Level() > b.encoder.target
    ensures FillOf(ProcessNext(b, block).0.encoder) == Fill(FillOf(b.encoder).Level(), 0, false)
  {
    hide ListSize, MarshallTxs;
  }

  lemma {:induction false} NextTimeout(b: Builder, block: Block)
    requires Good(b.cfg, block)
    ensures var call := OracleCallOf(b.cfg, block);
            ProcessNext(b, block).0.timeout
            == if call.Epoch? then UpdateTimeout(b.cfg, b.timeout, call.epoch) else b.timeout
  {
    hide ProcessBlock, MarshallTxs;
  }

  /** Processing a queue of good blocks: how many are taken, and the sizes and the timeout afterwards. */
  lemma {:induction false} GoodQueue(b: Builder, blocks: seq<Block>)
    requires AllGood(b.cfg, blocks)
    ensures var (b', n, outcome) := ProcessAll(b, blocks);
            && n == Takes(b.cfg, b.encoder.target, FillOf(b.encoder), blocks)
            && outcome == (if n < |blocks| then BatchFull else Done)
            && FillOf(b'.encoder) == FillAfter(b.cfg, b.encoder.target, FillOf(b.encoder), blocks)
            && b'.timeout == TimeoutAfter(b.cfg, b.timeout, Seen(b.cfg, b.encoder.target, FillOf(b.encoder), blocks))
    decreases |blocks|
  {
    hide ProcessNext, Good, AddBlock, OracleCallOf, UpdateTimeout;
    if blocks != [] {
      var f, block := FillOf(b.encoder), blocks[0];
      GoodBlockFills(b, block);
      NextTimeout(b, block);
      if f.Level() > b.encoder.target {
        FullCloses(b, block);
        assert blocks[..0] == [] && blocks[..1] == [block] && [block][1..] == [];
      } else {
        var b1, rest := ProcessNext(b, block).0, blocks[1..];
        GoodQueue(b1, rest);
        var n := Takes(b.cfg, b.encoder.target, FillOf(b1.encoder), rest);
        assert blocks[..n + 1][1..] == rest[..n];
        if n < |rest| {
          assert blocks[..n + 2][1..] == rest[..n + 1];
        }
      }
    }
  }

  // ---------- when a batch is given out ----------

  /** Whether the batch is due: its timeout is set and reached, or its size reaches the target. */
  predicate Due(b: Builder, l1Head: nat) {
    var f := FillAfter(b.cfg, b.encoder.target, FillOf(b.encoder), b.pending);
    var timeout := TimeoutAfter(b.cfg, b.timeout, Seen(b.cfg, b.encoder.target, FillOf(b.encoder), b.pending));
    (timeout != 0 && l1Head >= timeout) || f.running + f.content >= b.encoder.target
  }

  /** A cached batch is given out again; an empty queue gives nothing; and a queue of good blocks gives a batch
      if and only if it is due, told from the epochs and the sizes of the blocks before the call. */
  lemma {:induction false} BuildAnswer(b: Builder, l1Head: nat)
    requires AllGood(b.cfg, b.pending)
    ensures b.lastBuilt.Some? ==> Build(b, l1Head) == (b, Built(b.lastBuilt.value))
    ensures b.lastBuilt.None? && b.pending == [] ==> Build(b, l1Head) == (b, Eof)
    ensures b.lastBuilt.None? && b.pending != [] ==>
              (Build(b, l1Head).1.Built? <==> Due(b, l1Head)) && (Build(b, l1Head).1.Eof? <==> !Due(b, l1Head))
  {
    hide ProcessAll, FillAfter, TimeoutAfter, Seen, ListSize;
    GoodQueue(b, b.pending);
    ProcessAllFrame(b, b.pending);
  }

  /** The due batch is all that is closed, and after it exactly the open sub-batch and the queue are left. If
      the open sub-batch does not fit into the target, it is closed too. */
  lemma {:induction false} BuildContents(b: Builder, accepted: seq<Block>, l1Head: nat, numbered: bool)
    requires Followed(b, accepted) && AllGood(b.cfg, accepted) && (numbered ==> Consecutive(accepted))
    requires b.lastBuilt.None? && Build(b, l1Head).1.Built?
    ensures var (b', result) := Build(b, l1Head);
            && result.batch.version == 0 && result.batch.subBatches == b'.encoder.closed
            && b'.lastBuilt == Some(result.batch)
            && DecodedAll(result.batch.subBatches, numbered) + Decoded(b'.encoder.open, numbered)
               + Stream(b'.pending, numbered) == Stream(accepted, numbered)
            && var f := FillAfter(b.cfg, b.encoder.target, FillOf(b.encoder), b.pending);
               FillOf(b'.encoder) == if f.Level() > b.encoder.target then Fill(f.Level(), 0, false) else f
  {
    hide Build, Stream, DecodedAll, Decoded, AllGood, Consecutive, Capped, AllMeasured, FillAfter, Tracks;
    BuildShape(b, accepted, l1Head);
    BuildTracks(b, accepted, l1Head, numbered);
    TrackedContents(Build(b, l1Head).0, accepted, numbered);
  }

  lemma {:induction false} TrackedContents(b: Builder, accepted: seq<Block>, numbered: bool)
    requires Tracks(b, accepted, numbered)
    ensures DecodedAll(b.encoder.closed, numbered) + Decoded(b.encoder.open, numbered) + Stream(b.pending, numbered)
            == Stream(accepted, numbered)
  {
    hide Stream, DecodedAll, Decoded;
    var n := |accepted| - |b.pending|;
    assert accepted[..n] + accepted[n..] == accepted;
    StreamAppend(accepted[..n], accepted[n..], numbered);
    DecodedLast(b.encoder, numbered);
    assert [] + Stream(accepted[..n], numbered) == Stream(accepted[..n], numbered);
  }

  lemma {:induction false} BuildShape(b: Builder, accepted: seq<Block>, l1Head: nat)
    requires Followed(b, accepted) && AllGood(b.cfg, accepted)
    requires b.lastBuilt.None? && Build(b, l1Head).1.Built?
    ensures var (b', result) := Build(b, l1Head);
            && result.batch.version == 0 && result.batch.subBatches == b'.encoder.closed
            && b'.lastBuilt == Some(result.batch)
            && var f := FillAfter(b.cfg, b.encoder.target, FillOf(b.encoder), b.pending);
               FillOf(b'.encoder) == if f.Level() > b.encoder.target then Fill(f.Level(), 0, false) else f
  {
    hide ProcessAll, FillAfter, ListSize, Capped, AllMeasured;
    QueueGood(b, accepted);
    GoodQueue(b, b.pending);
    ProcessAllFrame(b, b.pending);
  }

  /** In every run, for readable accepted blocks, a non-empty queue and no cached batch: a batch is given out if
      and only if it is due. */
  lemma {:induction false} GivenOutWhenDue(cfg: Config, target: nat, ops: seq<Op>, l1Head: nat)
    requires AllGood(cfg, Accepted(NewBuilder(cfg, target), ops))
    requires var b := Run(NewBuilder(cfg, target), ops); b.lastBuilt.None? && b.pending != []
    ensures var b := Run(NewBuilder(cfg, target), ops); Build(b, l1Head).1.Built? <==> Due(b, l1Head)
  {
    hide Run, Accepted, Build, Due, Capped, AllMeasured;
    RunFollowed(cfg, target, ops);
    var b := Run(NewBuilder(cfg, target), ops);
    QueueGood(b, Accepted(NewBuilder(cfg, target), ops));
    BuildAnswer(b, l1Head);
  }

  // ---------- the timeout in terms of epochs ----------

  /** The block has an oracle call. */
  predicate Calls(cfg: Config, block: Block) { OracleCallOf(cfg, block).Epoch? }

  /** The timeout that its epoch asks for, as a number without wrap-around. */
  function Asks(cfg: Config, block: Block): int
    requires Calls(cfg, block)
  {
    OracleCallOf(cfg, block).epoch + cfg.seqWindowSize - cfg.subSafetyMargin
  }

  /** What is read of a block: the epoch of a first transaction that goes to the oracle and unpacks. Only a
      first transaction without recipient, or to the oracle and not unpacking, makes a block unreadable; so a
      block is good if and only if it has none of these and all its transactions marshal. */
  lemma {:induction false} OracleCallExact(cfg: Config, block: Block)
    ensures var call := OracleCallOf(cfg, block);
            && (Calls(cfg, block) <==>
                  block.txs != [] && block.txs[0].to == Some(cfg.oracle) && block.txs[0].epoch.Some?)
            && (Calls(cfg, block) ==> Some(call.epoch) == block.txs[0].epoch)
            && (call.Unreadable? <==>
                  && block.txs != []
                  && (block.txs[0].to.None? || (block.txs[0].to == Some(cfg.oracle) && block.txs[0].epoch.None?)))
    ensures Good(cfg, block) <==>
            !OracleCallOf(cfg, block).Unreadable? && forall i | 0 <= i < |block.txs| :: block.txs[i].raw.Some?
  {
    MarshalExact(block.txs);
  }

  lemma {:induction false} MarshalExact(txs: seq<Tx>)
    ensures MarshallTxs(txs).Some? <==> forall i | 0 <= i < |txs| :: txs[i].raw.Some?
  {
    if txs != [] {
      MarshalExact(txs[..|txs| - 1]);
    }
  }

  /** No oracle call asks for a timeout that wraps around or counts as unset. */
  ghost predicate Sensible(cfg: Config, blocks: seq<Block>) {
    forall i | 0 <= i < |blocks| && Calls(cfg, blocks[i]) :: 0 < Asks(cfg, blocks[i]) < UINT64
  }

  /** The timeout is the least of what was set before and what the blocks looked at ask for: it is unset only
      if it was and no block has an oracle call. */
  lemma {:induction false} TimeoutIsLeast(cfg: Config, timeout: nat, blocks: seq<Block>)
    requires Sensible(cfg, blocks)
    ensures var t := TimeoutAfter(cfg, timeout, blocks);
            && (t == 0 <==> timeout == 0 && forall i | 0 <= i < |blocks| :: !Calls(cfg, blocks[i]))
            && (timeout != 0 ==> t <= timeout)
            && (forall i | 0 <= i < |blocks| && Calls(cfg, blocks[i]) :: t <= Asks(cfg, blocks[i]))
            && (t == timeout || exists i | 0 <= i < |blocks| :: Calls(cfg, blocks[i]) && t == Asks(cfg, blocks[i]))
    decreases |blocks|
  {
    hide OracleCallOf;
    if blocks != [] {
      var call, rest := OracleCallOf(cfg, blocks[0]), blocks[1..];
      var next := if call.Epoch? then UpdateTimeout(cfg, timeout, call.epoch) else timeout;
      assert forall i | 0 <= i < |rest| :: rest[i] == blocks[i + 1];
      TimeoutIsLeast(cfg, next, rest);
      var t := TimeoutAfter(cfg, timeout, blocks);
      forall i | 0 <= i < |blocks| && Calls(cfg, blocks[i]) ensures t <= Asks(cfg, blocks[i]) {
        if i > 0 {
          assert blocks[i] == rest[i - 1];
        }
      }
      if t != next {
        var i :| 0 <= i < |rest| && Calls(cfg, rest[i]) && t == Asks(cfg, rest[i]);
        assert blocks[i + 1] == rest[i];
      }
      assert t == 0 && timeout == 0 ==> forall i | 0 <= i < |blocks| :: i > 0 ==> blocks[i] == rest[i - 1];
    }
  }

  predicate NoCalls(cfg: Config, blocks: seq<Block>) {
    forall i | 0 <= i < |blocks| :: !Calls(cfg, blocks[i])
  }

  lemma {:induction false} ProcessAllNoCalls(b: Builder, blocks: seq<Block>)
    requires NoCalls(b.cfg, blocks)
    ensures ProcessAll(b, blocks).0.timeout == b.timeout
    decreases |blocks|
  {
    hide ProcessBlock;
    if blocks != [] && ProcessNext(b, blocks[0]).1.Done? {
      ProcessAllNoCalls(ProcessNext(b, blocks[0]).0, blocks[1..]);
    }
  }

  /** In every run without oracle calls the timeout stays unset, so that nothing is ever forced. */
  lemma {:induction false} NeverForcedWithoutCalls(cfg: Config, target: nat, ops: seq<Op>)
    requires forall i | 0 <= i < |ops| && ops[i].OpEnqueue? :: !Calls(cfg, ops[i].block)
    ensures var b := Run(NewBuilder(cfg, target), ops); b.timeout == 0 && b.cfg == cfg && NoCalls(cfg, b.pending)
  {
    hide Calls, ProcessAll, GetBatch;
    if ops != [] {
      var h := Run(NewBuilder(cfg, target), ops[..|ops| - 1]);
      NeverForcedWithoutCalls(cfg, target, ops[..|ops| - 1]);
      ProcessAllFrame(h, h.pending);
      ProcessAllNoCalls(h, h.pending);
    }
  }

  // ---------- which blocks are accepted ----------

  /** Each block is a child of the one before it, where that has a hash. */
  predicate Linked(blocks: seq<Block>) {
    forall i | 0 <= i < |blocks| - 1 :: blocks[i].hash != 0 ==> blocks[i + 1].parentHash == blocks[i].hash
  }

  /** The block that the last reset went back to. */
  function ResetTo(ops: seq<Op>): nat {
    if ops == [] then 0
    else if ops[|ops| - 1].OpReset? then ops[|ops| - 1].lastEnqueued
    else ResetTo(ops[..|ops| - 1])
  }

  /** The block to which the next one has to link. */
  function Tip(accepted: seq<Block>, resetTo: nat): nat {
    if accepted == [] then resetTo else accepted[|accepted| - 1].hash
  }

  lemma {:induction false} StepTip(b: Builder, accepted: seq<Block>, op: Op, resetTo: nat)
    requires b.lastEnqueued == Tip(accepted, resetTo) && Linked(accepted)
    ensures var after := AcceptedBy(b, accepted, op);
            && Step(b, op).lastEnqueued == Tip(after, if op.OpReset? then op.lastEnqueued else resetTo)
            && Linked(after)
  {
    hide ProcessAll, GetBatch;
    if op.OpBuild? {
      ProcessAllFrame(b, b.pending);
    }
  }

  lemma {:induction false} RunTip(cfg: Config, target: nat, ops: seq<Op>)
    ensures Run(NewBuilder(cfg, target), ops).lastEnqueued == Tip(Accepted(NewBuilder(cfg, target), ops), ResetTo(ops))
    ensures Linked(Accepted(NewBuilder(cfg, target), ops))
  {
    if ops != [] {
      hide Step, AcceptedBy;
      var front := ops[..|ops| - 1];
      RunTip(cfg, target, front);
      StepTip(Run(NewBuilder(cfg, target), front), Accepted(NewBuilder(cfg, target), front), ops[|ops| - 1],
              ResetTo(front));
    }
  }

  /** In every run: the accepted blocks are a chain; and a further block is accepted if and only if it is a child
      of the last one, or of the block that the last reset went back to, or there is nothing to link to. */
  lemma {:induction false} EnqueueAnswer(cfg: Config, target: nat, ops: seq<Op>, block: Block)
    ensures var accepted := Accepted(NewBuilder(cfg, target), ops);
            var tip := Tip(accepted, ResetTo(ops));
            && Linked(accepted)
            && (Enqueue(Run(NewBuilder(cfg, target), ops), block).1 <==> tip == 0 || block.parentHash == tip)
  {
    hide Run, Accepted, Linked;
    RunTip(cfg, target, ops);
  }
}
