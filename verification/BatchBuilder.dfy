/** The batch builder and encoder in their own form: objects whose methods update their fields.
    Each method does what the function of the same name in module `Batch` says. The builder is
    `Valid()` from the constructor on, which says what the batches it gives out hold. */
module BatchBuilder {
  import opened Wrappers
  import opened ByteStrings
  import Batch
  import opened BatchTypes = Batch
  import opened BatchProofs

  /** Marshals all transactions of a block and counts their bytes. */
  method MarshalAll(txs: seq<Tx>) returns (rawTxs: Option<seq<Bytes>>, numBytes: nat)
    ensures rawTxs == Batch.MarshallTxs(txs)
    ensures rawTxs.Some? ==> numBytes == TotalBytes(rawTxs.value)
  {
    var raws: seq<Bytes> := [];
    numBytes := 0;
    for i := 0 to |txs|
      invariant Batch.MarshallTxs(txs[..i]) == Some(raws)
      invariant numBytes == TotalBytes(raws)
    {
      assert txs[..i + 1][..i] == txs[..i];
      match txs[i].raw
      case None =>
        FailsForGood(txs, i + 1);
        return None, 0;
      case Some(raw) =>
        assert (raws + [raw])[..|raws|] == raws;
        raws := raws + [raw];
        numBytes := numBytes + |raw|;
    }
    assert txs[..|txs|] == txs;
    rawTxs := Some(raws);
  }

  lemma {:induction false} FailsForGood(txs: seq<Tx>, k: nat)
    requires k <= |txs| && Batch.MarshallTxs(txs[..k]).None?
    ensures Batch.MarshallTxs(txs).None?
    decreases |txs|
  {
    if k < |txs| {
      assert txs[..|txs| - 1][..k] == txs[..k];
      FailsForGood(txs[..|txs| - 1], k);
    } else {
      assert txs[..k] == txs;
    }
  }

  /** After `n` blocks, all taken, processing the rest of the queue gives the result for the whole. */
  ghost predicate Continues(before: Builder, now: Builder, n: nat)
    requires n <= |before.pending|
  {
    var (b, k, o) := ProcessAll(now, before.pending[n..]);
    ProcessAll(before, before.pending) == (b, k + n, o)
  }

  lemma {:induction false} ContinueOne(before: Builder, now: Builder, n: nat)
    requires n < |before.pending| && Continues(before, now, n)
    ensures var (next, outcome) := ProcessNext(now, before.pending[n]);
            if outcome.Done? then Continues(before, next, n + 1)
            else ProcessAll(before, before.pending) == (next, n, outcome)
  {
    hide ProcessNext;
    assert before.pending[n..][1..] == before.pending[n + 1..];
  }

  lemma {:induction false} ContinueEnd(before: Builder, now: Builder, n: nat)
    requires n <= |before.pending|
    ensures n == |before.pending| && Continues(before, now, n) ==> ProcessAll(before, before.pending) == (now, n, Done)
  {
  }

  class V0Encoder {
    const target: nat
    var subBatches: seq<SubBatch>
    var runningLen: nat

    ghost predicate Valid()
      reads this
    {
      subBatches != []
    }

    ghost function Snapshot(): Encoder
      requires Valid()
      reads this
    {
      Encoder(target, subBatches[..|subBatches| - 1], subBatches[|subBatches| - 1], runningLen)
    }

    constructor (target: nat)
      ensures Valid() && Snapshot() == NewEncoder(target)
    {
      this.target := target;
      subBatches, runningLen := [NEW_SUB_BATCH], 0;
    }

    method Reset()
      modifies this
      ensures Valid() && Snapshot() == NewEncoder(target)
    {
      subBatches, runningLen := [NEW_SUB_BATCH], 0;
    }

    method ShouldCloseBatch() returns (r: bool)
      requires Valid()
      ensures r == Batch.ShouldCloseBatch(Snapshot())
    {
      r := runningLen + ListSize(subBatches[|subBatches| - 1].contentSize) > target;
    }

    method CloseSubBatch()
      requires Valid()
      modifies this
      ensures Valid() && Snapshot() == Batch.CloseSubBatch(old(Snapshot()))
    {
      var size := ListSize(subBatches[|subBatches| - 1].contentSize);
      if size == 0 { return; }
      runningLen := runningLen + size;
      assert subBatches == subBatches[..|subBatches| - 1] + [subBatches[|subBatches| - 1]];
      subBatches := subBatches + [NEW_SUB_BATCH];
    }

    /** Appends to the open sub-batch. */
    method AppendTxBlock(number: nat, txs: seq<Tx>) returns (outcome: Outcome)
      requires Valid()
      modifies this`subBatches
      ensures Valid()
      ensures var (open, o) := Batch.AppendTxBlock(old(Snapshot()).open, number, txs);
              outcome == o && Snapshot() == old(Snapshot()).(open := open)
    {
      var last := |subBatches| - 1;
      var s := subBatches[last];
      if |s.txBlocks| == 0 {
        s := s.(firstL2BlockNum := number, contentSize := s.contentSize + IntSize(number));
      }
      var marshalled, numBytes := MarshalAll(txs);
      if marshalled.Some? {
        s := s.(txBlocks := s.txBlocks + [marshalled.value], contentSize := s.contentSize + numBytes);
      }
      subBatches := subBatches[last := s];
      outcome := if marshalled.Some? then Done else Failed;
    }

    method ProcessBlock(block: Block, isNewEpoch: bool) returns (outcome: Outcome)
      requires Valid()
      modifies this
      ensures Valid() && (Snapshot(), outcome) == Batch.ProcessBlock(old(Snapshot()), block, isNewEpoch)
    {
      var shouldSkipBlock := |block.txs| == 0;
      var shouldCloseBatch := ShouldCloseBatch();
      if shouldCloseBatch || shouldSkipBlock || isNewEpoch {
        CloseSubBatch();
      }
      if shouldCloseBatch { return BatchFull; }
      if shouldSkipBlock { return Done; }
      outcome := AppendTxBlock(block.number, block.txs);
    }

    method GetBatch(force: bool) returns (batch: Option<BatchData>)
      requires Valid()
      modifies this
      ensures Valid() && (Snapshot(), batch) == Batch.GetBatch(old(Snapshot()), force)
    {
      var totalLen := runningLen + subBatches[|subBatches| - 1].contentSize;
      if !force && totalLen < target { return None; }
      var shouldCloseBatch := ShouldCloseBatch();
      if shouldCloseBatch {
        CloseSubBatch();
      }
      batch := Some(BatchData(V0, subBatches[..|subBatches| - 1]));
    }
  }

  class BatchBuilder {
    const cfg: Config
    const encoder: V0Encoder
    var pendingBlocks: seq<Block>
    var lastEnqueued: nat
    var lastBuilt: Option<BatchData>
    var timeout: nat
    /** The blocks enqueued since the last reset. */
    ghost var accepted: seq<Block>

    /** Kept by every call: capped sizes, and nothing lost as long as all accepted blocks are good. */
    ghost predicate Valid()
      reads this, encoder
    {
      encoder.Valid() && Followed(Snapshot(), accepted)
    }

    ghost function Snapshot(): Builder
      requires encoder.Valid()
      reads this, encoder
    {
      Builder(cfg, encoder.Snapshot(), pendingBlocks, lastEnqueued, lastBuilt, timeout)
    }

    constructor (cfg: Config, encoder: V0Encoder)
      requires encoder.Valid() && encoder.Snapshot() == NewEncoder(encoder.target)
      ensures Valid() && Snapshot() == NewBuilder(cfg, encoder.target) && accepted == []
    {
      this.cfg, this.encoder := cfg, encoder;
      pendingBlocks, lastEnqueued, lastBuilt, timeout, accepted := [], 0, None, 0, [];
      new;
      FreshFollowed(cfg, encoder.target);
    }

    method Enqueue(block: Block) returns (ok: bool)
      requires Valid()
      modifies this
      ensures Valid() && (Snapshot(), ok) == Batch.Enqueue(old(Snapshot()), block)
      ensures accepted == if ok then old(accepted) + [block] else old(accepted)
    {
      hide Followed;
      StepFollowed(Snapshot(), accepted, OpEnqueue(block));
      if lastEnqueued != 0 && block.parentHash != lastEnqueued { return false; }
      pendingBlocks := pendingBlocks + [block];
      lastEnqueued := block.hash;
      accepted := accepted + [block];
      ok := true;
    }

    method Reset(id: nat)
      requires Valid()
      modifies this, encoder
      ensures Valid() && Snapshot() == Batch.Reset(old(Snapshot()), id) && accepted == []
    {
      hide Followed;
      StepFollowed(Snapshot(), accepted, OpReset(id));
      encoder.Reset();
      pendingBlocks := [];
      lastEnqueued := id;
      lastBuilt := None;
      accepted := [];
    }

    method Advance()
      requires Valid()
      modifies this
      ensures Valid() && Snapshot() == Batch.Advance(old(Snapshot())) && accepted == old(accepted)
    {
      hide Followed;
      StepFollowed(Snapshot(), accepted, OpAdvance);
      lastBuilt := None;
    }

    method UpdateTimeout(epoch: nat)
      modifies this`timeout
      ensures timeout == Batch.UpdateTimeout(cfg, old(timeout), epoch)
    {
      var t := (epoch + cfg.seqWindowSize - cfg.subSafetyMargin) % UINT64;
      if timeout == 0 || timeout > t {
        timeout := t;
      }
    }

    method ProcessBlock(block: Block) returns (outcome: Outcome)
      requires encoder.Valid()
      modifies this`timeout, encoder
      ensures encoder.Valid() && (Snapshot(), outcome) == ProcessNext(old(Snapshot()), block)
    {
      var epoch := 0;
      if |block.txs| > 0 {
        var firstTx := block.txs[0];
        if firstTx.to.None? { return Failed; }
        if firstTx.to.value == cfg.oracle {
          if firstTx.epoch.None? { return Failed; }
          epoch := firstTx.epoch.value;
          UpdateTimeout(epoch);
        }
      }
      outcome := encoder.ProcessBlock(block, epoch != 0);
    }

    /** Encodes the queue, which holds at least one block. */
    method EncodePending() returns (ok: bool)
      requires encoder.Valid()
      modifies this`timeout, this`pendingBlocks, encoder
      ensures encoder.Valid() && (Snapshot(), ok) == Batch.EncodePending(old(Snapshot()))
    {
      hide ProcessNext, ProcessAll;
      ghost var before := Snapshot();
      var numProcessed := 0;
      while numProcessed < |pendingBlocks|
        invariant encoder.Valid() && numProcessed <= |pendingBlocks|
        invariant pendingBlocks == before.pending && Snapshot().pending == before.pending
        invariant Continues(before, Snapshot(), numProcessed)
      {
        ContinueOne(before, Snapshot(), numProcessed);
        var outcome := ProcessBlock(pendingBlocks[numProcessed]);
        if outcome.BatchFull? { break; }
        if outcome.Failed? { return false; }
        numProcessed := numProcessed + 1;
      }
      ContinueEnd(before, Snapshot(), numProcessed);
      pendingBlocks := pendingBlocks[numProcessed..];
      ok := true;
    }

    /** As long as the accepted blocks are good, building does not fail, and a batch holds a prefix of
        the non-empty ones; under their own numbers, if these are consecutive. */
    method Build(l1Head: nat) returns (result: BuildResult)
      requires Valid()
      modifies this, encoder
      ensures Valid() && (Snapshot(), result) == Batch.Build(old(Snapshot()), l1Head) && accepted == old(accepted)
      ensures AllGood(cfg, accepted) ==> !result.Error?
      ensures AllGood(cfg, accepted) && result.Built? ==>
                && DecodedAll(result.batch.subBatches, false) <= Stream(accepted, false)
                && (Consecutive(accepted) ==> DecodedAll(result.batch.subBatches, true) <= Stream(accepted, true))
    {
      hide Followed, AllGood, Consecutive, DecodedAll, Stream;
      StepFollowed(Snapshot(), accepted, OpBuild(l1Head));
      if AllGood(cfg, accepted) {
        FollowedBuild(Snapshot(), accepted, l1Head, false);
        if Consecutive(accepted) {
          FollowedBuild(Snapshot(), accepted, l1Head, true);
        }
      }
      if lastBuilt.Some? { return Built(lastBuilt.value); }
      if |pendingBlocks| == 0 { return Eof; }
      hide ProcessAll, Batch.EncodePending, Batch.GetBatch;
      var ok := EncodePending();
      if !ok { return Error; }
      var force := timeout != 0 && l1Head >= timeout;
      var batch := encoder.GetBatch(force);
      if batch.None? { return Eof; }
      lastBuilt := batch;
      result := Built(batch.value);
    }
  }
}
