/** What the batches hold: every non-empty block, once, in order, under its own number; and how
    large they get. */
module BatchProofs {
  import opened Wrappers
  import opened ByteStrings
  import opened Rlp
  import opened Batch

  // ---------- sizes ----------

  /** The size functions are the lengths of actual RLP encodings. */
  lemma {:induction false} SizesAreEncodings(payload: Bytes, x: nat)
    requires x < UINT64
    ensures ListSize(|payload|) == |EncodeList(payload)|
    ensures IntSize(x) == |EncodeString(ToBE(x))|
  {
    LimitIsEightBytes(x);
    ToBELength(x, 8);
    FromToBE(x);
    if x < 256 {
      assert ToBE(x / 256) == [];
    } else {
      FromToBE(x / 256);
    }
  }

  function Contents(subs: seq<SubBatch>): nat {
    if subs == [] then 0 else Contents(subs[..|subs| - 1]) + subs[|subs| - 1].contentSize
  }

  function ListSizes(subs: seq<SubBatch>): nat {
    if subs == [] then 0 else ListSizes(subs[..|subs| - 1]) + ListSize(subs[|subs| - 1].contentSize)
  }

  lemma {:induction false} ContentsBelowSizes(subs: seq<SubBatch>)
    ensures Contents(subs) <= ListSizes(subs)
  {
    if subs != [] {
      ContentsBelowSizes(subs[..|subs| - 1]);
    }
  }

  /** What the last attempt to append a block added to the content. */
  function LastContribution(subs: seq<SubBatch>): nat {
    if subs == [] then 0
    else
      var s := subs[|subs| - 1];
      if s.contentSize == 0 then LastContribution(subs[..|subs| - 1])
      else if s.txBlocks == [] then IntSize(s.firstL2BlockNum)
      else TotalBytes(s.txBlocks[|s.txBlocks| - 1]) + (if |s.txBlocks| == 1 then IntSize(s.firstL2BlockNum) else 0)
  }

  /** `runningLen` is the size of the closed part, and without its last block the batch fits. */
  ghost predicate Capped(e: Encoder) {
    && e.runningLen == ListSizes(e.closed)
    && (e.open.txBlocks != [] ==> e.open.contentSize > 0)
    && Contents(e.SubBatches()) <= e.target + LastContribution(e.SubBatches())
  }

  lemma {:induction false} OpenLast(e: Encoder)
    ensures Contents(e.SubBatches()) == Contents(e.closed) + e.open.contentSize
    ensures ListSizes(e.SubBatches()) == ListSizes(e.closed) + ListSize(e.open.contentSize)
    ensures e.open.contentSize == 0 ==> LastContribution(e.SubBatches()) == LastContribution(e.closed)
  {
    assert e.SubBatches()[..|e.SubBatches()| - 1] == e.closed;
  }

  lemma {:induction false} CloseCapped(e: Encoder)
    requires Capped(e)
    ensures Capped(CloseSubBatch(e))
  {
    OpenLast(e);
    OpenLast(CloseSubBatch(e));
  }

  lemma {:induction false} AppendCapped(e: Encoder, number: nat, txs: seq<Tx>)
    requires Capped(e) && Contents(e.SubBatches()) <= e.target
    ensures Capped(e.(open := AppendTxBlock(e.open, number, txs).0))
  {
    hide IntSize, ListSize, TotalBytes, MarshallTxs, ListSizes;
    OpenLast(e);
    OpenLast(e.(open := AppendTxBlock(e.open, number, txs).0));
  }

  lemma {:induction false} ProcessCapped(e: Encoder, block: Block, isNewEpoch: bool)
    requires Capped(e)
    ensures Capped(ProcessBlock(e, block, isNewEpoch).0)
  {
    hide Capped, AppendTxBlock, CloseSubBatch;
    CloseCapped(e);
    if !ShouldCloseBatch(e) && block.txs != [] {
      var e1 := if isNewEpoch then CloseSubBatch(e) else e;
      FitsBeforeAppend(e, isNewEpoch);
      AppendCapped(e1, block.number, block.txs);
    }
  }

  lemma {:induction false} FitsBeforeAppend(e: Encoder, close: bool)
    requires Capped(e) && !ShouldCloseBatch(e)
    ensures var e1 := if close then CloseSubBatch(e) else e;
            Contents(e1.SubBatches()) <= e1.target
  {
    OpenLast(e);
    OpenLast(CloseSubBatch(e));
    ContentsBelowSizes(e.closed);
  }

  lemma {:induction false} ProcessAllCapped(b: Builder, blocks: seq<Block>)
    requires Capped(b.encoder)
    ensures Capped(ProcessAll(b, blocks).0.encoder)
    decreases |blocks|
  {
    hide Capped, ProcessBlock;
    if blocks != [] {
      var call := OracleCallOf(b.cfg, blocks[0]);
      ProcessCapped(b.encoder, blocks[0], call.Epoch? && call.epoch != 0);
      if ProcessNext(b, blocks[0]).1.Done? {
        ProcessAllCapped(ProcessNext(b, blocks[0]).0, blocks[1..]);
      }
    }
  }

  lemma {:induction false} StepCapped(b: Builder, op: Op)
    requires Capped(b.encoder)
    ensures Capped(Step(b, op).encoder)
  {
    hide Build;
    match op
    case OpBuild(l1Head) => BuildCapped(b, l1Head);
    case OpReset(_) => OpenLast(NewEncoder(b.encoder.target));
    case _ =>
  }

  lemma {:induction false} BuildCapped(b: Builder, l1Head: nat)
    requires Capped(b.encoder)
    ensures Capped(Build(b, l1Head).0.encoder)
  {
    hide Capped, ProcessAll, CloseSubBatch, ShouldCloseBatch;
    ProcessAllCapped(b, b.pending);
    CloseCapped(ProcessAll(b, b.pending).0.encoder);
  }

  /** Soft cap: in every reachable state, whatever failed on the way, the running length is the
      summed list size of the closed sub-batches, and the content of all sub-batches is at most the
      target plus what the last block contributed. */
  lemma {:induction false} SoftCap(cfg: Config, target: nat, ops: seq<Op>)
    ensures var e := Run(NewBuilder(cfg, target), ops).encoder;
            && e.target == target
            && e.runningLen == ListSizes(e.closed)
            && Contents(e.SubBatches()) <= target + LastContribution(e.SubBatches())
  {
    RunCapped(cfg, target, ops);
    RunTarget(cfg, target, ops);
  }

  lemma {:induction false} RunCapped(cfg: Config, target: nat, ops: seq<Op>)
    ensures Capped(Run(NewBuilder(cfg, target), ops).encoder)
  {
    if ops == [] {
      OpenLast(NewEncoder(target));
    } else {
      RunCapped(cfg, target, ops[..|ops| - 1]);
      StepCapped(Run(NewBuilder(cfg, target), ops[..|ops| - 1]), ops[|ops| - 1]);
    }
  }

  lemma {:induction false} ProcessAllFrame(b: Builder, blocks: seq<Block>)
    ensures var b' := ProcessAll(b, blocks).0;
            && b'.encoder.target == b.encoder.target
            && b' == b.(encoder := b'.encoder, timeout := b'.timeout)
    decreases |blocks|
  {
    if blocks != [] && ProcessNext(b, blocks[0]).1.Done? {
      ProcessAllFrame(ProcessNext(b, blocks[0]).0, blocks[1..]);
    }
  }

  lemma {:induction false} StepTarget(b: Builder, op: Op)
    ensures Step(b, op).encoder.target == b.encoder.target && Step(b, op).cfg == b.cfg
  {
    hide ProcessAll, ListSize;
    if op.OpBuild? {
      ProcessAllFrame(b, b.pending);
    }
  }

  lemma {:induction false} RunTarget(cfg: Config, target: nat, ops: seq<Op>)
    ensures Run(NewBuilder(cfg, target), ops).encoder.target == target
    ensures Run(NewBuilder(cfg, target), ops).cfg == cfg
  {
    hide Step;
    if ops != [] {
      RunTarget(cfg, target, ops[..|ops| - 1]);
      StepTarget(Run(NewBuilder(cfg, target), ops[..|ops| - 1]), ops[|ops| - 1]);
    }
  }

  // ---------- contents ----------

  /** A block as a reader of the batch sees it. With `numbered` false, numbers are erased. */
  type Entry = (nat, seq<Bytes>)

  function Raws(txs: seq<Tx>): seq<Bytes> {
    if txs == [] then []
    else Raws(txs[..|txs| - 1]) + [if txs[|txs| - 1].raw.Some? then txs[|txs| - 1].raw.value else []]
  }

  /** The blocks that are not intrinsically derivable. */
  function Stream(blocks: seq<Block>, numbered: bool): seq<Entry> {
    if blocks == [] then []
    else
      var last := blocks[|blocks| - 1];
      Stream(blocks[..|blocks| - 1], numbered)
      + (if last.txs == [] then [] else [(if numbered then last.number else 0, Raws(last.txs))])
  }

  /** What a reader recovers from a sub-batch: consecutive numbers from the first one on. */
  function Decoded(s: SubBatch, numbered: bool): seq<Entry> {
    seq(|s.txBlocks|, (k: int) requires 0 <= k < |s.txBlocks| =>
          (if numbered then s.firstL2BlockNum + k else 0, s.txBlocks[k]))
  }

  function DecodedAll(subs: seq<SubBatch>, numbered: bool): seq<Entry> {
    if subs == [] then [] else DecodedAll(subs[..|subs| - 1], numbered) + Decoded(subs[|subs| - 1], numbered)
  }

  predicate Consecutive(blocks: seq<Block>) {
    forall i | 0 <= i < |blocks| - 1 :: blocks[i + 1].number == blocks[i].number + 1
  }

  /** A block whose oracle call, if any, unpacks and whose transactions all marshal. */
  predicate Good(cfg: Config, block: Block) {
    !OracleCallOf(cfg, block).Unreadable? && MarshallTxs(block.txs).Some?
  }

  lemma {:induction false} MarshalledAreRaws(txs: seq<Tx>)
    requires MarshallTxs(txs).Some?
    ensures MarshallTxs(txs).value == Raws(txs)
  {
    if txs != [] {
      MarshalledAreRaws(txs[..|txs| - 1]);
    }
  }

  lemma {:induction false} StreamAppend(a: seq<Block>, b: seq<Block>, numbered: bool)
    ensures Stream(a + b, numbered) == Stream(a, numbered) + Stream(b, numbered)
    decreases |b|
  {
    if b == [] {
      assert a + b == a;
    } else {
      assert (a + b)[..|a + b| - 1] == a + b[..|b| - 1];
      StreamAppend(a, b[..|b| - 1], numbered);
    }
  }

  lemma {:induction false} DecodedLast(e: Encoder, numbered: bool)
    ensures DecodedAll(e.SubBatches(), numbered) == DecodedAll(e.closed, numbered) + Decoded(e.open, numbered)
  {
    assert e.SubBatches()[..|e.SubBatches()| - 1] == e.closed;
  }

  /** The sub-batches hold `base` and then exactly the blocks `done`; and a block that continues the
      open sub-batch also continues its numbering. */
  ghost predicate Holds(e: Encoder, base: seq<Entry>, done: seq<Block>, numbered: bool) {
    && DecodedAll(e.SubBatches(), numbered) == base + Stream(done, numbered)
    && (numbered && e.open.txBlocks != [] ==>
          done != [] && e.open.firstL2BlockNum + |e.open.txBlocks| == done[|done| - 1].number + 1)
  }

  lemma {:induction false} CloseKeepsDecoded(e: Encoder, numbered: bool)
    ensures DecodedAll(CloseSubBatch(e).SubBatches(), numbered) == DecodedAll(e.SubBatches(), numbered)
  {
    DecodedLast(CloseSubBatch(e), numbered);
    assert CloseSubBatch(e).closed == e.SubBatches();
    assert Decoded(NEW_SUB_BATCH, numbered) == [];
  }

  lemma {:induction false} AppendDecoded(s: SubBatch, number: nat, txs: seq<Tx>, numbered: bool)
    requires MarshallTxs(txs).Some?
    requires numbered && s.txBlocks != [] ==> number == s.firstL2BlockNum + |s.txBlocks|
    ensures var (s', outcome) := AppendTxBlock(s, number, txs);
            && outcome.Done?
            && Decoded(s', numbered) == Decoded(s, numbered) + [(if numbered then number else 0, Raws(txs))]
            && s'.firstL2BlockNum + |s'.txBlocks|
               == (if s.txBlocks == [] then number else s.firstL2BlockNum + |s.txBlocks|) + 1
  {
    MarshalledAreRaws(txs);
  }

  lemma {:induction false} FailedAppendDecoded(s: SubBatch, number: nat, txs: seq<Tx>)
    requires MarshallTxs(txs).None?
    ensures AppendTxBlock(s, number, txs).1.Failed?
    ensures Decoded(AppendTxBlock(s, number, txs).0, false) == Decoded(s, false)
  {
  }

  lemma {:induction false} StreamSnoc(done: seq<Block>, block: Block, numbered: bool)
    ensures Stream(done + [block], numbered)
            == Stream(done, numbered) + (if block.txs == [] then []
                                         else [(if numbered then block.number else 0, Raws(block.txs))])
  {
    var all := done + [block];
    assert all[..|all| - 1] == done && all[|all| - 1] == block;
  }

  lemma {:induction false} AppendHolds(e: Encoder, base: seq<Entry>, done: seq<Block>, block: Block, numbered: bool)
    requires Holds(e, base, done, numbered) && block.txs != []
    requires numbered ==> MarshallTxs(block.txs).Some? && Consecutive(done + [block])
    ensures var (open, outcome) := AppendTxBlock(e.open, block.number, block.txs);
            && Holds(e.(open := open), base, if outcome.Done? then done + [block] else done, numbered)
            && (outcome.Failed? <==> MarshallTxs(block.txs).None?)
  {
    hide MarshallTxs, DecodedAll, Decoded, AppendTxBlock, Stream;
    var e' := e.(open := AppendTxBlock(e.open, block.number, block.txs).0);
    DecodedLast(e, numbered);
    DecodedLast(e', numbered);
    if MarshallTxs(block.txs).Some? {
      if numbered && e.open.txBlocks != [] {
        var all := done + [block];
        assert all[|done| - 1] == done[|done| - 1] && all[|done| - 1 + 1] == block;
      }
      AppendDecoded(e.open, block.number, block.txs, numbered);
      StreamSnoc(done, block, numbered);
      var entry := (if numbered then block.number else 0, Raws(block.txs));
      assert base + Stream(done, numbered) + [entry] == base + (Stream(done, numbered) + [entry]);
    } else {
      FailedAppendDecoded(e.open, block.number, block.txs);
    }
  }

  /** A block that is not taken leaves the contents alone; one that is taken is added. */
  lemma {:induction false} ProcessHolds(e: Encoder, base: seq<Entry>, done: seq<Block>, block: Block, isNewEpoch: bool,
                                        numbered: bool)
    requires Holds(e, base, done, numbered)
    requires numbered ==> MarshallTxs(block.txs).Some? && Consecutive(done + [block])
    ensures var (e', outcome) := ProcessBlock(e, block, isNewEpoch);
            && Holds(e', base, if outcome.Done? then done + [block] else done, numbered)
            && (MarshallTxs(block.txs).Some? ==> !outcome.Failed?)
  {
    hide MarshallTxs, DecodedAll, ListSize, AppendTxBlock, Consecutive, Stream;
    var skip := block.txs == [];
    var e1 := if ShouldCloseBatch(e) || skip || isNewEpoch then CloseSubBatch(e) else e;
    CloseKeepsDecoded(e, numbered);
    StreamSnoc(done, block, numbered);
    if !ShouldCloseBatch(e) && !skip {
      AppendHolds(e1, base, done, block, numbered);
    }
  }

  lemma {:induction false} ConsecutivePrefix(blocks: seq<Block>, k: nat)
    requires Consecutive(blocks) && k <= |blocks|
    ensures Consecutive(blocks[..k])
  {
  }

  ghost predicate AllGood(cfg: Config, blocks: seq<Block>) {
    forall i | 0 <= i < |blocks| :: Good(cfg, blocks[i])
  }

  /** The blocks that were taken are added, and nothing else. */
  lemma {:induction false} ProcessAllHolds(b: Builder, base: seq<Entry>, done: seq<Block>, blocks: seq<Block>,
                                           numbered: bool)
    requires Holds(b.encoder, base, done, numbered)
    requires numbered ==> AllGood(b.cfg, blocks) && Consecutive(done + blocks)
    ensures var (b', n, outcome) := ProcessAll(b, blocks);
            && Holds(b'.encoder, base, done + blocks[..n], numbered)
            && (AllGood(b.cfg, blocks) ==> !outcome.Failed?)
    decreases |blocks|
  {
    hide Holds, ProcessBlock, MarshallTxs, Consecutive;
    if blocks == [] {
      assert done + blocks == done;
    } else {
      var block := blocks[0];
      var call := OracleCallOf(b.cfg, block);
      if numbered {
        assert done + [block] == (done + blocks)[..|done| + 1];
        ConsecutivePrefix(done + blocks, |done| + 1);
      }
      ProcessHolds(b.encoder, base, done, block, call.Epoch? && call.epoch != 0, numbered);
      var (b1, outcome) := ProcessNext(b, block);
      if outcome.Done? {
        assert done + [block] + blocks[1..] == done + blocks;
        ProcessAllHolds(b1, base, done + [block], blocks[1..], numbered);
        var n := ProcessAll(b1, blocks[1..]).1;
        assert done + [block] + blocks[1..][..n] == done + blocks[..n + 1];
      } else {
        assert done + blocks[..0] == done;
      }
    }
  }

  // ---------- measured content ----------

  function BlockBytes(txBlocks: seq<seq<Bytes>>): nat {
    if txBlocks == [] then 0 else BlockBytes(txBlocks[..|txBlocks| - 1]) + TotalBytes(txBlocks[|txBlocks| - 1])
  }

  /** The content size is the size of the first number and of all transactions. */
  ghost predicate Measured(s: SubBatch) {
    s.contentSize == BlockBytes(s.txBlocks) + if s.txBlocks == [] then 0 else IntSize(s.firstL2BlockNum)
  }

  ghost predicate AllMeasured(e: Encoder) {
    Measured(e.open) && forall i | 0 <= i < |e.closed| :: Measured(e.closed[i])
  }

  lemma {:induction false} AppendMeasured(s: SubBatch, number: nat, txs: seq<Tx>)
    requires Measured(s) && MarshallTxs(txs).Some?
    ensures Measured(AppendTxBlock(s, number, txs).0)
  {
    hide IntSize, TotalBytes, MarshallTxs;
    var s' := AppendTxBlock(s, number, txs).0;
    assert s'.txBlocks[..|s'.txBlocks| - 1] == s.txBlocks;
  }

  lemma {:induction false} ProcessAllMeasured(b: Builder, blocks: seq<Block>)
    requires AllMeasured(b.encoder) && AllGood(b.cfg, blocks)
    ensures AllMeasured(ProcessAll(b, blocks).0.encoder)
    decreases |blocks|
  {
    hide Measured, AppendTxBlock, MarshallTxs, ListSize;
    if blocks != [] {
      var block := blocks[0];
      NewMeasured();
      AppendMeasured(NEW_SUB_BATCH, block.number, block.txs);
      AppendMeasured(b.encoder.open, block.number, block.txs);
      if ProcessNext(b, block).1.Done? {
        ProcessAllMeasured(ProcessNext(b, block).0, blocks[1..]);
      }
    }
  }

  lemma {:induction false} NewMeasured()
    ensures Measured(NEW_SUB_BATCH)
  {
  }

  // ---------- one call of encodePending ----------

  /** Everything in the builder: what is encoded and what is still queued. */
  ghost function Everything(b: Builder): seq<Entry> {
    DecodedAll(b.encoder.SubBatches(), false) + Stream(b.pending, false)
  }

  /** What the encoder's sizes amount to: closed length, open content, and whether the open sub-batch
      has its first number. */
  datatype Fill = Fill(running: nat, content: nat, started: bool)
  {
    /** The size that is held against the target before each block. */
    function Level(): nat { running + ListSize(content) }
  }

  function FillOf(e: Encoder): Fill { Fill(e.runningLen, e.open.contentSize, e.open.txBlocks != []) }

  predicate NewEpoch(cfg: Config, block: Block) {
    var call := OracleCallOf(cfg, block);
    call.Epoch? && call.epoch != 0
  }

  /** The sizes after one more block, were there no target. */
  function AddBlock(cfg: Config, f: Fill, block: Block): Fill {
    var f1 := if block.txs == [] || NewEpoch(cfg, block) then Fill(f.Level(), 0, false) else f;
    if block.txs == [] then f1
    else
      var first := if f1.started then 0 else IntSize(block.number);
      Fill(f1.running, f1.content + first + TotalBytes(Raws(block.txs)), true)
  }

  function AddAll(cfg: Config, f: Fill, blocks: seq<Block>): Fill
    decreases |blocks|
  {
    if blocks == [] then f else AddAll(cfg, AddBlock(cfg, f, blocks[0]), blocks[1..])
  }

  /** The position of the first block that is not good, or the length of the queue. */
  function FirstBad(cfg: Config, blocks: seq<Block>): (k: nat)
    ensures k <= |blocks|
    ensures forall i | 0 <= i < k :: Good(cfg, blocks[i])
    ensures k < |blocks| ==> !Good(cfg, blocks[k])
    decreases |blocks|
  {
    if blocks == [] || !Good(cfg, blocks[0]) then 0 else 1 + FirstBad(cfg, blocks[1..])
  }

  /** Told from the queue and the sizes alone: the first bad block is reached before the batch is
      full. An unreadable block is refused before the target is looked at, one that does not marshal
      only after. */
  predicate WillFail(cfg: Config, target: nat, f: Fill, blocks: seq<Block>) {
    var k := FirstBad(cfg, blocks);
    && k < |blocks|
    && (k > 0 ==> AddAll(cfg, f, blocks[..k - 1]).Level() <= target)
    && (OracleCallOf(cfg, blocks[k]).Unreadable? || AddAll(cfg, f, blocks[..k]).Level() <= target)
  }

  lemma {:induction false} ListSizeMonotone(a: nat, b: nat)
    requires a <= b
    ensures ListSize(a) <= ListSize(b)
  {
    ToBEMonotone(a, b);
  }

  lemma {:induction false} ToBEMonotone(a: nat, b: nat)
    requires a <= b
    ensures |ToBE(a)| <= |ToBE(b)|
  {
    if a > 0 {
      ToBEMonotone(a / 256, b / 256);
    }
  }

  lemma {:induction false} LevelGrows(cfg: Config, f: Fill, blocks: seq<Block>)
    ensures f.Level() <= AddAll(cfg, f, blocks).Level()
    decreases |blocks|
  {
    hide ListSize, TotalBytes, OracleCallOf, IntSize;
    if blocks != [] {
      var g := AddBlock(cfg, f, blocks[0]);
      var emptied := Fill(f.Level(), 0, false);
      ListSizeMonotone(f.content, if g.running == f.running then g.content else f.content);
      ListSizeMonotone(0, g.content);
      LevelGrows(cfg, g, blocks[1..]);
    }
  }

  /** A good block is refused exactly when the batch is full, and otherwise fills it as told. */
  lemma {:induction false} GoodBlockFills(b: Builder, block: Block)
    requires Good(b.cfg, block)
    ensures var (b', outcome) := ProcessNext(b, block);
            && outcome == (if FillOf(b.encoder).Level() > b.encoder.target then BatchFull else Done)
            && (outcome.Done? ==> FillOf(b'.encoder) == AddBlock(b.cfg, FillOf(b.encoder), block))
            && b'.encoder.target == b.encoder.target && b'.cfg == b.cfg
  {
    hide ListSize, TotalBytes, IntSize, MarshallTxs;
    MarshalledAreRaws(block.txs);
  }

  lemma {:induction false} BadBlockFails(b: Builder, block: Block)
    requires !Good(b.cfg, block)
    ensures ProcessNext(b, block).1.Failed? <==>
            OracleCallOf(b.cfg, block).Unreadable? || FillOf(b.encoder).Level() <= b.encoder.target
    ensures !ProcessNext(b, block).1.Done?
  {
    hide ListSize;
  }

  /** A call fails if and only if `WillFail` says so beforehand, and then it has taken exactly the
      blocks before the first bad one. */
  lemma {:induction false} FailsExactly(b: Builder, blocks: seq<Block>)
    ensures var (_, n, outcome) := ProcessAll(b, blocks);
            && (outcome.Failed? <==> WillFail(b.cfg, b.encoder.target, FillOf(b.encoder), blocks))
            && (outcome.Failed? ==> n == FirstBad(b.cfg, blocks))
    decreases |blocks|
  {
    hide ProcessNext, Good, AddBlock, OracleCallOf;
    if blocks != [] {
      var (cfg, f, k) := (b.cfg, FillOf(b.encoder), FirstBad(b.cfg, blocks));
      if !Good(cfg, blocks[0]) {
        BadBlockFails(b, blocks[0]);
      } else {
        GoodBlockFills(b, blocks[0]);
        var rest := blocks[1..];
        assert blocks[..k][1..] == rest[..k - 1];
        if f.Level() > b.encoder.target {
          LevelGrows(cfg, f, blocks[..k - 1]);
        } else {
          FailsExactly(ProcessNext(b, blocks[0]).0, rest);
          if k > 1 {
            assert blocks[..k - 1][1..] == rest[..k - 2];
          }
        }
      }
    }
  }

  /** For any builder and any queue: encoding pending blocks never loses anything, and duplicates
      exactly the blocks before the first bad one if it will fail. So it changes what the builder
      holds if and only if it will fail behind a non-empty block. The condition only looks at the
      queue, the target and the sizes before the call. */
  lemma {:induction false} EncodePendingExact(b: Builder)
    ensures var twice := if WillFail(b.cfg, b.encoder.target, FillOf(b.encoder), b.pending)
                         then b.pending[..FirstBad(b.cfg, b.pending)] else [];
            Everything(EncodePending(b).0)
            == DecodedAll(b.encoder.SubBatches(), false) + Stream(twice, false) + Stream(b.pending, false)
    ensures Everything(EncodePending(b).0) != Everything(b) <==>
            && WillFail(b.cfg, b.encoder.target, FillOf(b.encoder), b.pending)
            && exists i | 0 <= i < FirstBad(b.cfg, b.pending) :: b.pending[i].txs != []
  {
    hide ProcessAll, DecodedAll, Stream, WillFail, FirstBad;
    FailsExactly(b, b.pending);
    EncodedTwice(b);
    EmptyStream();
    StreamEmpty(b.pending[..FirstBad(b.cfg, b.pending)]);
  }

  lemma {:induction false} StreamEmpty(blocks: seq<Block>)
    ensures Stream(blocks, false) == [] <==> forall i | 0 <= i < |blocks| :: blocks[i].txs == []
  {
    if blocks != [] {
      StreamEmpty(blocks[..|blocks| - 1]);
    }
  }

  /** A failing call leaves what it has taken both encoded and queued. */
  lemma {:induction false} EncodedTwice(b: Builder)
    ensures var (_, n, outcome) := ProcessAll(b, b.pending);
            && Everything(EncodePending(b).0)
               == DecodedAll(b.encoder.SubBatches(), false)
                  + (if outcome.Failed? then Stream(b.pending[..n], false) else []) + Stream(b.pending, false)
            && (Everything(EncodePending(b).0) != Everything(b) <==>
                  outcome.Failed? && Stream(b.pending[..n], false) != [])
  {
    hide ProcessAll, DecodedAll, Stream;
    var base := DecodedAll(b.encoder.SubBatches(), false);
    EmptyStream();
    assert Holds(b.encoder, base, [], false);
    ProcessAllHolds(b, base, [], b.pending, false);
    ProcessAllFrame(b, b.pending);
    var (b', n, outcome) := ProcessAll(b, b.pending);
    assert [] + b.pending[..n] == b.pending[..n];
    assert b.pending[..n] + b.pending[n..] == b.pending;
    StreamAppend(b.pending[..n], b.pending[n..], false);
    var taken := Stream(b.pending[..n], false);
    if outcome.Failed? {
      assert Everything(EncodePending(b).0) == base + taken + Stream(b.pending, false);
      if taken != [] {
        assert |Everything(EncodePending(b).0)| > |Everything(b)|;
      }
    } else {
      assert Everything(EncodePending(b).0) == base + taken + Stream(b.pending[n..], false);
    }
  }

  lemma {:induction false} EmptyStream()
    ensures Stream([], false) == [] && Stream([], true) == []
  {
  }

  // ---------- runs ----------

  /** The queue is the tail of the accepted blocks, and the encoder holds all before it. */
  ghost predicate Tracks(b: Builder, accepted: seq<Block>, numbered: bool) {
    var n := |accepted| - |b.pending|;
    && n >= 0
    && accepted[n..] == b.pending
    && Holds(b.encoder, [], accepted[..n], numbered)
  }

  lemma {:induction false} EnqueueTracks(b: Builder, accepted: seq<Block>, block: Block, numbered: bool)
    requires Tracks(b, accepted, numbered)
    ensures var (b', ok) := Enqueue(b, block);
            Tracks(b', if ok then accepted + [block] else accepted, numbered)
  {
    hide Holds;
    if Enqueue(b, block).1 {
      var n := |accepted| - |b.pending|;
      assert (accepted + [block])[n..] == b.pending + [block];
      assert (accepted + [block])[..n] == accepted[..n];
    }
  }

  lemma {:induction false} GetBatchHolds(e: Encoder, base: seq<Entry>, done: seq<Block>, numbered: bool, force: bool)
    requires Holds(e, base, done, numbered)
    ensures Holds(GetBatch(e, force).0, base, done, numbered)
  {
    CloseKeepsDecoded(e, numbered);
  }

  lemma {:induction false} EncodeTracks(b: Builder, accepted: seq<Block>, numbered: bool)
    requires Tracks(b, accepted, numbered) && AllGood(b.cfg, accepted)
    requires numbered ==> Consecutive(accepted)
    ensures Tracks(EncodePending(b).0, accepted, numbered) && EncodePending(b).1
  {
    hide Holds, ProcessAll, Good, Consecutive;
    var k := |accepted| - |b.pending|;
    assert accepted[..k] + b.pending == accepted;
    assert forall i | 0 <= i < |b.pending| :: b.pending[i] == accepted[k + i];
    ProcessAllHolds(b, [], accepted[..k], b.pending, numbered);
    ProcessAllFrame(b, b.pending);
    var (b1, n, outcome) := ProcessAll(b, b.pending);
    assert accepted[..k] + b.pending[..n] == accepted[..k + n];
    assert accepted[k + n..] == b.pending[n..];
  }

  lemma {:induction false} BuildTracks(b: Builder, accepted: seq<Block>, l1Head: nat, numbered: bool)
    requires Tracks(b, accepted, numbered) && AllGood(b.cfg, accepted)
    requires numbered ==> Consecutive(accepted)
    ensures Tracks(Build(b, l1Head).0, accepted, numbered) && !Build(b, l1Head).1.Error?
  {
    hide Holds, EncodePending, GetBatch;
    if b.lastBuilt.None? && b.pending != [] {
      EncodeTracks(b, accepted, numbered);
      var b1 := EncodePending(b).0;
      var force := b1.timeout != 0 && l1Head >= b1.timeout;
      GetBatchHolds(b1.encoder, [], accepted[..|accepted| - |b1.pending|], numbered, force);
      GetBatchNone(b1.encoder, force);
    }
  }

  lemma {:induction false} GetBatchNone(e: Encoder, force: bool)
    ensures GetBatch(e, force).1.None? ==> GetBatch(e, force).0 == e
  {
  }

  lemma {:induction false} FreshTracks(b: Builder, numbered: bool)
    requires b.pending == [] && b.encoder.closed == [] && b.encoder.open == NEW_SUB_BATCH
    ensures Tracks(b, [], numbered)
  {
    DecodedLast(b.encoder, numbered);
    assert Decoded(NEW_SUB_BATCH, numbered) == [];
  }

  lemma {:induction false} AdvanceTracks(b: Builder, accepted: seq<Block>, numbered: bool)
    requires Tracks(b, accepted, numbered)
    ensures Tracks(Advance(b), accepted, numbered)
  {
  }

  lemma {:induction false} StepTracks(b: Builder, accepted: seq<Block>, op: Op, numbered: bool)
    requires !op.OpReset? ==> Tracks(b, accepted, numbered) && AllGood(b.cfg, accepted)
    requires !op.OpReset? && numbered ==> Consecutive(accepted)
    ensures Tracks(Step(b, op), AcceptedBy(b, accepted, op), numbered)
  {
    hide Tracks, Build, Good, Consecutive, Enqueue;
    match op
    case OpEnqueue(block) =>
      EnqueueTracks(b, accepted, block, numbered);
    case OpBuild(l1Head) => BuildTracks(b, accepted, l1Head, numbered);
    case OpAdvance => AdvanceTracks(b, accepted, numbered);
    case OpReset(_) => FreshTracks(Step(b, op), numbered);
  }

  /** What was accepted before is a prefix of what is accepted after, up to a reset. */
  lemma {:induction false} AcceptedPrefix(b: Builder, accepted: seq<Block>, op: Op)
    requires !op.OpReset?
    ensures AllGood(b.cfg, AcceptedBy(b, accepted, op)) ==> AllGood(b.cfg, accepted)
    ensures Consecutive(AcceptedBy(b, accepted, op)) ==> Consecutive(accepted)
  {
    hide Good;
    var after := AcceptedBy(b, accepted, op);
    assert after[..|accepted|] == accepted;
    assert AllGood(b.cfg, after) ==> forall i | 0 <= i < |accepted| :: accepted[i] == after[i];
    if Consecutive(after) {
      ConsecutivePrefix(after, |accepted|);
    }
  }

  /** What holds of a builder between calls: sizes are capped, built batches are made of closed
      sub-batches, and as long as all accepted blocks are good, nothing is lost or miscounted. */
  ghost predicate Followed(b: Builder, accepted: seq<Block>) {
    && Capped(b.encoder)
    && (b.lastBuilt.Some? ==> b.lastBuilt.value.subBatches <= b.encoder.closed)
    && (AllGood(b.cfg, accepted) ==> Tracks(b, accepted, false) && AllMeasured(b.encoder))
    && (AllGood(b.cfg, accepted) && Consecutive(accepted) ==> Tracks(b, accepted, true))
  }

  lemma {:induction false} FreshFollowed(cfg: Config, target: nat)
    ensures Followed(NewBuilder(cfg, target), [])
  {
    OpenLast(NewEncoder(target));
    FreshTracks(NewBuilder(cfg, target), false);
    FreshTracks(NewBuilder(cfg, target), true);
  }

  lemma {:induction false} StepFollowed(b: Builder, accepted: seq<Block>, op: Op)
    requires Followed(b, accepted)
    ensures Followed(Step(b, op), AcceptedBy(b, accepted, op)) && Step(b, op).cfg == b.cfg
  {
    hide Capped, Tracks, AllMeasured, AllGood, Consecutive, Step, AcceptedBy;
    var after := AcceptedBy(b, accepted, op);
    StepCapped(b, op);
    StepBuilt(b, op);
    if !op.OpReset? {
      AcceptedPrefix(b, accepted, op);
    }
    if AllGood(b.cfg, after) {
      StepTracks(b, accepted, op, false);
      StepMeasured(b, accepted, op);
      if Consecutive(after) {
        StepTracks(b, accepted, op, true);
      }
    }
  }

  lemma {:induction false} StepBuilt(b: Builder, op: Op)
    requires b.lastBuilt.Some? ==> b.lastBuilt.value.subBatches <= b.encoder.closed
    ensures var b' := Step(b, op);
            b'.cfg == b.cfg && (b'.lastBuilt.Some? ==> b'.lastBuilt.value.subBatches <= b'.encoder.closed)
  {
    hide Build;
    if op.OpBuild? {
      BuildClosed(b, op.l1Head);
    }
  }

  lemma {:induction false} StepMeasured(b: Builder, accepted: seq<Block>, op: Op)
    requires !op.OpReset? ==> Tracks(b, accepted, false) && AllGood(b.cfg, accepted) && AllMeasured(b.encoder)
    ensures AllMeasured(Step(b, op).encoder)
  {
    hide Measured, ProcessAll, ListSize, Tracks;
    NewMeasured();
    if op.OpBuild? {
      QueueGood(b, accepted);
      ProcessAllMeasured(b, b.pending);
    }
  }

  lemma {:induction false} RunFollowed(cfg: Config, target: nat, ops: seq<Op>)
    ensures Followed(Run(NewBuilder(cfg, target), ops), Accepted(NewBuilder(cfg, target), ops))
    ensures Run(NewBuilder(cfg, target), ops).cfg == cfg
  {
    hide Followed, Step, AcceptedBy;
    if ops == [] {
      FreshFollowed(cfg, target);
    } else {
      var front := ops[..|ops| - 1];
      RunFollowed(cfg, target, front);
      StepFollowed(Run(NewBuilder(cfg, target), front), Accepted(NewBuilder(cfg, target), front), ops[|ops| - 1]);
    }
  }

  /** In every run, whatever was refused or reset before, as long as the blocks accepted since the last
      reset are readable: the sub-batches followed by the queue are exactly the non-empty ones of them,
      in order. If these are consecutively numbered, a reader who counts up from `firstL2BlockNum` also
      recovers every block's own number. */
  lemma {:induction false} NothingLost(cfg: Config, target: nat, ops: seq<Op>, numbered: bool)
    requires AllGood(cfg, Accepted(NewBuilder(cfg, target), ops))
    requires numbered ==> Consecutive(Accepted(NewBuilder(cfg, target), ops))
    ensures var b := Run(NewBuilder(cfg, target), ops);
            DecodedAll(b.encoder.SubBatches(), numbered) + Stream(b.pending, numbered)
            == Stream(Accepted(NewBuilder(cfg, target), ops), numbered)
  {
    hide Run, Accepted, Stream, DecodedAll, Capped, AllMeasured, AllGood, Consecutive;
    RunFollowed(cfg, target, ops);
    var b := Run(NewBuilder(cfg, target), ops);
    var accepted := Accepted(NewBuilder(cfg, target), ops);
    assert Tracks(b, accepted, numbered);
    var n := |accepted| - |b.pending|;
    StreamAppend(accepted[..n], accepted[n..], numbered);
    assert accepted[..n] + accepted[n..] == accepted;
  }

  /** In every such run: what the soft cap counts is what the sub-batches hold. */
  lemma {:induction false} ContentMeasured(cfg: Config, target: nat, ops: seq<Op>)
    requires AllGood(cfg, Accepted(NewBuilder(cfg, target), ops))
    ensures AllMeasured(Run(NewBuilder(cfg, target), ops).encoder)
  {
    hide Run, Accepted, AllMeasured, Tracks, Capped, AllGood;
    RunFollowed(cfg, target, ops);
  }

  lemma {:induction false} QueueGood(b: Builder, accepted: seq<Block>)
    requires Tracks(b, accepted, false) && AllGood(b.cfg, accepted)
    ensures AllGood(b.cfg, b.pending)
  {
    hide Good, Holds;
    assert forall i | 0 <= i < |b.pending| :: b.pending[i] == accepted[|accepted| - |b.pending| + i];
  }

  // ---------- built batches ----------

  lemma {:induction false} ProcessAllClosed(b: Builder, blocks: seq<Block>)
    ensures b.encoder.closed <= ProcessAll(b, blocks).0.encoder.closed
    decreases |blocks|
  {
    hide AppendTxBlock, ListSize;
    if blocks != [] && ProcessNext(b, blocks[0]).1.Done? {
      ProcessAllClosed(ProcessNext(b, blocks[0]).0, blocks[1..]);
    }
  }

  /** A closed sub-batch stays as it is, and a built batch is made of closed sub-batches. */
  lemma {:induction false} BuildClosed(b: Builder, l1Head: nat)
    requires b.lastBuilt.Some? ==> b.lastBuilt.value.subBatches <= b.encoder.closed
    ensures var (b', result) := Build(b, l1Head);
            && b'.cfg == b.cfg && b.encoder.closed <= b'.encoder.closed
            && (b'.lastBuilt.Some? ==> b'.lastBuilt.value.subBatches <= b'.encoder.closed)
            && (result.Built? ==> b'.lastBuilt == Some(result.batch))
  {
    hide ProcessAll, ListSize;
    ProcessAllClosed(b, b.pending);
    ProcessAllFrame(b, b.pending);
  }

  lemma {:induction false} RunBuilt(cfg: Config, target: nat, ops: seq<Op>)
    ensures var b := Run(NewBuilder(cfg, target), ops);
            b.lastBuilt.Some? ==> b.lastBuilt.value.subBatches <= b.encoder.closed
  {
    hide Build;
    if ops != [] {
      var front := ops[..|ops| - 1];
      RunBuilt(cfg, target, front);
      if ops[|ops| - 1].OpBuild? {
        BuildClosed(Run(NewBuilder(cfg, target), front), ops[|ops| - 1].l1Head);
      }
    }
  }

  lemma {:induction false} DecodedAppend(a: seq<SubBatch>, b: seq<SubBatch>, numbered: bool)
    ensures DecodedAll(a + b, numbered) == DecodedAll(a, numbered) + DecodedAll(b, numbered)
    decreases |b|
  {
    if b == [] {
      assert a + b == a;
    } else {
      assert (a + b)[..|a + b| - 1] == a + b[..|b| - 1];
      DecodedAppend(a, b[..|b| - 1], numbered);
    }
  }

  lemma {:induction false} RunSnoc(b: Builder, ops: seq<Op>, op: Op)
    ensures Run(b, ops + [op]) == Step(Run(b, ops), op)
  {
    assert (ops + [op])[..|ops + [op]| - 1] == ops;
  }

  /** A batch that is built holds a prefix of the accepted non-empty blocks. */
  lemma {:induction false} FollowedBuild(b: Builder, accepted: seq<Block>, l1Head: nat, numbered: bool)
    requires Followed(b, accepted) && AllGood(b.cfg, accepted) && (numbered ==> Consecutive(accepted))
    ensures var result := Build(b, l1Head).1;
            && !result.Error?
            && (result.Built? ==> DecodedAll(result.batch.subBatches, numbered) <= Stream(accepted, numbered))
  {
    hide Build, Stream, DecodedAll, AllGood, Consecutive, Capped, AllMeasured;
    assert Tracks(b, accepted, numbered);
    BuildTracks(b, accepted, l1Head, numbered);
    BuildClosed(b, l1Head);
    var (b', result) := Build(b, l1Head);
    if result.Built? {
      var subs := b'.encoder.SubBatches();
      var k := |result.batch.subBatches|;
      assert subs[..k] == result.batch.subBatches && subs[..k] + subs[k..] == subs;
      DecodedAppend(subs[..k], subs[k..], numbered);
      var n := |accepted| - |b'.pending|;
      assert accepted[..n] + accepted[n..] == accepted;
      StreamAppend(accepted[..n], accepted[n..], numbered);
      assert DecodedAll(subs, numbered) == Stream(accepted[..n], numbered);
    }
  }

  /** In every run whose blocks accepted since the last reset are readable: a built batch holds a prefix
      of the non-empty ones of them, under their own numbers if these are consecutive. */
  lemma {:induction false} BuiltIsPrefix(cfg: Config, target: nat, ops: seq<Op>, l1Head: nat, numbered: bool)
    requires AllGood(cfg, Accepted(NewBuilder(cfg, target), ops))
    requires numbered ==> Consecutive(Accepted(NewBuilder(cfg, target), ops))
    ensures var result := Build(Run(NewBuilder(cfg, target), ops), l1Head).1;
            && !result.Error?
            && (result.Built? ==>
                  DecodedAll(result.batch.subBatches, numbered)
                  <= Stream(Accepted(NewBuilder(cfg, target), ops), numbered))
  {
    hide Build, Stream, DecodedAll, Run, Accepted, Followed, AllGood, Consecutive;
    RunFollowed(cfg, target, ops);
    FollowedBuild(Run(NewBuilder(cfg, target), ops), Accepted(NewBuilder(cfg, target), ops), l1Head, numbered);
  }

  predicate NoReset(ops: seq<Op>) {
    forall i | 0 <= i < |ops| :: !ops[i].OpReset?
  }

  lemma {:induction false} ClosedGrows(cfg: Config, target: nat, ops: seq<Op>, more: seq<Op>)
    requires NoReset(more)
    ensures Run(NewBuilder(cfg, target), ops).encoder.closed <= Run(NewBuilder(cfg, target), ops + more).encoder.closed
    decreases |more|
  {
    hide Build;
    if more == [] {
      assert ops + more == ops;
    } else {
      var front := more[..|more| - 1];
      var op := more[|more| - 1];
      assert ops + more == ops + front + [op];
      ClosedGrows(cfg, target, ops, front);
      RunSnoc(NewBuilder(cfg, target), ops + front, op);
      if op.OpBuild? {
        RunBuilt(cfg, target, ops + front);
        BuildClosed(Run(NewBuilder(cfg, target), ops + front), op.l1Head);
      }
    }
  }

  // ---------- two batches ----------

  /** Everything built from here on extends `data`. */
  ghost predicate Extends(b: Builder, data: BatchData) {
    && data.subBatches <= b.encoder.closed
    && (b.lastBuilt.Some? ==> data.subBatches <= b.lastBuilt.value.subBatches <= b.encoder.closed)
  }

  lemma {:induction false} BuildExtends(b: Builder, l1Head: nat, data: BatchData)
    requires Extends(b, data)
    ensures Extends(Build(b, l1Head).0, data)
    ensures Build(b, l1Head).1.Built? ==> data.subBatches <= Build(b, l1Head).1.batch.subBatches
  {
    hide ProcessAll, ListSize;
    ProcessAllClosed(b, b.pending);
    ProcessAllFrame(b, b.pending);
  }

  lemma {:induction false} RunExtends(b: Builder, ops: seq<Op>, data: BatchData)
    requires Extends(b, data) && NoReset(ops)
    ensures Extends(Run(b, ops), data)
  {
    hide Build;
    if ops != [] {
      RunExtends(b, ops[..|ops| - 1], data);
      match ops[|ops| - 1]
      case OpBuild(l1Head) => BuildExtends(Run(b, ops[..|ops| - 1]), l1Head, data);
      case _ =>
    }
  }

  /** In every run: of two batches built without a reset between them, whatever was enqueued or
      advanced, the second starts with all of the first. So they share no block if and only if the
      first holds none. */
  lemma {:induction false} BatchesExtend(cfg: Config, target: nat, ops: seq<Op>, h1: nat, more: seq<Op>, h2: nat,
                                         numbered: bool)
    requires NoReset(more)
    requires Build(Run(NewBuilder(cfg, target), ops), h1).1.Built?
    requires Build(Run(Build(Run(NewBuilder(cfg, target), ops), h1).0, more), h2).1.Built?
    ensures var (b, first) := Build(Run(NewBuilder(cfg, target), ops), h1);
            var second := Build(Run(b, more), h2).1;
            var d1, d2 := DecodedAll(first.batch.subBatches, numbered), DecodedAll(second.batch.subBatches, numbered);
            && first.batch.subBatches <= second.batch.subBatches
            && d1 <= d2
            && ((forall x :: !(x in d1 && x in d2)) <==> d1 == [])
  {
    hide Build, Run, DecodedAll;
    var b0 := Run(NewBuilder(cfg, target), ops);
    RunBuilt(cfg, target, ops);
    BuildClosed(b0, h1);
    var (b, first) := Build(b0, h1);
    RunExtends(b, more, first.batch);
    BuildExtends(Run(b, more), h2, first.batch);
    var s1, s2 := first.batch.subBatches, Build(Run(b, more), h2).1.batch.subBatches;
    assert s2 == s1 + s2[|s1|..];
    DecodedAppend(s1, s2[|s1|..], numbered);
    var d1 := DecodedAll(s1, numbered);
    if d1 != [] {
      assert d1[0] in d1 && DecodedAll(s2, numbered)[0] == d1[0];
    }
  }

  lemma {:induction false} PrefixDisjoint(d1: seq<Entry>, s1: seq<Entry>, d2: seq<Entry>, s2: seq<Entry>)
    requires d1 <= s1 && d2 <= s2 && forall x :: !(x in s1 && x in s2)
    ensures forall x :: !(x in d1 && x in d2)
  {
    assert forall x | x in d1 :: x in s1;
    assert forall x | x in d2 :: x in s2;
  }

  /** For batches built at any two points of runs over readable blocks, say before and after a reset:
      they share no block if no non-empty block is among those accepted since the last reset at both
      points. */
  lemma {:induction false} ResetSeparates(cfg: Config, target: nat, ops: seq<Op>, h1: nat, later: seq<Op>, h2: nat)
    requires AllGood(cfg, Accepted(NewBuilder(cfg, target), ops))
             && AllGood(cfg, Accepted(NewBuilder(cfg, target), later))
    requires Build(Run(NewBuilder(cfg, target), ops), h1).1.Built?
    requires Build(Run(NewBuilder(cfg, target), later), h2).1.Built?
    requires forall x :: !(x in Stream(Accepted(NewBuilder(cfg, target), ops), false)
                           && x in Stream(Accepted(NewBuilder(cfg, target), later), false))
    ensures var d1 := DecodedAll(Build(Run(NewBuilder(cfg, target), ops), h1).1.batch.subBatches, false);
            var d2 := DecodedAll(Build(Run(NewBuilder(cfg, target), later), h2).1.batch.subBatches, false);
            forall x :: !(x in d1 && x in d2)
  {
    hide Build, Run, DecodedAll, Stream, Accepted, AllGood;
    var start := NewBuilder(cfg, target);
    BuiltIsPrefix(cfg, target, ops, h1, false);
    BuiltIsPrefix(cfg, target, later, h2, false);
    PrefixDisjoint(DecodedAll(Build(Run(start, ops), h1).1.batch.subBatches, false),
                   Stream(Accepted(start, ops), false),
                   DecodedAll(Build(Run(start, later), h2).1.batch.subBatches, false),
                   Stream(Accepted(start, later), false));
  }

  // ---------- the timeout ----------

  /** An oracle call in the block, if any, is of epoch `e` or later, and its timeout does not wrap. */
  predicate NotBefore(cfg: Config, e: nat, block: Block) {
    var call := OracleCallOf(cfg, block);
    call.Epoch? ==> e <= call.epoch && call.epoch + cfg.seqWindowSize - cfg.subSafetyMargin < UINT64
  }

  predicate NoneBefore(cfg: Config, e: nat, blocks: seq<Block>) {
    forall i | 0 <= i < |blocks| :: NotBefore(cfg, e, blocks[i])
  }

  /** Set by epoch `e`, and not to 0, which would count as unset. */
  predicate SetBy(b: Builder, e: nat) {
    0 < b.timeout && b.timeout == e + b.cfg.seqWindowSize - b.cfg.subSafetyMargin
  }

  lemma {:induction false} ProcessAllTimeout(b: Builder, blocks: seq<Block>, e: nat)
    requires SetBy(b, e) && NoneBefore(b.cfg, e, blocks)
    ensures ProcessAll(b, blocks).0.timeout == b.timeout
    decreases |blocks|
  {
    hide ProcessBlock;
    if blocks != [] && ProcessNext(b, blocks[0]).1.Done? {
      ProcessAllTimeout(ProcessNext(b, blocks[0]).0, blocks[1..], e);
    }
  }

  /** In every run, resets included: a timeout once set by an epoch never changes again, as long as
      the blocks queued then and enqueued later bring no earlier epoch and 64-bit arithmetic does not
      wrap. */
  lemma {:induction false} TimeoutSetOnce(b: Builder, ops: seq<Op>, e: nat)
    requires SetBy(b, e) && NoneBefore(b.cfg, e, b.pending)
    requires forall i | 0 <= i < |ops| && ops[i].OpEnqueue? :: NotBefore(b.cfg, e, ops[i].block)
    ensures Run(b, ops).timeout == b.timeout
    ensures Run(b, ops).cfg == b.cfg && NoneBefore(b.cfg, e, Run(b, ops).pending)
  {
    hide NotBefore, ProcessAll, GetBatch;
    if ops != [] {
      var h := Run(b, ops[..|ops| - 1]);
      TimeoutSetOnce(b, ops[..|ops| - 1], e);
      ProcessAllFrame(h, h.pending);
      ProcessAllTimeout(h, h.pending, e);
    }
  }

  // ---------- what the code does not promise ----------

  /** Once full, always full: without a reset the builder takes no further block, whatever is
      built or advanced. */
  lemma {:induction false} FullUntilReset(b: Builder, ops: seq<Op>)
    requires ShouldCloseBatch(b.encoder) && NoReset(ops)
    ensures ShouldCloseBatch(Run(b, ops).encoder)
    ensures DecodedAll(Run(b, ops).encoder.SubBatches(), true) == DecodedAll(b.encoder.SubBatches(), true)
    ensures b.pending <= Run(b, ops).pending
  {
    hide Build, DecodedAll;
    if ops != [] {
      var front := ops[..|ops| - 1];
      FullUntilReset(b, front);
      match ops[|ops| - 1]
      case OpBuild(l1Head) => FullBuild(Run(b, front), l1Head);
      case _ =>
    }
  }

  lemma {:induction false} FullBuild(b: Builder, l1Head: nat)
    requires ShouldCloseBatch(b.encoder)
    ensures var b' := Build(b, l1Head).0;
            && ShouldCloseBatch(b'.encoder)
            && DecodedAll(b'.encoder.SubBatches(), true) == DecodedAll(b.encoder.SubBatches(), true)
            && b'.pending == b.pending
  {
    hide DecodedAll, ListSize;
    if b.lastBuilt.None? && b.pending != [] {
      CloseKeepsDecoded(b.encoder, true);
      assert ProcessAll(b, b.pending).1 == 0;
      var b1 := EncodePending(b).0;
      assert b1.encoder == b.encoder || b1.encoder == CloseSubBatch(b.encoder);
      CloseKeepsDecoded(b1.encoder, true);
    }
  }

  /** Building, advancing and building again gives out the first block twice. */
  lemma {:induction false} AdvanceRepeats(cfg: Config, l1Head: nat)
    ensures var first := Block(7, 1, 0, [Tx(Some(cfg.oracle + 1), None, Some([1]))]);
            var second := Block(8, 2, 1, [Tx(Some(cfg.oracle + 1), None, Some([2]))]);
            var b1 := Run(NewBuilder(cfg, 1), [OpEnqueue(first), OpEnqueue(second)]);
            var (b2, r1) := Build(b1, l1Head);
            var (b3, r2) := Build(Advance(b2), l1Head);
            && r1.Built? && r2.Built?
            && r1.batch.subBatches == [SubBatch(7, [[[1]]], 2), NEW_SUB_BATCH]
            && r2.batch.subBatches == [SubBatch(7, [[[1]]], 2), NEW_SUB_BATCH, NEW_SUB_BATCH, NEW_SUB_BATCH]
            && b3.pending == [second]
  {
    var tx1, tx2 := Tx(Some(cfg.oracle + 1), None, Some([1])), Tx(Some(cfg.oracle + 1), None, Some([2]));
    var first, second := Block(7, 1, 0, [tx1]), Block(8, 2, 1, [tx2]);
    var b0 := NewBuilder(cfg, 1);
    var ops := [OpEnqueue(first), OpEnqueue(second)];
    assert ops[..1][..0] == [];
    assert Run(b0, ops[..1]) == b0.(pending := [first], lastEnqueued := 1);
    var b1 := b0.(pending := [first, second], lastEnqueued := 2);
    assert Run(b0, ops) == b1;
    MarshalOne(tx1);
    FirstBatch(b1, first, second, l1Head);
    var b2 := Build(b1, l1Head).0;
    assert ProcessAll(Advance(b2), [second]).1 == 0;
  }

  lemma {:induction false} FirstBatch(b: Builder, first: Block, second: Block, l1Head: nat)
    requires b.pending == [first, second] && b.lastBuilt.None? && b.encoder == NewEncoder(1)
    requires first.number == 7 && first.txs != [] && MarshallTxs(first.txs) == Some([[1]]) && TotalBytes([[1]]) == 1
    requires OracleCallOf(b.cfg, first).NoCall? && OracleCallOf(b.cfg, second).NoCall?
    ensures var (b', r) := Build(b, l1Head);
            && b'.encoder.closed == [SubBatch(7, [[[1]]], 2), NEW_SUB_BATCH] && b'.encoder.open == NEW_SUB_BATCH
            && b'.encoder.runningLen == 4 && b'.encoder.target == 1
            && b'.pending == [second] && b'.cfg == b.cfg
            && r == Built(BatchData(V0, b'.encoder.closed))
  {
    var e1 := b.encoder.(open := SubBatch(7, [[[1]]], 2));
    var raws: seq<Bytes> := [[1]];
    assert [] + [raws] == [raws];
    assert AppendTxBlock(NEW_SUB_BATCH, 7, first.txs) == (SubBatch(7, [raws], 2), Done);
    assert ProcessNext(b, first) == (b.(encoder := e1), Done);
    assert ListSize(2) == 3;
    var e2 := Encoder(1, [SubBatch(7, [[[1]]], 2)], NEW_SUB_BATCH, 3);
    assert [] + [e1.open] == [e1.open];
    assert CloseSubBatch(e1) == e2;
    assert ProcessNext(b.(encoder := e1), second) == (b.(encoder := e2), BatchFull);
    assert [first, second][1..] == [second];
    assert ProcessAll(b.(encoder := e1), [second]) == (b.(encoder := e2), 0, BatchFull);
    assert ProcessAll(b, b.pending) == (b.(encoder := e2), 1, BatchFull);
  }

  /** A block that fails behind a good one: every further attempt encodes the good one again. */
  lemma {:induction false} FailureDuplicates(cfg: Config, target: nat, l1Head: nat)
    requires target >= 100
    ensures var good := Block(7, 1, 0, [Tx(Some(cfg.oracle + 1), None, Some([1]))]);
            var bad := Block(8, 2, 1, [Tx(Some(cfg.oracle + 1), None, None)]);
            var b := Run(NewBuilder(cfg, target), [OpEnqueue(good), OpEnqueue(bad), OpBuild(l1Head), OpBuild(l1Head)]);
            b.encoder.open.txBlocks == [[[1]], [[1]]] && b.pending == [good, bad]
  {
    var good := Block(7, 1, 0, [Tx(Some(cfg.oracle + 1), None, Some([1]))]);
    var bad := Block(8, 2, 1, [Tx(Some(cfg.oracle + 1), None, None)]);
    var b0 := NewBuilder(cfg, target);
    var ops := [OpEnqueue(good), OpEnqueue(bad), OpBuild(l1Head), OpBuild(l1Head)];
    assert ops[..3][..2] == ops[..2] && ops[..2][..1] == ops[..1] && ops[..1][..0] == [];
    var b2 := b0.(pending := [good, bad], lastEnqueued := 2);
    assert Run(b0, ops[..1]) == b0.(pending := [good], lastEnqueued := 1);
    assert Run(b0, ops[..2]) == b2;
    var b3 := b2.(encoder := b2.encoder.(open := SubBatch(7, [[[1]]], 2)));
    var b4 := b2.(encoder := b2.encoder.(open := SubBatch(7, [[[1]], [[1]]], 3)));
    MarshalOne(good.txs[0]);
    FailingAttempt(b2, good, bad, b3, l1Head);
    FailingAttempt(b3, good, bad, b4, l1Head);
    assert Run(b0, ops[..3]) == b3;
  }

  lemma {:induction false} FailingAttempt(b: Builder, good: Block, bad: Block, b': Builder, l1Head: nat)
    requires b.pending == [good, bad] && b.lastBuilt.None?
             && b.encoder.runningLen + ListSize(b.encoder.open.contentSize) <= b.encoder.target
    requires b'.encoder.runningLen + ListSize(b'.encoder.open.contentSize) <= b.encoder.target
             && b'.encoder.open.txBlocks != []
    requires |good.txs| == 1 == |bad.txs| && good.txs[0].raw.Some? && bad.txs[0].raw.None?
    requires OracleCallOf(b.cfg, good).NoCall? && OracleCallOf(b.cfg, bad).NoCall?
    requires b' == b.(encoder := b.encoder.(open := AppendTxBlock(b.encoder.open, good.number, good.txs).0))
    ensures Build(b, l1Head).0 == b'
  {
    hide ListSize, IntSize, TotalBytes;
    MarshalOne(good.txs[0]);
    MarshalOne(bad.txs[0]);
    assert good.txs == [good.txs[0]] && bad.txs == [bad.txs[0]];
    assert ProcessNext(b, good) == (b', Done);
    assert ProcessNext(b', bad) == (b', Failed);
    assert [good, bad][1..] == [bad];
    assert ProcessAll(b', [bad]) == (b', 0, Failed);
    assert ProcessAll(b, b.pending) == (b', 1, Failed);
  }

  lemma {:induction false} MarshalOne(tx: Tx)
    ensures MarshallTxs([tx]) == if tx.raw.Some? then Some([tx.raw.value]) else None
    ensures tx.raw.Some? ==> TotalBytes([tx.raw.value]) == |tx.raw.value|
  {
    assert [tx][..0] == [];
    assert MarshallTxs([tx][..0]) == Some([]);
    if tx.raw.Some? {
      assert [] + [tx.raw.value] == [tx.raw.value];
      assert TotalBytes([tx.raw.value][..0]) == 0;
    }
  }
}
