/** The batch builder and its V0 encoder: a queue of blocks feeding sub-batches. */
module Batch {
  import opened Wrappers
  import opened ByteStrings

  const UINT64 := 0x1_0000_0000_0000_0000
  const V0: Byte := 0

  /** A transaction, as far as the builder looks at it: its recipient (none for a contract
      creation), the epoch that unpacking it as an oracle call gives, and its binary form. */
  datatype Tx = Tx(to: Option<nat>, epoch: Option<nat>, raw: Option<Bytes>)

  datatype Block = Block(number: nat, hash: nat, parentHash: nat, txs: seq<Tx>)

  datatype SubBatch = SubBatch(firstL2BlockNum: nat, txBlocks: seq<seq<Bytes>>, contentSize: nat)

  const NEW_SUB_BATCH := SubBatch(0, [], 0)

  /** The encoder's list of sub-batches is `closed + [open]`. */
  datatype Encoder = Encoder(target: nat, closed: seq<SubBatch>, open: SubBatch, runningLen: nat)
  {
    function SubBatches(): seq<SubBatch> { closed + [open] }
  }

  /** An encoded batch, before RLP. */
  datatype BatchData = BatchData(version: Byte, subBatches: seq<SubBatch>)

  datatype Config = Config(oracle: nat, seqWindowSize: nat, subSafetyMargin: nat)

  /** `timeout` 0 means not set, hash 0 means no block was enqueued yet. */
  datatype Builder = Builder(cfg: Config, encoder: Encoder, pending: seq<Block>, lastEnqueued: nat,
                             lastBuilt: Option<BatchData>, timeout: nat)

  datatype Outcome = Done | BatchFull | Failed

  // ---------- sizes ----------

  /** Size of an RLP integer. */
  function IntSize(x: nat): (size: nat)
    ensures size >= 1
  {
    if x < 128 then 1 else 1 + |ToBE(x)|
  }

  /** Size of an RLP list with `content` bytes of payload. */
  function ListSize(content: nat): (size: nat)
    ensures size > content
  {
    (if content < 56 then 1 else 1 + |ToBE(content)|) + content
  }

  function TotalBytes(txs: seq<Bytes>): nat {
    if txs == [] then 0 else TotalBytes(txs[..|txs| - 1]) + |txs[|txs| - 1]|
  }

  // ---------- the encoder ----------

  function MarshallTxs(txs: seq<Tx>): Option<seq<Bytes>> {
    if txs == [] then Some([])
    else match (MarshallTxs(txs[..|txs| - 1]), txs[|txs| - 1].raw)
      case (Some(front), Some(last)) => Some(front + [last])
      case _ => None
  }

  /** The first block of a sub-batch sets its number, even if marshalling then fails. */
  function AppendTxBlock(s: SubBatch, number: nat, txs: seq<Tx>): (SubBatch, Outcome) {
    var s1 := if s.txBlocks != [] then s
              else s.(firstL2BlockNum := number, contentSize := s.contentSize + IntSize(number));
    match MarshallTxs(txs)
    case None => (s1, Failed)
    case Some(raws) => (s1.(txBlocks := s1.txBlocks + [raws], contentSize := s1.contentSize + TotalBytes(raws)), Done)
  }

  predicate ShouldCloseBatch(e: Encoder) { e.runningLen + ListSize(e.open.contentSize) > e.target }

  function CloseSubBatch(e: Encoder): Encoder {
    if ListSize(e.open.contentSize) == 0 then e
    else e.(closed := e.closed + [e.open], open := NEW_SUB_BATCH,
            runningLen := e.runningLen + ListSize(e.open.contentSize))
  }

  function ProcessBlock(e: Encoder, block: Block, isNewEpoch: bool): (Encoder, Outcome) {
    var skip := block.txs == [];
    var e1 := if ShouldCloseBatch(e) || skip || isNewEpoch then CloseSubBatch(e) else e;
    if ShouldCloseBatch(e) then (e1, BatchFull)
    else if skip then (e1, Done)
    else
      var (open, outcome) := AppendTxBlock(e1.open, block.number, block.txs);
      (e1.(open := open), outcome)
  }

  function GetBatch(e: Encoder, force: bool): (Encoder, Option<BatchData>) {
    if !force && e.runningLen + e.open.contentSize < e.target then (e, None)
    else
      var e1 := if ShouldCloseBatch(e) then CloseSubBatch(e) else e;
      (e1, Some(BatchData(V0, e1.closed)))
  }

  function NewEncoder(target: nat): Encoder { Encoder(target, [], NEW_SUB_BATCH, 0) }

  // ---------- the builder ----------

  function NewBuilder(cfg: Config, target: nat): Builder { Builder(cfg, NewEncoder(target), [], 0, None, 0) }

  function Enqueue(b: Builder, block: Block): (Builder, bool) {
    if b.lastEnqueued != 0 && block.parentHash != b.lastEnqueued then (b, false)
    else (b.(pending := b.pending + [block], lastEnqueued := block.hash), true)
  }

  function Reset(b: Builder, lastEnqueued: nat): Builder {
    b.(encoder := NewEncoder(b.encoder.target), pending := [], lastEnqueued := lastEnqueued, lastBuilt := None)
  }

  function Advance(b: Builder): Builder { b.(lastBuilt := None) }

  /** In 64-bit arithmetic, as the source computes it. */
  function EpochTimeout(cfg: Config, epoch: nat): nat {
    (epoch + cfg.seqWindowSize - cfg.subSafetyMargin) % UINT64
  }

  function UpdateTimeout(cfg: Config, timeout: nat, epoch: nat): nat {
    var t := EpochTimeout(cfg, epoch);
    if timeout == 0 || timeout > t then t else timeout
  }

  /** The oracle call in a block: none, one with its epoch, or one that cannot be read (a first
      transaction without recipient, or one that does not unpack). */
  datatype OracleCall = NoCall | Epoch(epoch: nat) | Unreadable

  function OracleCallOf(cfg: Config, block: Block): OracleCall {
    if block.txs == [] then NoCall
    else match block.txs[0].to
      case None => Unreadable
      case Some(to) =>
        if to != cfg.oracle then NoCall
        else match block.txs[0].epoch
          case None => Unreadable
          case Some(epoch) => Epoch(epoch)
  }

  function ProcessNext(b: Builder, block: Block): (Builder, Outcome) {
    var call := OracleCallOf(b.cfg, block);
    if call.Unreadable? then (b, Failed)
    else
      var timeout := if call.Epoch? then UpdateTimeout(b.cfg, b.timeout, call.epoch) else b.timeout;
      var (e, outcome) := ProcessBlock(b.encoder, block, call.Epoch? && call.epoch != 0);
      (b.(encoder := e, timeout := timeout), outcome)
  }

  /** Processes blocks until one is refused; also how many were taken. */
  function ProcessAll(b: Builder, blocks: seq<Block>): (r: (Builder, nat, Outcome))
    ensures r.1 <= |blocks|
    decreases |blocks|
  {
    if blocks == [] then (b, 0, Done)
    else
      var (b1, outcome) := ProcessNext(b, blocks[0]);
      if !outcome.Done? then (b1, 0, outcome)
      else
        var (b2, n, last) := ProcessAll(b1, blocks[1..]);
        (b2, n + 1, last)
  }

  datatype BuildResult = Built(batch: BatchData) | Eof | Error

  /** `encodePending` for a non-empty queue: on a failure the queue does not move. */
  function EncodePending(b: Builder): (Builder, bool) {
    var (b1, n, outcome) := ProcessAll(b, b.pending);
    if outcome.Failed? then (b1, false) else (b1.(pending := b.pending[n..]), true)
  }

  function Build(b: Builder, l1Head: nat): (Builder, BuildResult) {
    if b.lastBuilt.Some? then (b, Built(b.lastBuilt.value))
    else if b.pending == [] then (b, Eof)
    else
      var (b1, ok) := EncodePending(b);
      if !ok then (b1, Error)
      else
        var (e, batch) := GetBatch(b1.encoder, b1.timeout != 0 && l1Head >= b1.timeout);
        match batch
        case None => (b1, Eof)
        case Some(data) => (b1.(encoder := e, lastBuilt := batch), Built(data))
  }

  // ---------- runs ----------

  datatype Op = OpEnqueue(block: Block) | OpBuild(l1Head: nat) | OpAdvance | OpReset(lastEnqueued: nat)

  function Step(b: Builder, op: Op): Builder {
    match op
    case OpEnqueue(block) => Enqueue(b, block).0
    case OpBuild(l1Head) => Build(b, l1Head).0
    case OpAdvance => Advance(b)
    case OpReset(lastEnqueued) => Reset(b, lastEnqueued)
  }

  function Run(b: Builder, ops: seq<Op>): Builder {
    if ops == [] then b else Step(Run(b, ops[..|ops| - 1]), ops[|ops| - 1])
  }

  /** The blocks enqueued since the last reset, after one more operation. */
  function AcceptedBy(b: Builder, accepted: seq<Block>, op: Op): seq<Block> {
    match op
    case OpEnqueue(block) => if Enqueue(b, block).1 then accepted + [block] else accepted
    case OpReset(_) => []
    case _ => accepted
  }

  function Accepted(b: Builder, ops: seq<Op>): seq<Block> {
    if ops == [] then []
    else
      var front := ops[..|ops| - 1];
      AcceptedBy(Run(b, front), Accepted(b, front), ops[|ops| - 1])
  }
}
