/** What the bridge's escrow and supply counters stand for, when its calls are accepted, and how messages
    become visible on the other chain. */
module BridgeAnswers {
  import opened Wrappers
  import opened Bridge
  import opened BridgeProofs

  predicate Accepted(cfg: Config, w: World, op: Op) { Feasible(cfg, op) && Apply(cfg, w, op).Some? }

  // ---------- tokens that actually moved ----------

  /** The token claims to be a mintable representation of `remoteToken`. */
  predicate Represents(cfg: Config, side: Side, localToken: Address, remoteToken: Address) {
    var t := cfg.TokenAt(side, localToken);
    (t.Mintable? && t.remote == remoteToken) || (t.Impostor? && t.remote == remoteToken)
  }

  /** Is the message one that the standard bridge of `side` executes as a token transfer of this pair? */
  predicate TokenMessage(cfg: Config, side: Side, pair: (Address, Address), m: Message) {
    && m.target == cfg.StandardBridge(side) && m.payload.FinalizeERC20?
    && (m.payload.localToken, m.payload.remoteToken) == pair
  }

  /** Tokens that an accepted call has moved into the bridge of `side`: a transfer that succeeded. */
  function TakenIn(cfg: Config, w: World, op: Op, side: Side, pair: (Address, Address)): nat {
    if Accepted(cfg, w, op) && op.OpBridgeERC20? && op.side == side && (op.localToken, op.remoteToken) == pair && op.ok
    then op.amount else 0
  }

  /** Tokens that an accepted call has moved out of it. */
  function GivenOut(cfg: Config, w: World, op: Op, side: Side, pair: (Address, Address)): nat {
    if Accepted(cfg, w, op) && op.OpFinalize? && op.side == side && TokenMessage(cfg, side, pair, op.message) && op.ok
    then op.message.payload.amount else 0
  }

  lemma {:induction false} StepDeposits(cfg: Config, w: World, op: Op, side: Side, pair: (Address, Address))
    requires !Represents(cfg, side, pair.0, pair.1)
    ensures Amount(Step(cfg, w, op).At(side).deposits, pair) + GivenOut(cfg, w, op, side, pair)
            == Amount(w.At(side).deposits, pair) + TakenIn(cfg, w, op, side, pair)
  {
    if Accepted(cfg, w, op) {
      match op
      case OpBridgeERC20(_, _, _, _, _, _, _, _) => BridgeDeposits(cfg, w, op, side, pair);
      case OpFinalize(_, _, _, _) => FinalizeDeposits(cfg, w, op, side, pair);
      case _ =>
    }
  }

  lemma {:induction false} BridgeDeposits(cfg: Config, w: World, op: Op, side: Side, pair: (Address, Address))
    requires Accepted(cfg, w, op) && op.OpBridgeERC20? && !Represents(cfg, side, pair.0, pair.1)
    ensures Amount(Step(cfg, w, op).At(side).deposits, pair)
            == Amount(w.At(side).deposits, pair) + TakenIn(cfg, w, op, side, pair)
  {
  }

  lemma {:induction false} FinalizeDeposits(cfg: Config, w: World, op: Op, side: Side, pair: (Address, Address))
    requires Accepted(cfg, w, op) && op.OpFinalize? && !Represents(cfg, side, pair.0, pair.1)
    ensures Amount(Step(cfg, w, op).At(side).deposits, pair) + GivenOut(cfg, w, op, side, pair)
            == Amount(w.At(side).deposits, pair)
  {
  }

  /** The totals over a run. */
  function TotalIn(cfg: Config, w: World, ops: seq<Op>, side: Side, pair: (Address, Address)): nat {
    if ops == [] then 0
    else TotalIn(cfg, w, ops[..|ops| - 1], side, pair)
         + TakenIn(cfg, Run(cfg, w, ops[..|ops| - 1]), ops[|ops| - 1], side, pair)
  }

  function TotalOut(cfg: Config, w: World, ops: seq<Op>, side: Side, pair: (Address, Address)): nat {
    if ops == [] then 0
    else TotalOut(cfg, w, ops[..|ops| - 1], side, pair)
         + GivenOut(cfg, Run(cfg, w, ops[..|ops| - 1]), ops[|ops| - 1], side, pair)
  }

  /** In every run, for every pair that is native on `side`: the deposits counter is what the bridge holds for
      the pair, all tokens transferred in minus all tokens transferred out. */
  lemma {:induction false} DepositsAreHoldings(cfg: Config, f1: nat, f2: nat, ops: seq<Op>, side: Side,
                                               pair: (Address, Address))
    requires !Represents(cfg, side, pair.0, pair.1)
    ensures Amount(Run(cfg, Deployed(f1, f2), ops).At(side).deposits, pair)
            + TotalOut(cfg, Deployed(f1, f2), ops, side, pair)
            == TotalIn(cfg, Deployed(f1, f2), ops, side, pair)
  {
    if ops != [] {
      hide Step, TakenIn, GivenOut;
      DepositsAreHoldings(cfg, f1, f2, ops[..|ops| - 1], side, pair);
      StepDeposits(cfg, Run(cfg, Deployed(f1, f2), ops[..|ops| - 1]), ops[|ops| - 1], side, pair);
    }
  }

  /** The supply of a mintable token of this bridge: what was minted by messages minus what was burned. */
  lemma {:induction false} StepSupply(cfg: Config, w: World, op: Op, side: Side, token: Address, remote: Address)
    requires cfg.TokenAt(side, token) == Mintable(remote, cfg.StandardBridge(side))
    ensures Amount(Step(cfg, w, op).At(side).supply, token) + TakenIn(cfg, w, op, side, (token, remote))
            == Amount(w.At(side).supply, token) + GivenOut(cfg, w, op, side, (token, remote))
  {
    if Accepted(cfg, w, op) {
      match op
      case OpBridgeERC20(_, _, _, _, _, _, _, _) => BridgeSupply(cfg, w, op, side, token, remote);
      case OpFinalize(_, _, _, _) => FinalizeSupply(cfg, w, op, side, token, remote);
      case _ =>
    }
  }

  lemma {:induction false} BridgeSupply(cfg: Config, w: World, op: Op, side: Side, token: Address, remote: Address)
    requires Accepted(cfg, w, op) && op.OpBridgeERC20?
    requires cfg.TokenAt(side, token) == Mintable(remote, cfg.StandardBridge(side))
    ensures Amount(Step(cfg, w, op).At(side).supply, token) + TakenIn(cfg, w, op, side, (token, remote))
            == Amount(w.At(side).supply, token)
  {
  }

  lemma {:induction false} FinalizeSupply(cfg: Config, w: World, op: Op, side: Side, token: Address, remote: Address)
    requires Accepted(cfg, w, op) && op.OpFinalize?
    requires cfg.TokenAt(side, token) == Mintable(remote, cfg.StandardBridge(side))
    ensures Amount(Step(cfg, w, op).At(side).supply, token)
            == Amount(w.At(side).supply, token) + GivenOut(cfg, w, op, side, (token, remote))
  {
  }

  /** In every run: the supply of such a token is what was minted minus what was burned. */
  lemma {:induction false} SupplyIsMinted(cfg: Config, f1: nat, f2: nat, ops: seq<Op>, side: Side, token: Address,
                                          remote: Address)
    requires cfg.TokenAt(side, token) == Mintable(remote, cfg.StandardBridge(side))
    ensures Amount(Run(cfg, Deployed(f1, f2), ops).At(side).supply, token)
            + TotalIn(cfg, Deployed(f1, f2), ops, side, (token, remote))
            == TotalOut(cfg, Deployed(f1, f2), ops, side, (token, remote))
  {
    if ops != [] {
      hide Step, TakenIn, GivenOut;
      SupplyIsMinted(cfg, f1, f2, ops[..|ops| - 1], side, token, remote);
      StepSupply(cfg, Run(cfg, Deployed(f1, f2), ops[..|ops| - 1]), ops[|ops| - 1], side, token, remote);
    }
  }

  // ---------- when calls are accepted ----------

  /** Tokens are bridged if and only if the transfer, or the burn by the token's own bridge of no more than
      there is, succeeds. */
  lemma {:induction false} BridgeAnswer(cfg: Config, w: World, op: Op)
    requires op.OpBridgeERC20?
    ensures var t, c := cfg.TokenAt(op.side, op.localToken), w.At(op.side);
            Apply(cfg, w, op).Some? <==>
            && op.ok
            && (Represents(cfg, op.side, op.localToken, op.remoteToken) && t.Mintable? ==>
                  t.bridge == cfg.StandardBridge(op.side) && op.amount <= Amount(c.supply, op.localToken))
  {
  }

  /** What the standard bridge does with a message, if unseen code succeeds. */
  ghost predicate BridgeTakes(cfg: Config, side: Side, c: Chain, m: Message) {
    match m.payload
    case FinalizeERC20(localToken, remoteToken, _, _, amount) =>
      && m.sender == BridgeIdentity(cfg, side.Other()) && m.value == 0
      && (if Represents(cfg, side, localToken, remoteToken)
          then cfg.TokenAt(side, localToken).Mintable? ==>
                 cfg.TokenAt(side, localToken).bridge == cfg.StandardBridge(side)
          else amount <= Amount(c.deposits, (localToken, remoteToken)))
    case FinalizeETH(_, to, amount) =>
      && m.sender == BridgeIdentity(cfg, side.Other()) && m.value == amount
      && to != cfg.StandardBridge(side) && to != cfg.Portal(side)
    case OtherCall(_) => true
  }

  /** A message is finalised if and only if it is visible, not finalised yet, not meant for the portal itself,
      covered by the portal's balance, the code it calls succeeds, and the standard bridge, if called, takes it:
      token and ETH messages only from its counterpart, with the right value. */
  lemma {:induction false} FinalizeAnswer(cfg: Config, w: World, side: Side, m: Message, assertedBlock: nat, ok: bool)
    ensures var c := w.At(side);
            Finalize(cfg, w, side, m, assertedBlock, ok).Some? <==>
            && m in Visible(w, side, assertedBlock) && m !in c.finalized
            && m.target != cfg.Portal(side) && m.value <= c.balance && ok
            && (m.target == cfg.StandardBridge(side) ==> BridgeTakes(cfg, side, c, m))
  {
    OtherBridgeExact(cfg, side, m.sender);
  }

  /** In every run: a message to the portal itself, a message whose call fails, and a message to the standard
      bridge from anybody but its counterpart that asks for tokens or ETH, are never finalised by a step. */
  lemma {:induction false} NeverFinalized(cfg: Config, w: World, op: Op)
    requires Finalizes(cfg, w, op)
    ensures op.ok && op.message.target != cfg.Portal(op.side)
    ensures op.message.target == cfg.StandardBridge(op.side) && !op.message.payload.OtherCall? ==>
              op.message.sender == BridgeIdentity(cfg, op.side.Other())
  {
    FinalizeAnswer(cfg, w, op.side, op.message, op.assertedBlock, op.ok);
  }

  // ---------- nonces ----------

  /** A chain's messages carry the nonces below its counter, one each. */
  ghost predicate Numbered(c: Chain) {
    && |c.initiated| == c.nonce
    && (forall m | m in c.initiated :: m.nonce < c.nonce)
    && (forall m, n | m in c.initiated && n in c.initiated && m.nonce == n.nonce :: m == n)
  }

  /** The chain sends a message, or none. */
  lemma {:induction false} SendNumbered(c: Chain, c': Chain, m: Message)
    requires Numbered(c)
    requires (c'.nonce, c'.initiated) == (c.nonce, c.initiated)
             || (m.nonce == c.nonce && (c'.nonce, c'.initiated) == (c.nonce + 1, c.initiated + {m}))
    ensures Numbered(c')
  {
    if c'.nonce != c.nonce {
      assert m !in c.initiated;
      assert |c.initiated + {m}| == |c.initiated| + 1;
    }
  }

  lemma {:induction false} StepNonces(cfg: Config, w: World, op: Op, side: Side)
    requires Numbered(w.At(side))
    ensures Numbered(Step(cfg, w, op).At(side))
  {
    hide Numbered;
    var c, c' := w.At(side), Step(cfg, w, op).At(side);
    var m := if FlowOf(cfg, w, op).Sent? then FlowOf(cfg, w, op).m else Message(0, 0, 0, 0, 0, OtherCall(0));
    if Accepted(cfg, w, op) && op.OpFinalize? {
      FinalizeShape(cfg, w, op.side, op.message, op.assertedBlock, op.ok);
      hide Finalize;
    }
    SendNumbered(c, c', m);
  }

  /** In every run: no two messages of a chain share a nonce, and none is skipped. */
  lemma {:induction false} NoncesCount(cfg: Config, f1: nat, f2: nat, ops: seq<Op>, side: Side)
    ensures Numbered(Run(cfg, Deployed(f1, f2), ops).At(side))
  {
    if ops != [] {
      hide Step, Numbered;
      NoncesCount(cfg, f1, f2, ops[..|ops| - 1], side);
      StepNonces(cfg, Run(cfg, Deployed(f1, f2), ops[..|ops| - 1]), ops[|ops| - 1], side);
    }
  }

  // ---------- how messages become visible ----------

  /** The oracle shows a past L1 block, or nothing yet. */
  ghost predicate OracleShows(w: World) {
    if w.oracleNumber == 0 then w.oracleView == {}
    else w.oracleNumber < |w.l1.past| && w.oracleView == w.l1.past[w.oracleNumber]
  }

  /** History only grows, by what is initiated at the end of a block; and the oracle only moves forward, to
      any later block there is. */
  lemma {:induction false} StepHistory(cfg: Config, w: World, op: Op, side: Side)
    requires OracleShows(w)
    ensures OracleShows(Step(cfg, w, op)) && w.oracleNumber <= Step(cfg, w, op).oracleNumber
    ensures Step(cfg, w, op).At(side).past
            == w.At(side).past + if op.OpEndBlock? && op.side == side then [w.At(side).initiated] else []
    ensures op.OpSetOracle? ==>
              (Apply(cfg, w, op).Some? <==> w.oracleNumber < op.number < |w.l1.past|)
              && Step(cfg, w, op).oracleNumber == if Apply(cfg, w, op).Some? then op.number else w.oracleNumber
  {
    if op.OpFinalize? && Apply(cfg, w, op).Some? {
      FinalizeShape(cfg, w, op.side, op.message, op.assertedBlock, op.ok);
      hide Finalize;
    }
  }

  lemma {:induction false} RunHistory(cfg: Config, f1: nat, f2: nat, ops: seq<Op>)
    ensures OracleShows(Run(cfg, Deployed(f1, f2), ops))
  {
    if ops != [] {
      hide Step, OracleShows;
      RunHistory(cfg, f1, f2, ops[..|ops| - 1]);
      StepHistory(cfg, Run(cfg, Deployed(f1, f2), ops[..|ops| - 1]), ops[|ops| - 1], L1);
    } else {
      assert Run(cfg, Deployed(f1, f2), []) == Deployed(f1, f2);
    }
  }

  /** From every reachable state: whatever L2 has initiated is visible on L1 after the next L2 block, and
      whatever L1 has initiated is visible on L2 once the oracle reports the L1 block after next. */
  lemma {:induction false} BecomesVisible(cfg: Config, f1: nat, f2: nat, ops: seq<Op>, m: Message)
    ensures var w := Run(cfg, Deployed(f1, f2), ops);
            m in w.l2.initiated ==> m in Visible(Step(cfg, w, OpEndBlock(L2)), L1, |w.l2.past|)
    ensures var w := Run(cfg, Deployed(f1, f2), ops);
            var w' := Step(cfg, Step(cfg, w, OpEndBlock(L1)), OpEndBlock(L1));
            m in w.l1.initiated ==> m in Visible(Step(cfg, w', OpSetOracle(|w.l1.past| + 1)), L2, 0)
  {
    hide Run;
    RunHistory(cfg, f1, f2, ops);
    var w := Run(cfg, Deployed(f1, f2), ops);
    var w1 := Step(cfg, w, OpEndBlock(L1));
    var w2 := Step(cfg, w1, OpEndBlock(L1));
    assert w2.l1.past == w.l1.past + [w.l1.initiated] + [w.l1.initiated];
    assert w2.l1.past[|w.l1.past| + 1] == w.l1.initiated;
  }
}
