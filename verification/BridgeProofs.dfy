/** Messages, ETH and tokens are conserved across the two chains, in every run. */
module BridgeProofs {
  import opened Wrappers
  import opened Sums
  import opened Bridge

  // ---------- identities ----------

  lemma {:induction false} AliasBijective(a: Address)
    ensures UndoAlias(ApplyAlias(a)) == a && ApplyAlias(UndoAlias(a)) == a
  {
  }

  /** `onlyOtherBridge` lets exactly the other bridge through. */
  lemma {:induction false} OtherBridgeExact(cfg: Config, side: Side, sender: Address)
    ensures FromOtherBridge(cfg, side, sender) <==> sender == BridgeIdentity(cfg, side.Other())
  {
    AliasBijective(sender);
    AliasBijective(cfg.bridge1);
  }

  /** Nobody else is recorded under the identity of a bridge. */
  lemma {:induction false} IdentityUnforgeable(cfg: Config, op: Op)
    requires Feasible(cfg, op) && op.OpInitiate?
    ensures RecordedSender(op.side, op.sender, op.isContract) != BridgeIdentity(cfg, op.side)
  {
    AliasBijective(op.sender);
    AliasBijective(cfg.bridge1);
  }

  // ---------- messages ----------

  ghost predicate SideInv(here: Chain, there: Chain) {
    && there.finalized <= here.initiated
    && (forall m | m in here.initiated :: m.nonce < here.nonce)
    && (forall k | 0 <= k < |here.past| :: here.past[k] <= here.initiated)
  }

  /** Only what was initiated on one chain is finalised on the other. */
  ghost predicate MessageInv(w: World) {
    && SideInv(w.l1, w.l2)
    && SideInv(w.l2, w.l1)
    && w.oracleView <= w.l1.initiated
  }

  lemma {:induction false} VisibleInitiated(w: World, side: Side, assertedBlock: nat)
    requires MessageInv(w)
    ensures Visible(w, side, assertedBlock) <= w.At(side.Other()).initiated
  {
  }

  lemma {:induction false} SendKeeps(w: World, side: Side, c: Chain, sender: Address, target: Address, value: nat,
                                     gasLimit: nat, payload: Payload)
    requires MessageInv(w)
    requires (c.nonce, c.initiated, c.finalized, c.past)
             == (w.At(side).nonce, w.At(side).initiated, w.At(side).finalized, w.At(side).past)
    ensures MessageInv(w.With(side, Send(c, sender, target, value, gasLimit, payload)))
  {
  }

  /** What finalising a message changes. */
  lemma {:induction false} FinalizeShape(cfg: Config, w: World, side: Side, m: Message, assertedBlock: nat, ok: bool)
    requires Finalize(cfg, w, side, m, assertedBlock, ok).Some?
    ensures var c := w.At(side);
            var w' := Finalize(cfg, w, side, m, assertedBlock, ok).value;
            var c' := w'.At(side);
            && w' == w.With(side, c')
            && m !in c.finalized && m in Visible(w, side, assertedBlock) && m.value <= c.balance
            && c'.finalized == c.finalized + {m} && c'.balance == c.balance - m.value
            && (c'.nonce, c'.initiated, c'.past) == (c.nonce, c.initiated, c.past)
  {
  }

  lemma {:induction false} StepMessages(cfg: Config, w: World, op: Op)
    requires MessageInv(w)
    ensures MessageInv(Step(cfg, w, op))
  {
    if Feasible(cfg, op) && Apply(cfg, w, op).Some? {
      match op
      case OpInitiate(side, sender, isContract, target, value, gasLimit, payload) =>
        SendKeeps(w, side, w.At(side), RecordedSender(side, sender, isContract), target, value, gasLimit, payload);
      case OpBridgeETH(side, from, to, amount, gasLimit) =>
        SendKeeps(w, side, w.At(side), BridgeIdentity(cfg, side), cfg.StandardBridge(side.Other()), amount, gasLimit,
                  FinalizeETH(from, to, amount));
      case OpBridgeERC20(_, _, _, _, _, _, _, _) => BridgeERC20Messages(cfg, w, op);
      case OpFinalize(side, m, assertedBlock, ok) =>
        FinalizeShape(cfg, w, side, m, assertedBlock, ok);
        VisibleInitiated(w, side, assertedBlock);
        hide Finalize;
      case _ =>
    }
  }

  lemma {:induction false} BridgeERC20Messages(cfg: Config, w: World, op: Op)
    requires MessageInv(w) && op.OpBridgeERC20? && Apply(cfg, w, op).Some?
    ensures MessageInv(Apply(cfg, w, op).value)
  {
    var c' := Apply(cfg, w, op).value.At(op.side);
    var c := w.At(op.side);
    SendKeeps(w, op.side, c.(deposits := c'.deposits, supply := c'.supply), BridgeIdentity(cfg, op.side),
              cfg.StandardBridge(op.side.Other()), 0, op.gasLimit,
              FinalizeERC20(op.remoteToken, op.localToken, op.from, op.to, op.amount));
  }

  lemma {:induction false} RunMessages(cfg: Config, f1: nat, f2: nat, ops: seq<Op>)
    ensures MessageInv(Run(cfg, Deployed(f1, f2), ops))
  {
    if ops != [] {
      RunMessages(cfg, f1, f2, ops[..|ops| - 1]);
      StepMessages(cfg, Run(cfg, Deployed(f1, f2), ops[..|ops| - 1]), ops[|ops| - 1]);
    }
  }

  /** In every run: a message is finalised on a chain only if it was initiated on the other. */
  lemma {:induction false} FinalizedWasInitiated(cfg: Config, f1: nat, f2: nat, ops: seq<Op>, side: Side, m: Message)
    requires m in Run(cfg, Deployed(f1, f2), ops).At(side).finalized
    ensures m in Run(cfg, Deployed(f1, f2), ops).At(side.Other()).initiated
  {
    RunMessages(cfg, f1, f2, ops);
  }

  ghost predicate Finalizes(cfg: Config, w: World, op: Op) {
    op.OpFinalize? && Apply(cfg, w, op).Some?
  }

  lemma {:induction false} StepKeepsFinalized(cfg: Config, w: World, op: Op, side: Side)
    ensures w.At(side).finalized <= Step(cfg, w, op).At(side).finalized
    ensures Finalizes(cfg, w, op) && op.side == side ==> op.message in Step(cfg, w, op).At(side).finalized
    ensures Finalizes(cfg, w, op) && op.side == side ==> op.message !in w.At(side).finalized
  {
    if Finalizes(cfg, w, op) {
      FinalizeShape(cfg, w, op.side, op.message, op.assertedBlock, op.ok);
    }
  }

  lemma {:induction false} RunKeepsFinalized(cfg: Config, w: World, ops: seq<Op>, more: seq<Op>, side: Side)
    ensures Run(cfg, w, ops).At(side).finalized <= Run(cfg, w, ops + more).At(side).finalized
    decreases |more|
  {
    if more == [] {
      assert ops + more == ops;
    } else {
      var front := more[..|more| - 1];
      var all := ops + more;
      assert all[..|all| - 1] == ops + front && all[|all| - 1] == more[|more| - 1];
      RunKeepsFinalized(cfg, w, ops, front, side);
      StepKeepsFinalized(cfg, Run(cfg, w, ops + front), more[|more| - 1], side);
    }
  }

  /** In every run: no message is finalised twice. */
  lemma {:induction false} FinalizedOnce(cfg: Config, w: World, ops: seq<Op>, i: nat, j: nat)
    requires i < j < |ops|
    requires Finalizes(cfg, Run(cfg, w, ops[..i]), ops[i]) && Finalizes(cfg, Run(cfg, w, ops[..j]), ops[j])
    requires ops[i].side == ops[j].side
    ensures ops[i].message != ops[j].message
  {
    hide Step;
    var side := ops[i].side;
    assert ops[..i + 1][..i] == ops[..i];
    assert ops[..j] == ops[..i + 1] + ops[i + 1..j];
    StepKeepsFinalized(cfg, Run(cfg, w, ops[..i]), ops[i], side);
    RunKeepsFinalized(cfg, w, ops[..i + 1], ops[i + 1..j], side);
    FinalizesShape(cfg, Run(cfg, w, ops[..j]), ops[j]);
  }

  lemma {:induction false} FinalizesShape(cfg: Config, w: World, op: Op)
    requires Finalizes(cfg, w, op)
    ensures op.message !in w.At(op.side).finalized
  {
    FinalizeShape(cfg, w, op.side, op.message, op.assertedBlock, op.ok);
  }

  // ---------- messages in flight ----------

  /** Initiated on `from`, not yet finalised on the other side. */
  ghost function Pending(w: World, from: Side): set<Message> {
    w.At(from).initiated - w.At(from.Other()).finalized
  }

  ghost function Weigh(msgs: set<Message>, f: Message -> nat): nat {
    Sum(map m | m in msgs :: f(m))
  }

  lemma {:induction false} WeighAdd(msgs: set<Message>, m: Message, f: Message -> nat)
    requires m !in msgs
    ensures Weigh(msgs + {m}, f) == Weigh(msgs, f) + f(m)
  {
    var before := map x | x in msgs :: f(x);
    assert (map x | x in msgs + {m} :: f(x)) == before[m := f(m)];
    SumUpdate(before, m, f(m));
  }

  lemma {:induction false} WeighRemove(msgs: set<Message>, m: Message, f: Message -> nat)
    requires m in msgs
    ensures Weigh(msgs, f) == Weigh(msgs - {m}, f) + f(m)
  {
    assert msgs - {m} + {m} == msgs;
    WeighAdd(msgs - {m}, m, f);
  }

  /** How one step changes what is in flight. */
  datatype Flow = Still | Sent(side: Side, m: Message) | Arrived(side: Side, m: Message)

  ghost predicate Flows(w: World, w': World, flow: Flow) {
    match flow
    case Still => forall side: Side :: Pending(w', side) == Pending(w, side)
    case Sent(side, m) =>
      && m !in Pending(w, side) && Pending(w', side) == Pending(w, side) + {m}
      && Pending(w', side.Other()) == Pending(w, side.Other())
    case Arrived(side, m) =>
      && m in Pending(w, side.Other()) && Pending(w', side.Other()) == Pending(w, side.Other()) - {m}
      && Pending(w', side) == Pending(w, side)
  }

  function FlowOf(cfg: Config, w: World, op: Op): Flow {
    match op
    case OpInitiate(side, sender, isContract, target, value, gasLimit, payload) =>
      Sent(side, Message(w.At(side).nonce, RecordedSender(side, sender, isContract), target, value, gasLimit, payload))
    case OpBridgeETH(side, from, to, amount, gasLimit) =>
      Sent(side, Message(w.At(side).nonce, BridgeIdentity(cfg, side), cfg.StandardBridge(side.Other()), amount,
                         gasLimit, FinalizeETH(from, to, amount)))
    case OpBridgeERC20(side, l, r, from, to, amount, gasLimit, _) =>
      Sent(side, Message(w.At(side).nonce, BridgeIdentity(cfg, side), cfg.StandardBridge(side.Other()), 0, gasLimit,
                         FinalizeERC20(r, l, from, to, amount)))
    case OpFinalize(side, m, _, _) => Arrived(side, m)
    case _ => Still
  }

  lemma {:induction false} SentFlows(w: World, w': World, side: Side, m: Message)
    requires MessageInv(w) && m.nonce == w.At(side).nonce
    requires w'.At(side).initiated == w.At(side).initiated + {m} && w'.At(side).finalized == w.At(side).finalized
    requires w'.At(side.Other()) == w.At(side.Other())
    ensures Flows(w, w', Sent(side, m))
  {
    assert m !in w.At(side).initiated;
  }

  lemma {:induction false} ArrivedFlows(w: World, w': World, side: Side, m: Message)
    requires MessageInv(w) && m in w.At(side.Other()).initiated && m !in w.At(side).finalized
    requires w'.At(side).initiated == w.At(side).initiated && w'.At(side).finalized == w.At(side).finalized + {m}
    requires w'.At(side.Other()) == w.At(side.Other())
    ensures Flows(w, w', Arrived(side, m))
  {
  }

  lemma {:induction false} StepFlows(cfg: Config, w: World, op: Op, w': World)
    requires MessageInv(w) && Apply(cfg, w, op) == Some(w')
    ensures Flows(w, w', FlowOf(cfg, w, op))
  {
    match op
    case OpInitiate(side, _, _, _, _, _, _) => SentFlows(w, w', side, FlowOf(cfg, w, op).m);
    case OpBridgeETH(side, _, _, _, _) => SentFlows(w, w', side, FlowOf(cfg, w, op).m);
    case OpBridgeERC20(side, _, _, _, _, _, _, _) => SentFlows(w, w', side, FlowOf(cfg, w, op).m);
    case OpFinalize(side, m, assertedBlock, ok) =>
      FinalizeShape(cfg, w, side, m, assertedBlock, ok);
      VisibleInitiated(w, side, assertedBlock);
      ArrivedFlows(w, w', side, m);
    case _ =>
  }

  /** The total weight in flight in direction `from`, before and after. */
  lemma {:induction false} FlowWeighs(w: World, w': World, flow: Flow, from: Side, f: Message -> nat)
    requires Flows(w, w', flow)
    ensures var sent := if flow.Sent? && flow.side == from then f(flow.m) else 0;
            var arrived := if flow.Arrived? && flow.side == from.Other() then f(flow.m) else 0;
            Weigh(Pending(w', from), f) + arrived == Weigh(Pending(w, from), f) + sent
  {
    hide Weigh, Pending;
    match flow
    case Still =>
    case Sent(side, m) => WeighAdd(Pending(w, side), m, f);
    case Arrived(side, m) => WeighRemove(Pending(w, side.Other()), m, f);
  }

  // ---------- ETH ----------

  const VALUE: Message -> nat := (m: Message) => m.value

  ghost function EthInFlight(w: World): nat {
    Weigh(Pending(w, L1), VALUE) + Weigh(Pending(w, L2), VALUE)
  }

  function Donated(op: Op): nat {
    if op.OpDonate? then op.value else 0
  }

  lemma {:induction false} StepEth(cfg: Config, w: World, op: Op, w': World)
    requires MessageInv(w) && Apply(cfg, w, op) == Some(w')
    ensures w'.l1.balance + w'.l2.balance + EthInFlight(w)
            == w.l1.balance + w.l2.balance + EthInFlight(w') + Donated(op)
  {
    StepFlows(cfg, w, op, w');
    FlowWeighs(w, w', FlowOf(cfg, w, op), L1, VALUE);
    FlowWeighs(w, w', FlowOf(cfg, w, op), L2, VALUE);
    StepBalances(cfg, w, op, w');
  }

  lemma {:induction false} StepBalances(cfg: Config, w: World, op: Op, w': World)
    requires Apply(cfg, w, op) == Some(w')
    ensures var flow := FlowOf(cfg, w, op);
            w'.l1.balance + w'.l2.balance + (if flow.Arrived? then flow.m.value else 0)
            == w.l1.balance + w.l2.balance + (if flow.Sent? then flow.m.value else 0) + Donated(op)
  {
    if op.OpFinalize? {
      FinalizeShape(cfg, w, op.side, op.message, op.assertedBlock, op.ok);
    }
  }

  function Donations(cfg: Config, ops: seq<Op>): nat {
    if ops == [] then 0 else Donations(cfg, ops[..|ops| - 1]) + Donated(ops[|ops| - 1])
  }

  /** In every run: the two portals together hold their initial funding, all donations, and the
      value of every message that is still in flight. */
  lemma {:induction false} EthConserved(cfg: Config, f1: nat, f2: nat, ops: seq<Op>)
    ensures var w := Run(cfg, Deployed(f1, f2), ops);
            w.l1.balance + w.l2.balance == f1 + f2 + Donations(cfg, ops) + EthInFlight(w)
  {
    if ops == [] {
      assert Pending(Deployed(f1, f2), L1) == {} && Pending(Deployed(f1, f2), L2) == {};
      assert (map m | m in {} :: VALUE(m)) == map[];
    } else {
      var front := ops[..|ops| - 1];
      var op := ops[|ops| - 1];
      var w := Run(cfg, Deployed(f1, f2), front);
      EthConserved(cfg, f1, f2, front);
      RunMessages(cfg, f1, f2, front);
      hide EthInFlight, MessageInv;
      if Feasible(cfg, op) && Apply(cfg, w, op).Some? {
        StepEth(cfg, w, op, Apply(cfg, w, op).value);
      }
    }
  }

  // ---------- tokens ----------

  /** `token` is native to `home`, and `twin` on the other chain is a `MintableERC20` of that
      chain's bridge that names `token` as its remote token. */
  predicate Paired(cfg: Config, home: Side, token: Address, twin: Address) {
    && cfg.TokenAt(home.Other(), twin) == Mintable(token, cfg.StandardBridge(home.Other()))
    && !IsNonNativeTokenPair(cfg, home, token, twin)
  }

  /** The amount of a bridge-to-bridge message for this pair of tokens, else 0. */
  function BridgeAmount(cfg: Config, from: Side, localToken: Address, remoteToken: Address): Message -> nat {
    (m: Message) =>
      if m.sender == BridgeIdentity(cfg, from) && m.target == cfg.StandardBridge(from.Other())
         && m.payload.FinalizeERC20? && m.payload.localToken == localToken && m.payload.remoteToken == remoteToken
      then m.payload.amount else 0
  }

  ghost function TokensInFlight(cfg: Config, w: World, home: Side, token: Address, twin: Address): nat {
    Weigh(Pending(w, home), BridgeAmount(cfg, home, twin, token))
    + Weigh(Pending(w, home.Other()), BridgeAmount(cfg, home.Other(), token, twin))
  }

  /** Escrow on the home chain backs the twin's supply and everything in flight. */
  ghost predicate Backed(cfg: Config, w: World, home: Side, token: Address, twin: Address) {
    Amount(w.At(home).deposits, (token, twin))
    == Amount(w.At(home.Other()).supply, twin) + TokensInFlight(cfg, w, home, token, twin)
  }

  /** What a step adds to the escrow and to the twin's supply. */
  ghost predicate TokensFollow(cfg: Config, w: World, op: Op, w': World, home: Side, token: Address, twin: Address) {
    var flow := FlowOf(cfg, w, op);
    var out := BridgeAmount(cfg, home, twin, token);
    var back := BridgeAmount(cfg, home.Other(), token, twin);
    && Amount(w'.At(home).deposits, (token, twin)) + (if flow.Arrived? && flow.side == home then back(flow.m) else 0)
       == Amount(w.At(home).deposits, (token, twin)) + (if flow.Sent? && flow.side == home then out(flow.m) else 0)
    && Amount(w'.At(home.Other()).supply, twin) + (if flow.Sent? && flow.side == home.Other() then back(flow.m) else 0)
       == Amount(w.At(home.Other()).supply, twin)
          + (if flow.Arrived? && flow.side == home.Other() then out(flow.m) else 0)
  }

  lemma {:induction false} StepTokens(cfg: Config, w: World, op: Op, w': World, home: Side, token: Address,
                                      twin: Address)
    requires Paired(cfg, home, token, twin) && Feasible(cfg, op) && Apply(cfg, w, op) == Some(w')
    ensures TokensFollow(cfg, w, op, w', home, token, twin)
  {
    match op
    case OpInitiate(_, _, _, _, _, _, _) => IdentityUnforgeable(cfg, op);
    case OpBridgeERC20(_, _, _, _, _, _, _, _) => BridgeTokens(cfg, w, op, w', home, token, twin);
    case OpFinalize(_, _, _, _) => FinalizeTokens(cfg, w, op, w', home, token, twin);
    case _ =>
  }

  lemma {:induction false} BridgeTokens(cfg: Config, w: World, op: Op, w': World, home: Side, token: Address,
                                        twin: Address)
    requires Paired(cfg, home, token, twin) && op.OpBridgeERC20? && Apply(cfg, w, op) == Some(w')
    ensures TokensFollow(cfg, w, op, w', home, token, twin)
  {
  }

  lemma {:induction false} FinalizeTokens(cfg: Config, w: World, op: Op, w': World, home: Side, token: Address,
                                          twin: Address)
    requires Paired(cfg, home, token, twin) && op.OpFinalize? && Apply(cfg, w, op) == Some(w')
    ensures TokensFollow(cfg, w, op, w', home, token, twin)
  {
    OtherBridgeExact(cfg, op.side, op.message.sender);
  }

  lemma {:induction false} StepBacked(cfg: Config, w: World, op: Op, w': World, home: Side, token: Address,
                                      twin: Address)
    requires Paired(cfg, home, token, twin) && Feasible(cfg, op) && Apply(cfg, w, op) == Some(w')
    requires MessageInv(w) && Backed(cfg, w, home, token, twin)
    ensures Backed(cfg, w', home, token, twin)
  {
    hide Apply, BridgeAmount, Weigh, Pending, MessageInv, FlowOf, Flows;
    StepFlows(cfg, w, op, w');
    var flow := FlowOf(cfg, w, op);
    FlowWeighs(w, w', flow, home, BridgeAmount(cfg, home, twin, token));
    FlowWeighs(w, w', flow, home.Other(), BridgeAmount(cfg, home.Other(), token, twin));
    StepTokens(cfg, w, op, w', home, token, twin);
  }

  /** In every run, for every pair: the escrow equals the twin's supply plus all amounts in flight
      in either direction. */
  lemma {:induction false} TokensConserved(cfg: Config, f1: nat, f2: nat, ops: seq<Op>, home: Side, token: Address,
                                           twin: Address)
    requires Paired(cfg, home, token, twin)
    ensures Backed(cfg, Run(cfg, Deployed(f1, f2), ops), home, token, twin)
  {
    if ops == [] {
      NothingInFlight(cfg, f1, f2, home, token, twin);
    } else {
      var front := ops[..|ops| - 1];
      var op := ops[|ops| - 1];
      var w := Run(cfg, Deployed(f1, f2), front);
      TokensConserved(cfg, f1, f2, front, home, token, twin);
      RunMessages(cfg, f1, f2, front);
      hide Backed, MessageInv, Paired;
      if Feasible(cfg, op) && Apply(cfg, w, op).Some? {
        StepBacked(cfg, w, op, Apply(cfg, w, op).value, home, token, twin);
      }
    }
  }

  lemma {:induction false} NothingInFlight(cfg: Config, f1: nat, f2: nat, home: Side, token: Address, twin: Address)
    ensures Backed(cfg, Deployed(f1, f2), home, token, twin)
  {
    var w := Deployed(f1, f2);
    assert Pending(w, home) == {} && Pending(w, home.Other()) == {};
    NoWeight(BridgeAmount(cfg, home, twin, token));
    NoWeight(BridgeAmount(cfg, home.Other(), token, twin));
  }

  lemma {:induction false} NoWeight(f: Message -> nat)
    ensures Weigh({}, f) == 0
  {
    assert (map m | m in {} :: f(m)) == map[];
  }

  // ---------- messages between bridges arrive ----------

  /** A message under a bridge's identity goes to the other bridge and carries what it announces. */
  predicate FromBridge(cfg: Config, side: Side, m: Message) {
    && m.target == cfg.StandardBridge(side.Other())
    && match m.payload
       case FinalizeERC20(_, _, _, _, _) => m.value == 0
       case FinalizeETH(_, _, amount) => m.value == amount
       case OtherCall(_) => false
  }

  ghost predicate BridgeMessages(cfg: Config, w: World, side: Side) {
    forall m | m in w.At(side).initiated && m.sender == BridgeIdentity(cfg, side) :: FromBridge(cfg, side, m)
  }

  lemma {:induction false} StepBridgeMessages(cfg: Config, w: World, op: Op, side: Side)
    requires BridgeMessages(cfg, w, side) && Feasible(cfg, op) && Apply(cfg, w, op).Some?
    ensures BridgeMessages(cfg, Apply(cfg, w, op).value, side)
  {
    hide BridgeIdentity;
    match op
    case OpInitiate(_, _, _, _, _, _, _) => IdentityUnforgeable(cfg, op);
    case OpFinalize(at, m, assertedBlock, ok) => FinalizeShape(cfg, w, at, m, assertedBlock, ok);
    case _ =>
  }

  /** Every pair of tokens is backed. */
  ghost predicate AllBacked(cfg: Config, w: World) {
    forall home, token, twin | Paired(cfg, home, token, twin) :: Backed(cfg, w, home, token, twin)
  }

  /** What holds of both chains between steps, once they were funded with `funds`. */
  ghost predicate Sound(cfg: Config, w: World, funds: nat) {
    && MessageInv(w)
    && BridgeMessages(cfg, w, L1) && BridgeMessages(cfg, w, L2)
    && AllBacked(cfg, w)
    && w.l1.balance + w.l2.balance == funds + EthInFlight(w)
  }

  lemma {:induction false} DeployedSound(cfg: Config, f1: nat, f2: nat)
    ensures Sound(cfg, Deployed(f1, f2), f1 + f2)
  {
    RunMessages(cfg, f1, f2, []);
    EthConserved(cfg, f1, f2, []);
    forall home, token, twin | Paired(cfg, home, token, twin) ensures Backed(cfg, Deployed(f1, f2), home, token, twin) {
      NothingInFlight(cfg, f1, f2, home, token, twin);
    }
  }

  lemma {:induction false} StepSound(cfg: Config, w: World, op: Op, w': World, funds: nat)
    requires Sound(cfg, w, funds) && Feasible(cfg, op) && Apply(cfg, w, op) == Some(w')
    ensures Sound(cfg, w', funds + Donated(op))
  {
    hide Apply, MessageInv, BridgeMessages, Backed, Paired, Feasible, EthInFlight;
    AppliedMessages(cfg, w, op, w');
    StepBridgeMessages(cfg, w, op, L1);
    StepBridgeMessages(cfg, w, op, L2);
    StepEth(cfg, w, op, w');
    forall home, token, twin | Paired(cfg, home, token, twin) ensures Backed(cfg, w', home, token, twin) {
      StepBacked(cfg, w, op, w', home, token, twin);
    }
  }

  lemma {:induction false} AppliedMessages(cfg: Config, w: World, op: Op, w': World)
    requires MessageInv(w) && Feasible(cfg, op) && Apply(cfg, w, op) == Some(w')
    ensures MessageInv(w')
  {
    hide MessageInv, Apply, Feasible;
    StepMessages(cfg, w, op);
  }

  lemma {:induction false} RunSound(cfg: Config, f1: nat, f2: nat, ops: seq<Op>)
    ensures Sound(cfg, Run(cfg, Deployed(f1, f2), ops), f1 + f2 + Donations(cfg, ops))
  {
    hide Sound, Apply;
    if ops == [] {
      DeployedSound(cfg, f1, f2);
    } else {
      var front, op := ops[..|ops| - 1], ops[|ops| - 1];
      var w := Run(cfg, Deployed(f1, f2), front);
      RunSound(cfg, f1, f2, front);
      if Feasible(cfg, op) && Apply(cfg, w, op).Some? {
        StepSound(cfg, w, op, Apply(cfg, w, op).value, f1 + f2 + Donations(cfg, front));
      } else {
        DonationAccepted(cfg, w, op);
      }
    }
  }

  lemma {:induction false} DonationAccepted(cfg: Config, w: World, op: Op)
    ensures op.OpDonate? ==> Feasible(cfg, op) && Apply(cfg, w, op).Some?
  {
  }

  /** A message from the other bridge that `side` can see and has not finalised yet. */
  ghost predicate Due(cfg: Config, w: World, side: Side, m: Message, assertedBlock: nat) {
    && cfg.StandardBridge(side) != cfg.Portal(side)
    && m in Visible(w, side, assertedBlock) && m !in w.At(side).finalized
    && m.sender == BridgeIdentity(cfg, side.Other())
  }

  lemma {:induction false} DueIsFromBridge(cfg: Config, w: World, funds: nat, side: Side, m: Message,
                                           assertedBlock: nat)
    requires Sound(cfg, w, funds) && Due(cfg, w, side, m, assertedBlock)
    ensures FromBridge(cfg, side.Other(), m) && FromOtherBridge(cfg, side, m.sender)
    ensures m in Pending(w, side.Other())
  {
    VisibleInitiated(w, side, assertedBlock);
    OtherBridgeExact(cfg, side, m.sender);
  }

  /** A message in flight that releases `token` at its home. */
  ghost predicate Releases(cfg: Config, w: World, home: Side, token: Address, twin: Address, m: Message) {
    && Paired(cfg, home, token, twin)
    && m in Pending(w, home.Other())
    && m.sender == BridgeIdentity(cfg, home.Other()) && m.target == cfg.StandardBridge(home)
    && m.payload.FinalizeERC20? && m.payload.localToken == token && m.payload.remoteToken == twin
  }

  lemma {:induction false} Covered(cfg: Config, w: World, funds: nat, home: Side, token: Address, twin: Address,
                                   m: Message)
    requires Sound(cfg, w, funds) && Releases(cfg, w, home, token, twin, m)
    ensures m.payload.amount <= Amount(w.At(home).deposits, (token, twin))
  {
    hide MessageInv, BridgeMessages;
    assert Backed(cfg, w, home, token, twin);
    var back := BridgeAmount(cfg, home.Other(), token, twin);
    WeighRemove(Pending(w, home.Other()), m, back);
  }

  /** In every run: releasing escrow for a bridge message in flight never underflows. */
  lemma {:induction false} ReleaseCovered(cfg: Config, f1: nat, f2: nat, ops: seq<Op>, home: Side, token: Address,
                                          twin: Address, m: Message)
    requires Releases(cfg, Run(cfg, Deployed(f1, f2), ops), home, token, twin, m)
    ensures m.payload.amount <= Amount(Run(cfg, Deployed(f1, f2), ops).At(home).deposits, (token, twin))
  {
    hide Run, Sound;
    RunSound(cfg, f1, f2, ops);
    Covered(cfg, Run(cfg, Deployed(f1, f2), ops), f1 + f2 + Donations(cfg, ops), home, token, twin, m);
  }

  /** Which bridge messages a chain accepts, as soon as unseen code succeeds: a release of a token to
      its home and a mint of its twin always, ETH exactly when the portal has it and the recipient is
      neither the bridge nor the portal. */
  ghost predicate Accepts(cfg: Config, w: World, side: Side, m: Message) {
    match m.payload
    case FinalizeERC20(localToken, remoteToken, _, _, _) =>
      Paired(cfg, side, localToken, remoteToken) || Paired(cfg, side.Other(), remoteToken, localToken)
    case FinalizeETH(_, to, amount) =>
      amount <= w.At(side).balance && to != cfg.StandardBridge(side) && to != cfg.Portal(side)
    case OtherCall(_) => false
  }

  lemma {:induction false} DueIsAccepted(cfg: Config, w: World, funds: nat, side: Side, m: Message, assertedBlock: nat)
    requires Sound(cfg, w, funds) && Due(cfg, w, side, m, assertedBlock)
    ensures Accepts(cfg, w, side, m) ==> Finalize(cfg, w, side, m, assertedBlock, true).Some?
    ensures m.payload.FinalizeETH? ==>
              (Finalize(cfg, w, side, m, assertedBlock, true).Some? <==> Accepts(cfg, w, side, m))
  {
    hide MessageInv, BridgeMessages, AllBacked, EthInFlight;
    DueIsFromBridge(cfg, w, funds, side, m, assertedBlock);
    if m.payload.FinalizeERC20? && Paired(cfg, side, m.payload.localToken, m.payload.remoteToken) {
      Covered(cfg, w, funds, side, m.payload.localToken, m.payload.remoteToken, m);
    }
  }

  /** In every run: a token message that a bridge sends home is accepted as soon as the transfer
      itself succeeds. */
  lemma {:induction false} ReleaseSucceeds(cfg: Config, f1: nat, f2: nat, ops: seq<Op>, home: Side, token: Address,
                                           twin: Address, m: Message, assertedBlock: nat)
    requires Paired(cfg, home, token, twin) && Due(cfg, Run(cfg, Deployed(f1, f2), ops), home, m, assertedBlock)
    requires m.payload.FinalizeERC20? && m.payload.localToken == token && m.payload.remoteToken == twin
    ensures Finalize(cfg, Run(cfg, Deployed(f1, f2), ops), home, m, assertedBlock, true).Some?
  {
    hide Run, Sound, Due, Finalize;
    RunSound(cfg, f1, f2, ops);
    DueIsAccepted(cfg, Run(cfg, Deployed(f1, f2), ops), f1 + f2 + Donations(cfg, ops), home, m, assertedBlock);
  }

  /** In every run: so is one that mints the twin, and it mints the amount escrowed for it. */
  lemma {:induction false} MintSucceeds(cfg: Config, f1: nat, f2: nat, ops: seq<Op>, home: Side, token: Address,
                                        twin: Address, m: Message, assertedBlock: nat)
    requires Paired(cfg, home, token, twin) && Due(cfg, Run(cfg, Deployed(f1, f2), ops), home.Other(), m, assertedBlock)
    requires m.payload.FinalizeERC20? && m.payload.localToken == twin && m.payload.remoteToken == token
    ensures var w := Run(cfg, Deployed(f1, f2), ops);
            var r := Finalize(cfg, w, home.Other(), m, assertedBlock, true);
            && r.Some?
            && Amount(r.value.At(home.Other()).supply, twin)
               == Amount(w.At(home.Other()).supply, twin) + m.payload.amount
  {
    hide Run, Sound, Due;
    var w := Run(cfg, Deployed(f1, f2), ops);
    RunSound(cfg, f1, f2, ops);
    DueIsFromBridge(cfg, w, f1 + f2 + Donations(cfg, ops), home.Other(), m, assertedBlock);
    DueIsAccepted(cfg, w, f1 + f2 + Donations(cfg, ops), home.Other(), m, assertedBlock);
  }

  /** In every run: an ETH message between the bridges is accepted exactly when the portal has the
      ETH and the recipient is neither the bridge nor the portal. */
  lemma {:induction false} EthDelivered(cfg: Config, f1: nat, f2: nat, ops: seq<Op>, side: Side, m: Message,
                                        assertedBlock: nat)
    requires Due(cfg, Run(cfg, Deployed(f1, f2), ops), side, m, assertedBlock) && m.payload.FinalizeETH?
    ensures var w := Run(cfg, Deployed(f1, f2), ops);
            Finalize(cfg, w, side, m, assertedBlock, true).Some? <==>
            && m.payload.amount <= w.At(side).balance
            && m.payload.to != cfg.StandardBridge(side) && m.payload.to != cfg.Portal(side)
  {
    hide Run, Sound, Due, Finalize;
    RunSound(cfg, f1, f2, ops);
    DueIsAccepted(cfg, Run(cfg, Deployed(f1, f2), ops), f1 + f2 + Donations(cfg, ops), side, m, assertedBlock);
  }
}
