/** The bridge contracts in their own form: storage that calls update in place. Each method of an
    `Endpoint` does what the function of the same name in module `Bridge` says. `TwoChains` puts the
    two sides together; it is `Valid()` from the start on, which decides what gets accepted. */
module BridgeContract {
  import opened Wrappers
  import Bridge
  import opened BridgeTypes = Bridge
  import opened BridgeProofs

  const DEFAULT_SENDER: Address := 0xdEaD

  /** A call that reverts changes nothing; one that succeeds moves to the specified state. */
  ghost predicate Outcome(before: Chain, spec: Option<Chain>, after: Chain, ok: bool) {
    match spec
    case None => !ok && after == before
    case Some(c) => ok && after == c
  }

  /** The portal, the standard bridge and the mintable tokens of one chain. */
  class Endpoint {
    const cfg: Config
    const side: Side
    // portal
    var nonce: nat
    var initiated: set<Message>
    var finalized: set<Message>
    var balance: nat
    /** `l2Sender` / `l1Sender`: on whose behalf the portal is calling right now. */
    var crossSender: Address
    // standard bridge
    var deposits: map<(Address, Address), nat>
    // mintable tokens
    var supply: map<Address, nat>
    ghost var past: seq<set<Message>>

    ghost function Snapshot(): Chain
      reads this
    {
      Chain(nonce, initiated, finalized, balance, deposits, supply, past)
    }

    constructor (cfg: Config, side: Side, funding: nat)
      ensures this.cfg == cfg && this.side == side && crossSender == DEFAULT_SENDER
      ensures Snapshot() == Deployed(funding, funding).At(side)
    {
      this.cfg, this.side := cfg, side;
      nonce, initiated, finalized, balance, crossSender := 0, {}, {}, funding, DEFAULT_SENDER;
      deposits, supply, past := map[], map[], [];
    }

    /** The part of `initiateDeposit` and `initiateWithdrawal` after the sender is known. */
    method Send(sender: Address, target: Address, value: nat, gasLimit: nat, payload: Payload)
      modifies this`nonce, this`initiated, this`balance
      ensures Snapshot() == Bridge.Send(old(Snapshot()), sender, target, value, gasLimit, payload)
    {
      initiated := initiated + {Message(nonce, sender, target, value, gasLimit, payload)};
      balance := balance + value;
      nonce := nonce + 1;
    }

    method Initiate(sender: Address, isContract: bool, target: Address, value: nat, gasLimit: nat, payload: Payload)
      modifies this`nonce, this`initiated, this`balance
      ensures Snapshot() == Bridge.Send(old(Snapshot()), RecordedSender(side, sender, isContract), target, value,
                                        gasLimit, payload)
    {
      var from := sender;
      if side.L1? && isContract { from := ApplyAlias(sender); }
      Send(from, target, value, gasLimit, payload);
    }

    method Mint(token: Address, amount: nat, ok: bool) returns (done: bool)
      modifies this`supply
      ensures Outcome(old(Snapshot()), Bridge.Mint(cfg, side, old(Snapshot()), token, amount, ok), Snapshot(), done)
    {
      match cfg.TokenAt(side, token)
      case Mintable(_, bridge) =>
        if bridge != cfg.StandardBridge(side) || !ok { return false; }
        supply := supply[token := Amount(supply, token) + amount];
        done := true;
      case _ => done := ok;
    }

    method Burn(token: Address, amount: nat, ok: bool) returns (done: bool)
      modifies this`supply
      ensures Outcome(old(Snapshot()), Bridge.Burn(cfg, side, old(Snapshot()), token, amount, ok), Snapshot(), done)
    {
      match cfg.TokenAt(side, token)
      case Mintable(_, bridge) =>
        if bridge != cfg.StandardBridge(side) || !ok || Amount(supply, token) < amount { return false; }
        supply := supply[token := Amount(supply, token) - amount];
        done := true;
      case _ => done := ok;
    }

    method BridgeETH(from: Address, to: Address, amount: nat, gasLimit: nat)
      modifies this`nonce, this`initiated, this`balance
      ensures Snapshot() == Bridge.BridgeETH(cfg, side, old(Snapshot()), from, to, amount, gasLimit)
    {
      Initiate(cfg.StandardBridge(side), true, cfg.StandardBridge(side.Other()), amount, gasLimit,
               FinalizeETH(from, to, amount));
    }

    method BridgeERC20(localToken: Address, remoteToken: Address, from: Address, to: Address, amount: nat,
                       gasLimit: nat, ok: bool)
      returns (done: bool)
      modifies this`nonce, this`initiated, this`balance, this`deposits, this`supply
      ensures Outcome(old(Snapshot()),
                      Bridge.BridgeERC20(cfg, side, old(Snapshot()), localToken, remoteToken, from, to, amount,
                                         gasLimit, ok),
                      Snapshot(), done)
    {
      if IsNonNativeTokenPair(cfg, side, localToken, remoteToken) {
        done := Burn(localToken, amount, ok);
        if !done { return; }
      } else {
        if !ok { return false; }
        var pair := (localToken, remoteToken);
        deposits := deposits[pair := Amount(deposits, pair) + amount];
      }
      Initiate(cfg.StandardBridge(side), true, cfg.StandardBridge(side.Other()), 0, gasLimit,
               FinalizeERC20(remoteToken, localToken, from, to, amount));
      done := true;
    }

    method FinalizeBridgeERC20(p: Payload, ok: bool) returns (done: bool)
      requires p.FinalizeERC20?
      modifies this`deposits, this`supply
      ensures Outcome(old(Snapshot()), Bridge.FinalizeBridgeERC20(cfg, side, old(Snapshot()), p, ok), Snapshot(), done)
    {
      if IsNonNativeTokenPair(cfg, side, p.localToken, p.remoteToken) {
        done := Mint(p.localToken, p.amount, ok);
      } else {
        var pair := (p.localToken, p.remoteToken);
        if Amount(deposits, pair) < p.amount || !ok { return false; }
        deposits := deposits[pair := Amount(deposits, pair) - p.amount];
        done := true;
      }
    }

    /** The bridge's entry points for the portal, which trust `crossSender` for the caller. */
    method CallBridge(m: Message, ok: bool) returns (done: bool)
      requires crossSender == m.sender
      modifies this`deposits, this`supply
      ensures Outcome(old(Snapshot()), Bridge.CallBridge(cfg, side, old(Snapshot()), m, ok), Snapshot(), done)
    {
      match m.payload
      case FinalizeERC20(_, _, _, _, _) =>
        if !FromOtherBridge(cfg, side, crossSender) || m.value != 0 { return false; }
        done := FinalizeBridgeERC20(m.payload, ok);
      case FinalizeETH(_, to, amount) =>
        if !FromOtherBridge(cfg, side, crossSender) || m.value != amount { return false; }
        done := to != cfg.StandardBridge(side) && to != cfg.Portal(side) && ok;
      case OtherCall(_) => done := ok;
    }

    method Donate(value: nat)
      modifies this`balance
      ensures Snapshot() == old(Snapshot()).(balance := old(balance) + value)
    {
      balance := balance + value;
    }

    /** The chain's history grows by what is initiated now. */
    method EndBlock()
      modifies this`past
      ensures Snapshot() == old(Snapshot()).(past := old(past) + [initiated])
    {
      past := past + [initiated];
    }

    /** Relays a message that the other chain is proved to have initiated. Outside such a call
        `crossSender` is always the default again, whether the call succeeded or not. */
    method Finalize(m: Message, proved: bool, ok: bool) returns (done: bool)
      modifies this
      ensures crossSender == old(crossSender) && this.past == old(this.past)
      ensures old(crossSender) != DEFAULT_SENDER ==> !done && Snapshot() == old(Snapshot())
      ensures old(crossSender) == DEFAULT_SENDER ==>
                Outcome(old(Snapshot()), Relay(cfg, side, old(Snapshot()), m, proved, ok), Snapshot(), done)
    {
      if crossSender != DEFAULT_SENDER { return false; }
      if m.target == cfg.Portal(side) || m in finalized || !proved || balance < m.value { return false; }
      var before := finalized;
      finalized := finalized + {m};
      balance := balance - m.value;
      crossSender := m.sender;
      if m.target == cfg.StandardBridge(side) {
        done := CallBridge(m, ok);
      } else {
        done := ok;
      }
      crossSender := DEFAULT_SENDER;
      if !done {
        finalized := before;
        balance := balance + m.value;
      }
    }
  }

  /** The L1 oracle on L2; the state root stands for the messages that the state has initiated. */
  class L1Oracle {
    var number: nat
    var timestamp: nat
    var baseFee: nat
    var hash: nat
    var stateRoot: set<Message>

    constructor ()
      ensures number == timestamp == baseFee == hash == 0 && stateRoot == {}
    {
      number, timestamp, baseFee, hash, stateRoot := 0, 0, 0, 0, {};
    }

    /** Block numbers only grow; a stale update changes nothing. */
    method SetL1OracleValues(newNumber: nat, newTimestamp: nat, newBaseFee: nat, newHash: nat, newRoot: set<Message>)
      returns (ok: bool)
      modifies this
      ensures ok <==> newNumber > old(number)
      ensures ok ==> (number, timestamp, baseFee, hash, stateRoot)
                     == (newNumber, newTimestamp, newBaseFee, newHash, newRoot)
      ensures !ok ==> (number, timestamp, baseFee, hash, stateRoot)
                      == old((number, timestamp, baseFee, hash, stateRoot))
    {
      ok := number < newNumber;
      if ok {
        number, timestamp, baseFee, hash, stateRoot := newNumber, newTimestamp, newBaseFee, newHash, newRoot;
      }
    }
  }

  /** Both endpoints and the oracle. `funds` is what the portals were given, donations included. */
  class TwoChains {
    const cfg: Config
    const l1: Endpoint
    const l2: Endpoint
    const oracle: L1Oracle
    ghost var funds: nat

    ghost function Snapshot(): World
      reads this, l1, l2, oracle
    {
      World(l1.Snapshot(), l2.Snapshot(), oracle.number, oracle.stateRoot)
    }

    /** Kept by every call: messages, ETH and tokens are accounted for across the two chains. */
    ghost predicate Valid()
      reads this, l1, l2, oracle
    {
      && l1 != l2
      && (l1.cfg, l1.side, l1.crossSender) == (cfg, L1, DEFAULT_SENDER)
      && (l2.cfg, l2.side, l2.crossSender) == (cfg, L2, DEFAULT_SENDER)
      && Sound(cfg, Snapshot(), funds)
    }

    function On(side: Side): Endpoint
    {
      if side.L1? then l1 else l2
    }

    constructor (cfg: Config, funding1: nat, funding2: nat)
      ensures Valid() && this.cfg == cfg && Snapshot() == Deployed(funding1, funding2) && funds == funding1 + funding2
    {
      var a := new Endpoint(cfg, L1, funding1);
      var b := new Endpoint(cfg, L2, funding2);
      var o := new L1Oracle();
      this.cfg, l1, l2, oracle, funds := cfg, a, b, o, funding1 + funding2;
      DeployedSound(cfg, funding1, funding2);
    }

    /** Valid afterwards for every caller but the standard bridge, whose calls are the two below, and
        a plain account at the bridge's alias. */
    method Initiate(side: Side, sender: Address, isContract: bool, target: Address, value: nat, gasLimit: nat,
                    payload: Payload)
      requires Valid()
      modifies On(side)
      ensures Snapshot() == Bridge.Initiate(old(Snapshot()), side, sender, isContract, target, value, gasLimit, payload)
      ensures Feasible(cfg, OpInitiate(side, sender, isContract, target, value, gasLimit, payload)) ==> Valid()
    {
      hide Sound;
      ghost var before := Snapshot();
      On(side).Initiate(sender, isContract, target, value, gasLimit, payload);
      ghost var op := OpInitiate(side, sender, isContract, target, value, gasLimit, payload);
      if Feasible(cfg, op) {
        StepSound(cfg, before, op, Snapshot(), funds);
      }
    }

    method BridgeETH(side: Side, from: Address, to: Address, amount: nat, gasLimit: nat)
      requires Valid()
      modifies On(side)
      ensures Valid() && Apply(cfg, old(Snapshot()), OpBridgeETH(side, from, to, amount, gasLimit)) == Some(Snapshot())
    {
      hide Sound;
      ghost var before := Snapshot();
      On(side).BridgeETH(from, to, amount, gasLimit);
      StepSound(cfg, before, OpBridgeETH(side, from, to, amount, gasLimit), Snapshot(), funds);
    }

    method BridgeERC20(side: Side, localToken: Address, remoteToken: Address, from: Address, to: Address, amount: nat,
                       gasLimit: nat, ok: bool) returns (done: bool)
      requires Valid()
      modifies On(side)
      ensures Valid()
      ensures Happens(old(Snapshot()),
                      Apply(cfg, old(Snapshot()), OpBridgeERC20(side, localToken, remoteToken, from, to, amount,
                                                                gasLimit, ok)),
                      Snapshot(), done)
    {
      hide Sound, Bridge.BridgeERC20;
      ghost var before := Snapshot();
      done := On(side).BridgeERC20(localToken, remoteToken, from, to, amount, gasLimit, ok);
      if done {
        StepSound(cfg, before, OpBridgeERC20(side, localToken, remoteToken, from, to, amount, gasLimit, ok),
                  Snapshot(), funds);
      }
    }

    /** Relays a message, with whatever proofs. Given that proofs pass only for a visible message, only a
        message that the other chain initiated gets through, and only once; and a message from the other
        bridge, properly proved, gets through whenever `Accepts` says so and unseen code succeeds. */
    method Finalize(side: Side, m: Message, ghost assertedBlock: nat, proved: bool, ok: bool) returns (done: bool)
      requires Valid() && (proved ==> m in Visible(Snapshot(), side, assertedBlock))
      modifies On(side)
      ensures Valid()
      ensures Happens(old(Snapshot()),
                      if proved then Apply(cfg, old(Snapshot()), OpFinalize(side, m, assertedBlock, ok)) else None,
                      Snapshot(), done)
      ensures done ==> m in On(side.Other()).initiated && m !in old(On(side).finalized) && m in On(side).finalized
      ensures old(Due(cfg, Snapshot(), side, m, assertedBlock) && Accepts(cfg, Snapshot(), side, m)) && proved && ok ==>
                done
    {
      hide Sound, Due, Accepts, MessageInv, CallBridge;
      ghost var before := Snapshot();
      if Due(cfg, before, side, m, assertedBlock) {
        DueIsAccepted(cfg, before, funds, side, m, assertedBlock);
      }
      done := On(side).Finalize(m, proved, ok);
      if done {
        FinalizeShape(cfg, before, side, m, assertedBlock, ok);
        SoundMessages(cfg, before, funds);
        VisibleInitiated(before, side, assertedBlock);
        StepSound(cfg, before, OpFinalize(side, m, assertedBlock, ok), Snapshot(), funds);
      }
    }

    method Donate(side: Side, value: nat)
      requires Valid()
      modifies On(side), this`funds
      ensures Valid() && funds == old(funds) + value
      ensures Apply(cfg, old(Snapshot()), OpDonate(side, value)) == Some(Snapshot())
    {
      hide Sound;
      ghost var before := Snapshot();
      On(side).Donate(value);
      StepSound(cfg, before, OpDonate(side, value), Snapshot(), funds);
      funds := funds + value;
    }

    method EndBlock(side: Side)
      requires Valid()
      modifies On(side)
      ensures Valid() && Apply(cfg, old(Snapshot()), OpEndBlock(side)) == Some(Snapshot())
    {
      hide Sound;
      ghost var before := Snapshot();
      On(side).EndBlock();
      StepSound(cfg, before, OpEndBlock(side), Snapshot(), funds);
    }

    /** Valid afterwards if the values are those of an actual past L1 block. */
    method SetL1OracleValues(number: nat, timestamp: nat, baseFee: nat, hash: nat, root: set<Message>)
        returns (ok: bool)
      requires Valid()
      modifies oracle
      ensures number < |l1.past| && root == l1.past[number] ==>
                && Valid()
                && Happens(old(Snapshot()), Apply(cfg, old(Snapshot()), OpSetOracle(number)), Snapshot(), ok)
    {
      hide Sound;
      ghost var before := Snapshot();
      ok := oracle.SetL1OracleValues(number, timestamp, baseFee, hash, root);
      if ok && number < |l1.past| && root == l1.past[number] {
        StepSound(cfg, before, OpSetOracle(number), Snapshot(), funds);
      }
    }
  }

  lemma {:induction false} SoundMessages(cfg: Config, w: World, funds: nat)
    requires Sound(cfg, w, funds)
    ensures MessageInv(w)
  {
  }

  /** `Outcome` for both chains together. */
  ghost predicate Happens(before: World, spec: Option<World>, after: World, ok: bool) {
    match spec
    case None => !ok && after == before
    case Some(w) => ok && after == w
  }
}
