/** The cross-chain bridge: a portal and a standard bridge on each chain, mintable tokens and the
    L1 oracle. Both chains run the same protocol, so each operation takes the side it runs on. */
module Bridge {
  import opened Wrappers

  const ADDRESS_SPACE := 0x1_0000000000_0000000000_0000000000_0000000000
  const ALIAS_OFFSET := 0x1111000000000000000000000000000000001111

  type Address = x: int | 0 <= x < ADDRESS_SPACE

  datatype Side = L1 | L2
  {
    function Other(): Side { if L1? then L2 else L1 }
  }

  /** Calldata of a cross-domain message. */
  datatype Payload =
    | FinalizeETH(from: Address, to: Address, amount: nat)
    | FinalizeERC20(localToken: Address, remoteToken: Address, from: Address, to: Address, amount: nat)
    | OtherCall(data: nat)

  /** A message stands for its hash, which covers every field but the version. */
  datatype Message = Message(nonce: nat, sender: Address, target: Address, value: nat, gasLimit: nat, payload: Payload)

  /** What a token contract answers and does: a plain ERC20, a `MintableERC20` with its immutable
      fields, or some other contract that merely claims the mintable interface. */
  datatype Token = Plain | Mintable(remote: Address, bridge: Address) | Impostor(remote: Address)

  datatype Config = Config(portal1: Address, portal2: Address, bridge1: Address, bridge2: Address,
                           token1: Address -> Token, token2: Address -> Token)
  {
    function Portal(side: Side): Address { if side.L1? then portal1 else portal2 }
    function StandardBridge(side: Side): Address { if side.L1? then bridge1 else bridge2 }
    function TokenAt(side: Side, a: Address): Token { if side.L1? then token1(a) else token2(a) }
  }

  /** One chain: portal storage, portal balance, bridge escrow, mintable supplies, and the
      `initiated` mapping as it stood at the end of each past block. */
  datatype Chain = Chain(nonce: nat, initiated: set<Message>, finalized: set<Message>, balance: nat,
                         deposits: map<(Address, Address), nat>, supply: map<Address, nat>, past: seq<set<Message>>)

  datatype World = World(l1: Chain, l2: Chain, oracleNumber: nat, oracleView: set<Message>)
  {
    function At(side: Side): Chain { if side.L1? then l1 else l2 }
    function With(side: Side, c: Chain): World { if side.L1? then this.(l1 := c) else this.(l2 := c) }
  }

  function Amount<K(==)>(m: map<K, nat>, k: K): nat { if k in m then m[k] else 0 }

  // ---------- who is talking ----------

  function ApplyAlias(a: Address): Address { (a + ALIAS_OFFSET) % ADDRESS_SPACE }
  function UndoAlias(a: Address): Address { (a - ALIAS_OFFSET) % ADDRESS_SPACE }

  /** The sender a portal records: on L1, contracts are aliased. */
  function RecordedSender(side: Side, sender: Address, isContract: bool): Address {
    if side.L1? && isContract then ApplyAlias(sender) else sender
  }

  /** How the standard bridge of `side` appears to the other chain. */
  function BridgeIdentity(cfg: Config, side: Side): Address {
    RecordedSender(side, cfg.StandardBridge(side), true)
  }

  /** `onlyOtherBridge` on `side`, for a call that the portal makes on behalf of `sender`. */
  predicate FromOtherBridge(cfg: Config, side: Side, sender: Address) {
    if side.L1? then sender == cfg.bridge2 else UndoAlias(sender) == cfg.bridge1
  }

  // ---------- the portals ----------

  function Send(c: Chain, sender: Address, target: Address, value: nat, gasLimit: nat, payload: Payload): Chain {
    var m := Message(c.nonce, sender, target, value, gasLimit, payload);
    c.(nonce := c.nonce + 1, initiated := c.initiated + {m}, balance := c.balance + value)
  }

  /** `initiateDeposit` / `initiateWithdrawal`. */
  function Initiate(w: World, side: Side, sender: Address, isContract: bool, target: Address, value: nat, gasLimit: nat,
                    payload: Payload): World {
    w.With(side, Send(w.At(side), RecordedSender(side, sender, isContract), target, value, gasLimit, payload))
  }

  /** What `side` can see of the messages initiated on the other side: L2 sees the L1 state the
      oracle last recorded, L1 the L2 state that a confirmed assertion commits to. */
  function Visible(w: World, side: Side, assertedBlock: nat): set<Message> {
    if side.L2? then w.oracleView
    else if assertedBlock < |w.l2.past| then w.l2.past[assertedBlock] else {}
  }

  /** `finalizeWithdrawalTransaction` / `finalizeDepositTransaction`; `proved` tells whether the proofs
      against the other chain's state pass, `ok` whether unseen code (the target, a token) succeeds. */
  function Relay(cfg: Config, side: Side, c: Chain, m: Message, proved: bool, ok: bool): Option<Chain> {
    if m.target == cfg.Portal(side) then None
    else if m in c.finalized then None
    else if !proved then None
    else if c.balance < m.value then None
    else
      var c1 := c.(finalized := c.finalized + {m}, balance := c.balance - m.value);
      if m.target == cfg.StandardBridge(side) then CallBridge(cfg, side, c1, m, ok)
      else if ok then Some(c1) else None
  }

  function Finalize(cfg: Config, w: World, side: Side, m: Message, assertedBlock: nat, ok: bool): Option<World> {
    match Relay(cfg, side, w.At(side), m, m in Visible(w, side, assertedBlock), ok)
    case None => None
    case Some(c) => Some(w.With(side, c))
  }

  // ---------- the standard bridges ----------

  predicate IsNonNativeTokenPair(cfg: Config, side: Side, localToken: Address, remoteToken: Address) {
    match cfg.TokenAt(side, localToken)
    case Plain => false
    case Mintable(remote, _) => remote == remoteToken
    case Impostor(remote) => remote == remoteToken
  }

  /** `mint`, which only the token's own bridge may call. */
  function Mint(cfg: Config, side: Side, c: Chain, token: Address, amount: nat, ok: bool): Option<Chain> {
    match cfg.TokenAt(side, token)
    case Mintable(_, bridge) =>
      if bridge != cfg.StandardBridge(side) || !ok then None
      else Some(c.(supply := c.supply[token := Amount(c.supply, token) + amount]))
    case _ => if ok then Some(c) else None
  }

  /** `burn`; nobody can burn more than there is. */
  function Burn(cfg: Config, side: Side, c: Chain, token: Address, amount: nat, ok: bool): Option<Chain> {
    match cfg.TokenAt(side, token)
    case Mintable(_, bridge) =>
      if bridge != cfg.StandardBridge(side) || !ok || Amount(c.supply, token) < amount then None
      else Some(c.(supply := c.supply[token := Amount(c.supply, token) - amount]))
    case _ => if ok then Some(c) else None
  }

  function FinalizeBridgeERC20(cfg: Config, side: Side, c: Chain, p: Payload, ok: bool): Option<Chain>
    requires p.FinalizeERC20?
  {
    if IsNonNativeTokenPair(cfg, side, p.localToken, p.remoteToken) then Mint(cfg, side, c, p.localToken, p.amount, ok)
    else
      var pair := (p.localToken, p.remoteToken);
      if Amount(c.deposits, pair) < p.amount || !ok then None
      else Some(c.(deposits := c.deposits[pair := Amount(c.deposits, pair) - p.amount]))
  }

  /** A portal calling the standard bridge. Value is only accepted where the function is payable. */
  function CallBridge(cfg: Config, side: Side, c: Chain, m: Message, ok: bool): Option<Chain> {
    match m.payload
    case FinalizeERC20(_, _, _, _, _) =>
      if !FromOtherBridge(cfg, side, m.sender) || m.value != 0 then None
      else FinalizeBridgeERC20(cfg, side, c, m.payload, ok)
    case FinalizeETH(_, to, amount) =>
      if !FromOtherBridge(cfg, side, m.sender) || m.value != amount then None
      else if to == cfg.StandardBridge(side) || to == cfg.Portal(side) || !ok then None
      else Some(c)
    case OtherCall(_) => if ok then Some(c) else None
  }

  /** `_initiateBridgeETH`. */
  function BridgeETH(cfg: Config, side: Side, c: Chain, from: Address, to: Address, amount: nat, gasLimit: nat): Chain {
    Send(c, BridgeIdentity(cfg, side), cfg.StandardBridge(side.Other()), amount, gasLimit,
         FinalizeETH(from, to, amount))
  }

  /** `_initiateBridgeERC20`: burn or escrow, then a message with the token order reversed. */
  function BridgeERC20(cfg: Config, side: Side, c: Chain, localToken: Address, remoteToken: Address,
                       from: Address, to: Address, amount: nat, gasLimit: nat, ok: bool): Option<Chain> {
    var pair := (localToken, remoteToken);
    var taken := if IsNonNativeTokenPair(cfg, side, localToken, remoteToken) then
                   Burn(cfg, side, c, localToken, amount, ok)
                 else if ok then Some(c.(deposits := c.deposits[pair := Amount(c.deposits, pair) + amount]))
                 else None;
    match taken
    case None => None
    case Some(c1) =>
      Some(Send(c1, BridgeIdentity(cfg, side), cfg.StandardBridge(side.Other()), 0, gasLimit,
                FinalizeERC20(remoteToken, localToken, from, to, amount)))
  }

  // ---------- oracle and blocks ----------

  /** `setL1OracleValues`, called with the state of an actual past L1 block. */
  function SetOracle(w: World, number: nat): Option<World> {
    if number <= w.oracleNumber || number >= |w.l1.past| then None
    else Some(w.(oracleNumber := number, oracleView := w.l1.past[number]))
  }

  function EndBlock(w: World, side: Side): World {
    var c := w.At(side);
    w.With(side, c.(past := c.past + [c.initiated]))
  }

  // ---------- runs ----------

  datatype Op =
    | OpInitiate(side: Side, sender: Address, isContract: bool, target: Address, value: nat, gasLimit: nat,
                 payload: Payload)
    | OpBridgeETH(side: Side, from: Address, to: Address, amount: nat, gasLimit: nat)
    | OpBridgeERC20(side: Side, localToken: Address, remoteToken: Address, from: Address, to: Address, amount: nat,
                    gasLimit: nat, ok: bool)
    | OpFinalize(side: Side, message: Message, assertedBlock: nat, ok: bool)
    | OpDonate(side: Side, value: nat)
    | OpSetOracle(number: nat)
    | OpEndBlock(side: Side)

  /** Direct portal calls come from anyone but the standard bridge, whose calls are `OpBridge...`;
      and no plain account sits at the alias of the L1 bridge. */
  predicate Feasible(cfg: Config, op: Op) {
    op.OpInitiate? ==>
      && op.sender != cfg.StandardBridge(op.side)
      && (op.side.L1? && !op.isContract ==> op.sender != ApplyAlias(cfg.bridge1))
  }

  function Apply(cfg: Config, w: World, op: Op): Option<World> {
    match op
    case OpInitiate(side, sender, isContract, target, value, gasLimit, payload) =>
      Some(Initiate(w, side, sender, isContract, target, value, gasLimit, payload))
    case OpBridgeETH(side, from, to, amount, gasLimit) =>
      Some(w.With(side, BridgeETH(cfg, side, w.At(side), from, to, amount, gasLimit)))
    case OpBridgeERC20(side, localToken, remoteToken, from, to, amount, gasLimit, ok) =>
      (match BridgeERC20(cfg, side, w.At(side), localToken, remoteToken, from, to, amount, gasLimit, ok)
       case None => None
       case Some(c) => Some(w.With(side, c)))
    case OpFinalize(side, m, assertedBlock, ok) => Finalize(cfg, w, side, m, assertedBlock, ok)
    case OpDonate(side, value) =>
      var c := w.At(side);
      Some(w.With(side, c.(balance := c.balance + value)))
    case OpSetOracle(number) => SetOracle(w, number)
    case OpEndBlock(side) => Some(EndBlock(w, side))
  }

  function Step(cfg: Config, w: World, op: Op): World {
    if Feasible(cfg, op) && Apply(cfg, w, op).Some? then Apply(cfg, w, op).value else w
  }

  function Run(cfg: Config, w: World, ops: seq<Op>): World {
    if ops == [] then w else Step(cfg, Run(cfg, w, ops[..|ops| - 1]), ops[|ops| - 1])
  }

  /** Freshly deployed: no messages, no tokens, some initial funding of the portals. */
  function Deployed(funding1: nat, funding2: nat): World {
    var empty := Chain(0, {}, {}, 0, map[], map[], []);
    World(empty.(balance := funding1), empty.(balance := funding2), 0, {})
  }
}
