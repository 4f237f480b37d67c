/** The assertion and staking contract `Rollup`: state and transitions.
    Each transition returns the new state, or `None` when the call reverts. */
module Rollup {
  import opened Wrappers

  type Address = nat
  type Id = nat

  /** How `createAssertionHelper` is read. As written it compares and overwrites the parent's own
      `blockNum`; the interface documents a separate `childBlockNum` field for that purpose. */
  datatype Reading = AsWritten | AsDocumented

  datatype Staker = Staker(amountStaked: nat, assertionID: Id, currentChallenge: Address)

  datatype Assertion = Assertion(stateHash: nat, blockNum: nat, parent: Id, deadline: nat,
                                 proposalTime: nat, numStakers: nat, childBlockNum: nat)

  datatype Zombie = Zombie(stakerAddress: Address, lastAssertionID: Id)

  const NO_ASSERTION := Assertion(0, 0, 0, 0, 0, 0, 0)

  type Assertions = map<Id, Assertion>
  type Stakers = map<Address, Staker>

  /** Solidity mappings are total: a missing key reads as the zero value. */
  function At(m: Assertions, id: Id): Assertion { if id in m then m[id] else NO_ASSERTION }
  function SetAt<T(==)>(m: map<Id, set<T>>, id: Id): set<T> { if id in m then m[id] else {} }
  function Funds(m: map<Address, nat>, a: Address): nat { if a in m then m[a] else 0 }

  /** A staker is present in `stakers` exactly when its `isStaked` flag is set. `confirmed` and
      `rejected` are the emitted resolution events; `challenges` the deployed challenge contracts. */
  datatype State = State(
    reading: Reading,
    vault: Address,
    baseStakeAmount: nat,
    confirmationPeriod: nat,
    minimumAssertionPeriod: nat,
    lastResolved: Id,
    lastConfirmed: Id,
    lastCreated: Id,
    assertions: Assertions,
    stakedOn: map<Id, set<Address>>,
    childHashes: map<Id, set<nat>>,
    stakers: Stakers,
    numStakers: nat,
    withdrawable: map<Address, nat>,
    zombies: seq<Zombie>,
    balance: nat,
    challenges: map<Address, (Address, Address)>,
    confirmed: seq<Id>,
    rejected: set<Id>)

  function Initialize(reading: Reading, vault: Address, confirmationPeriod: nat, minimumAssertionPeriod: nat,
                      baseStakeAmount: nat, initialID: Id, blockNum: nat, vmHash: nat, now: nat): State {
    State(reading, vault, baseStakeAmount, confirmationPeriod, minimumAssertionPeriod,
          initialID, initialID, initialID,
          map[initialID := Assertion(vmHash, blockNum, initialID, now, now, 0, 0)],
          map[], map[initialID := {vmHash}],
          map[], 0, map[], [], 0, map[], [initialID], {})
  }

  // ---------- staking ----------

  /** `stakeOnAssertion`. */
  function StakeOn(s: State, x: Address, id: Id): State
    requires x in s.stakers
  {
    var a := At(s.assertions, id);
    s.(stakers := s.stakers[x := s.stakers[x].(assertionID := id)],
       assertions := s.assertions[id := a.(numStakers := a.numStakers + 1)],
       stakedOn := s.stakedOn[id := SetAt(s.stakedOn, id) + {x}])
  }

  function Stake(s: State, sender: Address, value: nat): Option<State> {
    if sender in s.stakers then
      var st := s.stakers[sender];
      Some(s.(stakers := s.stakers[sender := st.(amountStaked := st.amountStaked + value)],
              balance := s.balance + value))
    else if value < s.baseStakeAmount then None
    else
      var t := s.(stakers := s.stakers[sender := Staker(value, 0, 0)],
                  numStakers := s.numStakers + 1,
                  balance := s.balance + value);
      Some(StakeOn(t, sender, s.lastConfirmed))
  }

  /** `paid` tells whether the transfer to the staker succeeds. The subtraction is checked. */
  function Unstake(s: State, sender: Address, amount: nat, paid: bool): Option<State> {
    if sender !in s.stakers then None
    else
      var st := s.stakers[sender];
      if st.assertionID > s.lastConfirmed then None
      else if st.amountStaked < s.baseStakeAmount then None
      else if amount > st.amountStaked - s.baseStakeAmount then None
      else if !paid || s.balance < amount then None
      else Some(s.(stakers := s.stakers[sender := st.(amountStaked := st.amountStaked - amount)],
                   balance := s.balance - amount))
  }

  /** `deleteStaker`; the counter's decrement is checked. */
  function DeleteStaker(s: State, x: Address): Option<State> {
    if s.numStakers == 0 then None
    else Some(s.(numStakers := s.numStakers - 1, stakers := s.stakers - {x}))
  }

  function RemoveStake(s: State, x: Address, paid: bool): Option<State> {
    if x !in s.stakers then None
    else
      var st := s.stakers[x];
      if st.assertionID > s.lastConfirmed then None
      else if !paid || s.balance < st.amountStaked then None
      else
        match DeleteStaker(s, x)
        case None => None
        case Some(t) => Some(t.(balance := s.balance - st.amountStaked))
  }

  function AdvanceStake(s: State, sender: Address, id: Id): Option<State> {
    if sender !in s.stakers then None
    else
      var st := s.stakers[sender];
      if id <= st.assertionID || id > s.lastCreated then None
      else if st.assertionID != At(s.assertions, id).parent then None
      else Some(StakeOn(s, sender, id))
  }

  function Withdraw(s: State, sender: Address, paid: bool): Option<State> {
    var fund := Funds(s.withdrawable, sender);
    if !paid || s.balance < fund then None
    else Some(s.(withdrawable := s.withdrawable[sender := 0], balance := s.balance - fund))
  }

  function SetBaseStakeAmount(s: State, amount: nat): Option<State> {
    if s.lastCreated != s.lastResolved || amount > s.baseStakeAmount then None
    else Some(s.(baseStakeAmount := amount))
  }

  // ---------- assertions ----------

  /** `createAssertionHelper`. */
  function CreateHelper(s: State, id: Id, stateHash: nat, blockNum: nat, parentID: Id, now: nat): Option<State> {
    var parent := At(s.assertions, parentID);
    var size := if s.reading.AsWritten? then parent.blockNum else parent.childBlockNum;
    if size != 0 && blockNum != size then None
    else if size != 0 && stateHash in SetAt(s.childHashes, parentID) then None
    else
      var parent' := if size != 0 then parent
                     else if s.reading.AsWritten? then parent.(blockNum := blockNum)
                     else parent.(childBlockNum := blockNum);
      Some(s.(childHashes := s.childHashes[parentID := SetAt(s.childHashes, parentID) + {stateHash}],
              assertions := s.assertions[parentID := parent'][id :=
                Assertion(stateHash, blockNum, parentID, now + s.confirmationPeriod, now, 0, 0)]))
  }

  function CreateAssertion(s: State, sender: Address, vmHash: nat, blockNum: nat, now: nat): Option<State> {
    if sender !in s.stakers then None
    else
      var parentID := s.stakers[sender].assertionID;
      var parent := At(s.assertions, parentID);
      if now < parent.proposalTime || now - parent.proposalTime < s.minimumAssertionPeriod then None
      else if blockNum <= parent.blockNum then None
      else
        var id := s.lastCreated + 1;
        match CreateHelper(s, id, vmHash, blockNum, parentID, now)
        case None => None
        case Some(t) => Some(StakeOn(t.(lastCreated := id), sender, id))
  }

  /** How many zombies have an address recorded in `flagged`. */
  function StakedZombies(zombies: seq<Zombie>, flagged: set<Address>): nat {
    if zombies == [] then 0
    else
      var last := |zombies| - 1;
      StakedZombies(zombies[..last], flagged) + if zombies[last].stakerAddress in flagged then 1 else 0
  }

  function CountStakedZombies(s: State, id: Id): nat {
    StakedZombies(s.zombies, SetAt(s.stakedOn, id))
  }

  predicate Confirmable(s: State, now: nat) {
    var id := s.lastResolved + 1;
    var a := At(s.assertions, id);
    && s.lastResolved < s.lastCreated
    && s.numStakers > 0
    && now >= a.deadline
    && a.parent == s.lastConfirmed
    && a.numStakers == CountStakedZombies(s, id) + s.numStakers
  }

  predicate Rejectable(s: State, staker: Address, now: nat) {
    var id := s.lastResolved + 1;
    var a := At(s.assertions, id);
    && s.lastResolved < s.lastCreated
    && (a.parent == s.lastConfirmed ==>
          && now >= a.deadline
          && staker in s.stakers
          && s.stakers[staker].assertionID >= id
          && staker !in SetAt(s.stakedOn, id)
          && a.numStakers == CountStakedZombies(s, id))
  }

  function Confirm(s: State, now: nat): Option<State> {
    if !Confirmable(s, now) then None
    else
      var id := s.lastResolved + 1;
      Some(s.(lastResolved := id, lastConfirmed := id, confirmed := s.confirmed + [id]))
  }

  function Reject(s: State, staker: Address, now: nat): Option<State> {
    if !Rejectable(s, staker, now) then None
    else
      var id := s.lastResolved + 1;
      Some(s.(lastResolved := id, assertions := s.assertions[id := NO_ASSERTION], rejected := s.rejected + {id}))
  }

  /** `L1Portal._isAssertionConfirmed`. */
  predicate PortalAccepts(s: State, id: Id) {
    id <= s.lastConfirmed && At(s.assertions, id).stateHash != 0
  }

  // ---------- challenges ----------

  predicate Unchallenged(s: State, x: Address) {
    x in s.stakers && s.stakers[x].currentChallenge == 0
  }

  /** `challenge` is the address at which the challenge contract gets deployed. */
  function ChallengeAssertion(s: State, defender: Address, challenger: Address, defenderID: Id, challengerID: Id,
                              challenge: Address): Option<State> {
    if defenderID >= challengerID then None
    else if challengerID > s.lastCreated then None
    else if s.lastConfirmed >= defenderID then None
    else if At(s.assertions, defenderID).parent != At(s.assertions, challengerID).parent then None
    else if !Unchallenged(s, defender) || !Unchallenged(s, challenger) then None
    else
      var st := s.stakers[challenger := s.stakers[challenger].(currentChallenge := challenge)];
      Some(s.(stakers := st[defender := st[defender].(currentChallenge := challenge)],
              challenges := s.challenges[challenge := (defender, challenger)]))
  }

  function ChallengeOf(s: State, x: Address): Address {
    if x in s.stakers then s.stakers[x].currentChallenge else 0
  }

  /** Who gets what: the loser is refunded what it staked beyond the winner's stake; of the rest,
      half goes to the winner and half to the vault. */
  function Settle(s: State, winner: Address, loser: Address): State
    requires winner in s.stakers && loser in s.stakers
  {
    var loserStake := s.stakers[loser].amountStaked;
    var winnerStake := s.stakers[winner].amountStaked;
    var excess := loserStake > winnerStake;
    var remaining := if excess then winnerStake else loserStake;
    var won := remaining / 2;
    var st1 := s.stakers[loser := s.stakers[loser].(amountStaked := remaining)];
    var st2 := st1[winner := st1[winner].(amountStaked := st1[winner].amountStaked + won, currentChallenge := 0)];
    var w1 := if excess then s.withdrawable[loser := Funds(s.withdrawable, loser) + (loserStake - winnerStake)]
              else s.withdrawable;
    s.(stakers := st2, withdrawable := w1[s.vault := Funds(w1, s.vault) + (remaining - won)])
  }

  function CompleteChallenge(s: State, sender: Address, winner: Address, loser: Address): Option<State> {
    var challenge := ChallengeOf(s, winner);
    if challenge == 0 || challenge != ChallengeOf(s, loser) || sender != challenge then None
    else
      match DeleteStaker(Settle(s, winner, loser), loser)
      case None => None
      case Some(t) => Some(t.(zombies := t.zombies + [Zombie(loser, s.stakers[loser].assertionID)]))
  }

  // ---------- runs ----------

  datatype Op =
    | OpStake(sender: Address, value: nat)
    | OpUnstake(sender: Address, amount: nat, paid: bool)
    | OpRemoveStake(staker: Address, paid: bool)
    | OpAdvanceStake(sender: Address, id: Id)
    | OpWithdraw(sender: Address, paid: bool)
    | OpSetBaseStakeAmount(amount: nat)
    | OpCreateAssertion(sender: Address, vmHash: nat, blockNum: nat, now: nat)
    | OpConfirm(now: nat)
    | OpReject(staker: Address, now: nat)
    | OpChallenge(defender: Address, challenger: Address, defenderID: Id, challengerID: Id, challenge: Address)
    | OpComplete(sender: Address, winner: Address, loser: Address)

  /** What the rest of the system guarantees: challenge contracts get new, non-zero addresses, and
      a challenge contract only reports its own two players, one as winner and one as loser. */
  predicate Feasible(s: State, op: Op) {
    match op
    case OpChallenge(_, _, _, _, challenge) => challenge != 0 && challenge !in s.challenges
    case OpComplete(sender, winner, loser) =>
      sender in s.challenges ==> s.challenges[sender] == (winner, loser) || s.challenges[sender] == (loser, winner)
    case _ => true
  }

  function Apply(s: State, op: Op): Option<State> {
    match op
    case OpStake(sender, value) => Stake(s, sender, value)
    case OpUnstake(sender, amount, paid) => Unstake(s, sender, amount, paid)
    case OpRemoveStake(staker, paid) => RemoveStake(s, staker, paid)
    case OpAdvanceStake(sender, id) => AdvanceStake(s, sender, id)
    case OpWithdraw(sender, paid) => Withdraw(s, sender, paid)
    case OpSetBaseStakeAmount(amount) => SetBaseStakeAmount(s, amount)
    case OpCreateAssertion(sender, vmHash, blockNum, now) => CreateAssertion(s, sender, vmHash, blockNum, now)
    case OpConfirm(now) => Confirm(s, now)
    case OpReject(staker, now) => Reject(s, staker, now)
    case OpChallenge(d, c, did, cid, challenge) => ChallengeAssertion(s, d, c, did, cid, challenge)
    case OpComplete(sender, winner, loser) => CompleteChallenge(s, sender, winner, loser)
  }

  /** A reverted call leaves the state as it was. */
  function Step(s: State, op: Op): State {
    if Feasible(s, op) && Apply(s, op).Some? then Apply(s, op).value else s
  }

  function Run(s: State, ops: seq<Op>): State {
    if ops == [] then s else Step(Run(s, ops[..|ops| - 1]), ops[|ops| - 1])
  }
}
