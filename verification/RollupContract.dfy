/** The rollup contract in its own form: storage variables that calls update in place. Each
    method does what the transition of the same name in module `Rollup` says. The contract is
    `Valid()` from the constructor on, which decides when the calls that pay out succeed. */
module RollupContract {
  import opened Wrappers
  import Rollup
  import opened RollupTypes = Rollup
  import opened RollupTree
  import opened RollupResolution
  import opened RollupSound

  /** A call that reverts changes nothing; one that succeeds moves to the specified state. */
  ghost predicate Outcome(before: State, spec: Option<State>, after: State, ok: bool) {
    match spec
    case None => !ok && after == before
    case Some(t) => ok && after == t
  }

  class Contract {
    const reading: Reading
    const vault: Address
    var baseStakeAmount: nat
    const confirmationPeriod: nat
    const minimumAssertionPeriod: nat
    var lastResolvedAssertionID: Id
    var lastConfirmedAssertionID: Id
    var lastCreatedAssertionID: Id
    var assertions: map<Id, Assertion>
    var stakedOn: map<Id, set<Address>>
    var childStateHashes: map<Id, set<nat>>
    var numStakers: nat
    var stakers: map<Address, Staker>
    var withdrawableFunds: map<Address, nat>
    var zombies: seq<Zombie>
    var balance: nat
    var challenges: map<Address, (Address, Address)>
    var confirmedEvents: seq<Id>
    var rejectedEvents: set<Id>

    ghost function Snapshot(): State
      reads this
    {
      State(reading, vault, baseStakeAmount, confirmationPeriod, minimumAssertionPeriod,
            lastResolvedAssertionID, lastConfirmedAssertionID, lastCreatedAssertionID,
            assertions, stakedOn, childStateHashes, stakers, numStakers, withdrawableFunds, zombies,
            balance, challenges, confirmedEvents, rejectedEvents)
    }

    /** Kept by every call. */
    ghost predicate Valid()
      reads this
    {
      Sound(Snapshot())
    }

    constructor (reading: Reading, vault: Address, confirmationPeriod: nat, minimumAssertionPeriod: nat,
                 baseStakeAmount: nat, initialAssertionID: Id, initialBlockNum: nat, initialVMHash: nat, now: nat)
      ensures Snapshot() == Rollup.Initialize(reading, vault, confirmationPeriod, minimumAssertionPeriod,
                                              baseStakeAmount, initialAssertionID, initialBlockNum, initialVMHash, now)
      ensures Valid()
    {
      this.reading, this.vault := reading, vault;
      this.baseStakeAmount := baseStakeAmount;
      this.confirmationPeriod, this.minimumAssertionPeriod := confirmationPeriod, minimumAssertionPeriod;
      lastResolvedAssertionID := initialAssertionID;
      lastConfirmedAssertionID := initialAssertionID;
      lastCreatedAssertionID := initialAssertionID;
      var initial := Assertion(initialVMHash, initialBlockNum, initialAssertionID, now, now, 0, 0);
      assertions := map[initialAssertionID := initial];
      childStateHashes := map[initialAssertionID := {initialVMHash}];
      stakedOn, numStakers, stakers, withdrawableFunds, zombies := map[], 0, map[], map[], [];
      balance, challenges, confirmedEvents, rejectedEvents := 0, map[], [initialAssertionID], {};
      new;
      assert Snapshot() == Rollup.Initialize(reading, vault, confirmationPeriod, minimumAssertionPeriod,
                                             baseStakeAmount, initialAssertionID, initialBlockNum, initialVMHash, now);
      InitialSound(Snapshot());
    }

    method StakeOnAssertion(stakerAddress: Address, assertionID: Id)
      requires stakerAddress in stakers
      modifies this
      ensures Snapshot() == Rollup.StakeOn(old(Snapshot()), stakerAddress, assertionID)
    {
      stakers := stakers[stakerAddress := stakers[stakerAddress].(assertionID := assertionID)];
      var assertion := At(assertions, assertionID);
      assertions := assertions[assertionID := assertion.(numStakers := assertion.numStakers + 1)];
      stakedOn := stakedOn[assertionID := SetAt(stakedOn, assertionID) + {stakerAddress}];
    }

    method Stake(sender: Address, value: nat) returns (ok: bool)
      requires Valid()
      modifies this
      ensures Valid() && (ok <==> sender in old(stakers) || value >= baseStakeAmount)
      ensures Outcome(old(Snapshot()), Rollup.Stake(old(Snapshot()), sender, value), Snapshot(), ok)
    {
      hide Sound;
      ghost var before := Snapshot();
      if sender in stakers {
        stakers := stakers[sender := stakers[sender].(amountStaked := stakers[sender].amountStaked + value)];
        balance := balance + value;
      } else {
        if value < baseStakeAmount { return false; }
        balance := balance + value;
        stakers := stakers[sender := Staker(value, 0, 0)];
        numStakers := numStakers + 1;
        hide Rollup.StakeOn;
        StakeOnAssertion(sender, lastConfirmedAssertionID);
      }
      AppliedSound(before, OpStake(sender, value), Snapshot());
      ok := true;
    }

    method Unstake(sender: Address, stakeAmount: nat, paid: bool) returns (ok: bool)
      requires Valid()
      modifies this
      ensures Valid()
      ensures ok <==> && sender in old(stakers) && old(stakers)[sender].assertionID == lastConfirmedAssertionID
                      && stakeAmount + baseStakeAmount <= old(stakers)[sender].amountStaked && paid
      ensures Outcome(old(Snapshot()), Rollup.Unstake(old(Snapshot()), sender, stakeAmount, paid), Snapshot(), ok)
    {
      hide Sound;
      ghost var before := Snapshot();
      UnstakeExact(Snapshot(), sender, stakeAmount, paid);
      if sender !in stakers { return false; }
      var staker := stakers[sender];
      if staker.assertionID > lastConfirmedAssertionID { return false; }
      if staker.amountStaked < baseStakeAmount { return false; }
      if stakeAmount > staker.amountStaked - baseStakeAmount { return false; }
      if !paid || balance < stakeAmount { return false; }
      stakers := stakers[sender := staker.(amountStaked := staker.amountStaked - stakeAmount)];
      balance := balance - stakeAmount;
      AppliedSound(before, OpUnstake(sender, stakeAmount, paid), Snapshot());
      ok := true;
    }

    method RemoveStake(stakerAddress: Address, paid: bool) returns (ok: bool)
      requires Valid()
      modifies this
      ensures Valid()
      ensures ok <==> && stakerAddress in old(stakers) && paid
                      && old(stakers)[stakerAddress].assertionID == lastConfirmedAssertionID
      ensures Outcome(old(Snapshot()), Rollup.RemoveStake(old(Snapshot()), stakerAddress, paid), Snapshot(), ok)
    {
      hide Sound;
      ghost var before := Snapshot();
      RemoveStakeExact(Snapshot(), stakerAddress, paid);
      if stakerAddress !in stakers { return false; }
      var staker := stakers[stakerAddress];
      if staker.assertionID > lastConfirmedAssertionID { return false; }
      if !paid || balance < staker.amountStaked || numStakers == 0 { return false; }
      numStakers := numStakers - 1;
      stakers := stakers - {stakerAddress};
      balance := balance - staker.amountStaked;
      AppliedSound(before, OpRemoveStake(stakerAddress, paid), Snapshot());
      ok := true;
    }

    method AdvanceStake(sender: Address, assertionID: Id) returns (ok: bool)
      requires Valid()
      modifies this
      ensures Valid()
      ensures Outcome(old(Snapshot()), Rollup.AdvanceStake(old(Snapshot()), sender, assertionID), Snapshot(), ok)
    {
      hide Sound;
      ghost var before := Snapshot();
      if sender !in stakers { return false; }
      var staker := stakers[sender];
      if assertionID <= staker.assertionID || assertionID > lastCreatedAssertionID { return false; }
      if staker.assertionID != At(assertions, assertionID).parent { return false; }
      StakeOnAssertion(sender, assertionID);
      AppliedSound(before, OpAdvanceStake(sender, assertionID), Snapshot());
      ok := true;
    }

    method Withdraw(sender: Address, paid: bool) returns (ok: bool)
      requires Valid()
      modifies this
      ensures Valid() && (ok <==> paid)
      ensures Outcome(old(Snapshot()), Rollup.Withdraw(old(Snapshot()), sender, paid), Snapshot(), ok)
    {
      hide Sound;
      ghost var before := Snapshot();
      WithdrawExact(Snapshot(), sender, paid);
      var fund := Funds(withdrawableFunds, sender);
      if !paid || balance < fund { return false; }
      withdrawableFunds := withdrawableFunds[sender := 0];
      balance := balance - fund;
      AppliedSound(before, OpWithdraw(sender, paid), Snapshot());
      ok := true;
    }

    method SetBaseStakeAmount(newAmount: nat) returns (ok: bool)
      requires Valid()
      modifies this`baseStakeAmount
      ensures Valid()
      ensures Outcome(old(Snapshot()), Rollup.SetBaseStakeAmount(old(Snapshot()), newAmount), Snapshot(), ok)
    {
      hide Sound;
      ghost var before := Snapshot();
      if lastCreatedAssertionID != lastResolvedAssertionID || newAmount > baseStakeAmount { return false; }
      baseStakeAmount := newAmount;
      AppliedSound(before, OpSetBaseStakeAmount(newAmount), Snapshot());
      ok := true;
    }

    method CreateAssertionHelper(assertionID: Id, stateHash: nat, blockNum: nat, parentID: Id, now: nat)
        returns (ok: bool)
      modifies this`assertions, this`childStateHashes
      ensures Outcome(old(Snapshot()),
                      Rollup.CreateHelper(old(Snapshot()), assertionID, stateHash, blockNum, parentID, now),
                      Snapshot(), ok)
    {
      var parent := At(assertions, parentID);
      var size := if reading.AsWritten? then parent.blockNum else parent.childBlockNum;
      if size == 0 {
        parent := if reading.AsWritten? then parent.(blockNum := blockNum) else parent.(childBlockNum := blockNum);
      } else if blockNum != size {
        return false;
      } else if stateHash in SetAt(childStateHashes, parentID) {
        return false;
      }
      childStateHashes := childStateHashes[parentID := SetAt(childStateHashes, parentID) + {stateHash}];
      assertions := assertions[parentID := parent][assertionID :=
        Assertion(stateHash, blockNum, parentID, now + confirmationPeriod, now, 0, 0)];
      ok := true;
    }

    method CreateAssertion(sender: Address, vmHash: nat, blockNum: nat, now: nat) returns (ok: bool)
      requires Valid()
      modifies this
      ensures Valid()
      ensures Outcome(old(Snapshot()), Rollup.CreateAssertion(old(Snapshot()), sender, vmHash, blockNum, now),
                      Snapshot(), ok)
    {
      hide Sound, Rollup.StakeOn, Rollup.CreateHelper;
      ghost var before := Snapshot();
      if sender !in stakers { return false; }
      var parentID := stakers[sender].assertionID;
      var parent := At(assertions, parentID);
      if now < parent.proposalTime || now - parent.proposalTime < minimumAssertionPeriod { return false; }
      if blockNum <= parent.blockNum { return false; }
      ok := CreateAssertionHelper(lastCreatedAssertionID + 1, vmHash, blockNum, parentID, now);
      if !ok { return; }
      lastCreatedAssertionID := lastCreatedAssertionID + 1;
      StakeOnAssertion(sender, lastCreatedAssertionID);
      AppliedSound(before, OpCreateAssertion(sender, vmHash, blockNum, now), Snapshot());
    }

    /** Valid afterwards if the challenge contract was deployed at a new address. */
    method ChallengeAssertion(defender: Address, challenger: Address, defenderAssertionID: Id,
                              challengerAssertionID: Id, challengeAddr: Address) returns (ok: bool)
      requires Valid()
      modifies this
      ensures challengeAddr != 0 && challengeAddr !in old(challenges) ==> Valid()
      ensures Outcome(old(Snapshot()),
                      Rollup.ChallengeAssertion(old(Snapshot()), defender, challenger,
                                                defenderAssertionID, challengerAssertionID, challengeAddr),
                      Snapshot(), ok)
    {
      hide Sound;
      ghost var before := Snapshot();
      if defenderAssertionID >= challengerAssertionID { return false; }
      if challengerAssertionID > lastCreatedAssertionID { return false; }
      if lastConfirmedAssertionID >= defenderAssertionID { return false; }
      if At(assertions, defenderAssertionID).parent != At(assertions, challengerAssertionID).parent { return false; }
      if defender !in stakers || stakers[defender].currentChallenge != 0 { return false; }
      if challenger !in stakers || stakers[challenger].currentChallenge != 0 { return false; }
      challenges := challenges[challengeAddr := (defender, challenger)];
      stakers := stakers[challenger := stakers[challenger].(currentChallenge := challengeAddr)];
      stakers := stakers[defender := stakers[defender].(currentChallenge := challengeAddr)];
      if challengeAddr != 0 && challengeAddr !in before.challenges {
        AppliedSound(before,
                     OpChallenge(defender, challenger, defenderAssertionID, challengerAssertionID, challengeAddr),
                     Snapshot());
      }
      ok := true;
    }

    /** The loop of `countStakedZombies`. */
    method CountStakedZombies(assertionID: Id) returns (numStakedZombies: nat)
      ensures numStakedZombies == Rollup.CountStakedZombies(Snapshot(), assertionID)
    {
      numStakedZombies := 0;
      var i := 0;
      while i < |zombies|
        invariant 0 <= i <= |zombies|
        invariant numStakedZombies == Rollup.StakedZombies(zombies[..i], SetAt(stakedOn, assertionID))
      {
        if zombies[i].stakerAddress in SetAt(stakedOn, assertionID) {
          numStakedZombies := numStakedZombies + 1;
        }
        assert zombies[..i + 1][..i] == zombies[..i];
        i := i + 1;
      }
      assert zombies[..i] == zombies;
    }

    /** Confirms only what every staker stands on. */
    method ConfirmFirstUnresolvedAssertion(now: nat) returns (ok: bool)
      requires Valid()
      modifies this
      ensures Valid() && (ok ==> AllOn(Snapshot(), lastConfirmedAssertionID))
      ensures Outcome(old(Snapshot()), Rollup.Confirm(old(Snapshot()), now), Snapshot(), ok)
    {
      hide Sound, AllOn;
      ghost var before := Snapshot();
      if lastResolvedAssertionID >= lastCreatedAssertionID { return false; }
      if numStakers <= 0 { return false; }
      var firstUnresolvedID := lastResolvedAssertionID + 1;
      var firstUnresolved := At(assertions, firstUnresolvedID);
      if now < firstUnresolved.deadline { return false; }
      if firstUnresolved.parent != lastConfirmedAssertionID { return false; }
      var count := CountStakedZombies(firstUnresolvedID);
      if firstUnresolved.numStakers != count + numStakers { return false; }
      lastResolvedAssertionID := lastResolvedAssertionID + 1;
      lastConfirmedAssertionID := lastResolvedAssertionID;
      confirmedEvents := confirmedEvents + [lastResolvedAssertionID];
      ConfirmSound(before, now, Snapshot());
      ok := true;
    }

    /** The staker named in the rejection of a child of the last confirmed assertion is neither above
        nor below it. */
    method RejectFirstUnresolvedAssertion(stakerAddress: Address, now: nat) returns (ok: bool)
      requires Valid()
      modifies this
      ensures Valid()
      ensures var a := old(lastResolvedAssertionID) + 1;
              ok && At(old(assertions), a).parent == lastConfirmedAssertionID ==>
                Apart(old(Snapshot()), stakerAddress, a)
      ensures Outcome(old(Snapshot()), Rollup.Reject(old(Snapshot()), stakerAddress, now), Snapshot(), ok)
    {
      ghost var before := Snapshot();
      hide Sound, Apart, Rollup.CountStakedZombies;
      if lastResolvedAssertionID >= lastCreatedAssertionID { return false; }
      var firstUnresolvedID := lastResolvedAssertionID + 1;
      var firstUnresolved := At(assertions, firstUnresolvedID);
      if firstUnresolved.parent == lastConfirmedAssertionID {
        if now < firstUnresolved.deadline { return false; }
        if stakerAddress !in stakers { return false; }
        if stakers[stakerAddress].assertionID < firstUnresolvedID { return false; }
        if stakerAddress in SetAt(stakedOn, firstUnresolvedID) { return false; }
        var count := CountStakedZombies(firstUnresolvedID);
        if firstUnresolved.numStakers != count { return false; }
      }
      lastResolvedAssertionID := lastResolvedAssertionID + 1;
      rejectedEvents := rejectedEvents + {lastResolvedAssertionID};
      assertions := assertions[lastResolvedAssertionID := NO_ASSERTION];
      RejectSound(before, stakerAddress, now, Snapshot());
      ok := true;
    }

    method SettleStakes(winner: Address, loser: Address)
      requires winner in stakers && loser in stakers
      modifies this`stakers, this`withdrawableFunds
      ensures Snapshot() == Rollup.Settle(old(Snapshot()), winner, loser)
    {
      var remainingLoserStake := stakers[loser].amountStaked;
      var winnerStake := stakers[winner].amountStaked;
      if remainingLoserStake > winnerStake {
        stakers := stakers[loser := stakers[loser].(amountStaked := winnerStake)];
        withdrawableFunds := withdrawableFunds[loser := Funds(withdrawableFunds, loser)
                                               + (remainingLoserStake - winnerStake)];
        remainingLoserStake := winnerStake;
      }
      assert stakers == old(stakers)[loser := old(stakers[loser]).(amountStaked := remainingLoserStake)];
      var amountWon := remainingLoserStake / 2;
      stakers := stakers[winner := stakers[winner].(amountStaked := stakers[winner].amountStaked + amountWon,
                                                    currentChallenge := 0)];
      withdrawableFunds := withdrawableFunds[vault := Funds(withdrawableFunds, vault)
                                             + (remainingLoserStake - amountWon)];
    }

    /** Valid afterwards if a challenge contract only reports its own two players. */
    method CompleteChallenge(sender: Address, winner: Address, loser: Address) returns (ok: bool)
      requires Valid()
      modifies this
      ensures Feasible(old(Snapshot()), OpComplete(sender, winner, loser)) ==> Valid()
      ensures ok <==> && winner in old(stakers) && loser in old(stakers) && sender != 0
                      && old(stakers)[winner].currentChallenge == old(stakers)[loser].currentChallenge == sender
      ensures Outcome(old(Snapshot()), Rollup.CompleteChallenge(old(Snapshot()), sender, winner, loser), Snapshot(), ok)
    {
      hide Sound;
      ghost var before := Snapshot();
      CompleteExact(Snapshot(), sender, winner, loser);
      var challenge := if winner in stakers then stakers[winner].currentChallenge else 0;
      if challenge == 0 { return false; }
      if loser !in stakers || challenge != stakers[loser].currentChallenge { return false; }
      if sender != challenge || numStakers == 0 { return false; }
      var assertionID := stakers[loser].assertionID;
      SettleStakes(winner, loser);
      numStakers := numStakers - 1;
      stakers := stakers - {loser};
      zombies := zombies + [Zombie(loser, assertionID)];
      if Feasible(before, OpComplete(sender, winner, loser)) {
        AppliedSound(before, OpComplete(sender, winner, loser), Snapshot());
      }
      ok := true;
    }

    /** The portal's view of the contract: it accepts what was confirmed, and nothing else. */
    method IsAssertionConfirmed(assertionID: Id) returns (r: bool)
      requires Valid()
      ensures r <==> assertionID in confirmedEvents && At(assertions, assertionID).stateHash != 0
    {
      PortalMeans(Snapshot(), assertionID);
      hide Sound;
      if assertionID > lastConfirmedAssertionID { return false; }
      if At(assertions, assertionID).stateHash == 0 { return false; }
      r := true;
    }
  }
}
