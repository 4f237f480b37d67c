/** Everything that holds of the rollup contract between calls, and what it guarantees to callers. */
module RollupSound {
  import opened Wrappers
  import opened Sums
  import opened Rollup
  import opened RollupTree
  import opened RollupResolution
  import opened RollupChain
  import opened RollupFunds
  import opened RollupStanding

  /** The tree is counted, the confirmed assertions are a chain and nobody is behind it, stakes cover
      the base amount, every challenge is a deployed one, and the balance covers all debts. */
  ghost predicate Sound(s: State) {
    TreeInv(s) && ChainInv(s) && UpToDate(s) && Collateralized(s) && Enrolled(s) && Owed(s) <= s.balance
  }

  lemma {:induction false} InitialSound(s: State)
    requires Initial(s)
    ensures Sound(s)
  {
    assert Run(s, []) == s;
    RunChain(s, []);
    RunUpToDate(s, []);
    AlwaysCollateralized(s, []);
    RunEnrolled(s, []);
    Solvent(s, []);
  }

  lemma {:induction false} StepSound(s: State, op: Op)
    requires Sound(s)
    ensures Sound(Step(s, op))
  {
    hide Step, TreeInv, ChainInv, UpToDate, Collateralized, Enrolled, Owed;
    StepTree(s, op);
    StepChain(s, op);
    StepUpToDate(s, op);
    StepCollateralized(s, op);
    StepEnrolled(s, op);
    StepConserves(s, op);
  }

  lemma {:induction false} AppliedSound(s: State, op: Op, t: State)
    requires Sound(s) && Feasible(s, op) && Apply(s, op) == Some(t)
    ensures Sound(t)
  {
    hide Sound;
    StepSound(s, op);
  }

  // ---------- nobody is kept from their money ----------

  /** A withdrawal fails only if the recipient refuses it. */
  lemma {:induction false} WithdrawExact(s: State, x: Address, paid: bool)
    requires Sound(s)
    ensures Withdraw(s, x, paid).Some? <==> paid
  {
    hide TreeInv, ChainInv;
    if x in s.withdrawable {
      SumRemove(s.withdrawable, x);
    }
  }

  lemma {:induction false} StakeCovered(s: State, x: Address)
    requires Sound(s) && x in s.stakers
    ensures s.stakers[x].amountStaked <= s.balance && s.baseStakeAmount <= s.stakers[x].amountStaked
  {
    hide TreeInv, ChainInv;
    AmountsRemove(s.stakers, x);
  }

  /** A stake can be removed exactly when it is on the last confirmed assertion and its owner takes it: the
      balance suffices and the counter does not underflow. */
  lemma {:induction false} RemoveStakeExact(s: State, x: Address, paid: bool)
    requires Sound(s)
    ensures RemoveStake(s, x, paid).Some? <==> x in s.stakers && s.stakers[x].assertionID == s.lastConfirmed && paid
  {
    if x in s.stakers {
      StakeCovered(s, x);
      assert |s.stakers| > 0;
    }
  }

  /** Any part of a stake beyond the base amount can be taken out of the last confirmed assertion: the
      subtraction never underflows and the balance suffices. */
  lemma {:induction false} UnstakeExact(s: State, x: Address, amount: nat, paid: bool)
    requires Sound(s)
    ensures Unstake(s, x, amount, paid).Some? <==>
            && x in s.stakers && s.stakers[x].assertionID == s.lastConfirmed
            && amount + s.baseStakeAmount <= s.stakers[x].amountStaked && paid
  {
    if x in s.stakers {
      StakeCovered(s, x);
    }
  }

  /** A challenge contract can report its result exactly as long as both players are still in it: a
      player who is on the last confirmed assertion may have left. */
  lemma {:induction false} CompleteExact(s: State, sender: Address, winner: Address, loser: Address)
    requires Sound(s)
    ensures CompleteChallenge(s, sender, winner, loser).Some? <==>
            && winner in s.stakers && loser in s.stakers && sender != 0
            && s.stakers[winner].currentChallenge == s.stakers[loser].currentChallenge == sender
  {
    if winner in s.stakers {
      assert |s.stakers| > 0;
    }
  }

  // ---------- what resolution means ----------

  /** Everyone who is staked stands on the confirmed assertion or below it. */
  ghost predicate AllOn(s: State, a: Id) {
    forall x | x in s.stakers :: x in SetAt(s.stakedOn, a) && Below(s.assertions, s.stakers[x].assertionID, a)
  }

  lemma {:induction false} ConfirmMeans(s: State, now: nat)
    requires Sound(s) && Confirmable(s, now)
    ensures AllOn(s, s.lastResolved + 1)
  {
    hide Confirmable, TreeInv, Below;
    forall x | x in s.stakers
      ensures x in SetAt(s.stakedOn, s.lastResolved + 1)
      ensures Below(s.assertions, s.stakers[x].assertionID, s.lastResolved + 1)
    {
      ConfirmableStanding(s, now, x);
    }
  }

  /** The staker is neither above `a` nor below it. */
  ghost predicate Apart(s: State, staker: Address, a: Id) {
    && staker in s.stakers
    && !Below(s.assertions, s.stakers[staker].assertionID, a)
    && !Below(s.assertions, a, s.stakers[staker].assertionID)
  }

  lemma {:induction false} RejectMeans(s: State, staker: Address, now: nat)
    requires Sound(s) && Rejectable(s, staker, now) && At(s.assertions, s.lastResolved + 1).parent == s.lastConfirmed
    ensures Apart(s, staker, s.lastResolved + 1)
  {
    RejectableApart(s, staker, now);
  }

  lemma {:induction false} RejectSound(s: State, staker: Address, now: nat, t: State)
    requires Sound(s) && Reject(s, staker, now) == Some(t)
    ensures Sound(t)
    ensures At(s.assertions, s.lastResolved + 1).parent == s.lastConfirmed ==> Apart(s, staker, s.lastResolved + 1)
  {
    hide Sound, Apart;
    AppliedSound(s, OpReject(staker, now), t);
    if At(s.assertions, s.lastResolved + 1).parent == s.lastConfirmed {
      RejectMeans(s, staker, now);
    }
  }

  lemma {:induction false} ConfirmSound(s: State, now: nat, t: State)
    requires Sound(s) && Confirm(s, now) == Some(t)
    ensures Sound(t) && AllOn(t, t.lastConfirmed)
  {
    hide Sound;
    AppliedSound(s, OpConfirm(now), t);
    ConfirmMeans(s, now);
  }

  /** The portal's test, on any sound state. */
  lemma {:induction false} PortalMeans(s: State, id: Id)
    requires Sound(s)
    ensures PortalAccepts(s, id) <==> id in s.confirmed && At(s.assertions, id).stateHash != 0
  {
    hide Counted, Owed;
    if id in s.confirmed {
      ConfirmedBelow(s, id);
    }
  }
}
