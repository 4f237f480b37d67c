/** Solvency of the rollup contract and payouts of challenges, in every run. */
module RollupFunds {
  import opened Wrappers
  import opened Sums
  import opened Rollup
  import opened RollupTree
  import opened RollupResolution

  // ---------- solvency ----------

  ghost function Amounts(stakers: Stakers): map<Address, nat> {
    map x | x in stakers :: stakers[x].amountStaked
  }

  /** All that the contract owes: stakes and withdrawable funds. */
  ghost function Owed(s: State): nat {
    Sum(Amounts(s.stakers)) + Sum(s.withdrawable)
  }

  lemma {:induction false} AmountsUpdate(stakers: Stakers, x: Address, st: Staker)
    ensures Sum(Amounts(stakers[x := st])) + (if x in stakers then stakers[x].amountStaked else 0)
            == Sum(Amounts(stakers)) + st.amountStaked
  {
    assert Amounts(stakers[x := st]) == Amounts(stakers)[x := st.amountStaked];
    SumUpdate(Amounts(stakers), x, st.amountStaked);
  }

  lemma {:induction false} AmountsRemove(stakers: Stakers, x: Address)
    requires x in stakers
    ensures Sum(Amounts(stakers - {x})) + stakers[x].amountStaked == Sum(Amounts(stakers))
  {
    assert Amounts(stakers - {x}) == Amounts(stakers) - {x};
    SumRemove(Amounts(stakers), x);
  }

  lemma {:induction false} AmountsSame(stakers: Stakers, stakers': Stakers)
    requires stakers.Keys == stakers'.Keys
    requires forall x | x in stakers :: stakers'[x].amountStaked == stakers[x].amountStaked
    ensures Amounts(stakers') == Amounts(stakers)
  {
  }

  lemma {:induction false} FundsUpdate(w: map<Address, nat>, x: Address, v: nat)
    ensures Sum(w[x := v]) + Funds(w, x) == Sum(w) + v
  {
    SumUpdate(w, x, v);
  }

  /** What a step adds to the funds that nobody can claim: half the stake of a player who was made
      to challenge itself, and nothing otherwise. */
  function Stranded(s: State, op: Op): nat {
    if op.OpComplete? && op.winner == op.loser && Feasible(s, op) && Apply(s, op).Some?
    then s.stakers[op.loser].amountStaked / 2 else 0
  }

  /** Exact conservation: balance and debts change by the same amount, up to what gets stranded. */
  ghost predicate Conserves(s: State, t: State, stranded: nat) {
    t.balance + Owed(s) == s.balance + Owed(t) + stranded
  }

  lemma {:induction false} StakeOnAmounts(s: State, x: Address, id: Id)
    requires x in s.stakers
    ensures Owed(StakeOn(s, x, id)) == Owed(s) && StakeOn(s, x, id).balance == s.balance
  {
    AmountsSame(s.stakers, StakeOn(s, x, id).stakers);
  }

  lemma {:induction false} StakeConserves(s: State, sender: Address, value: nat)
    requires Stake(s, sender, value).Some?
    ensures Conserves(s, Stake(s, sender, value).value, 0)
  {
    if sender in s.stakers {
      var st := s.stakers[sender];
      AmountsUpdate(s.stakers, sender, st.(amountStaked := st.amountStaked + value));
    } else {
      var u := s.(stakers := s.stakers[sender := Staker(value, 0, 0)], numStakers := s.numStakers + 1,
                  balance := s.balance + value);
      AmountsUpdate(s.stakers, sender, Staker(value, 0, 0));
      StakeOnAmounts(u, sender, s.lastConfirmed);
    }
  }

  lemma {:induction false} CreateConserves(s: State, sender: Address, vmHash: nat, blockNum: nat, now: nat)
    requires CreateAssertion(s, sender, vmHash, blockNum, now).Some?
    ensures Conserves(s, CreateAssertion(s, sender, vmHash, blockNum, now).value, 0)
  {
    hide StakeOn;
    var id := s.lastCreated + 1;
    var u := CreateHelper(s, id, vmHash, blockNum, s.stakers[sender].assertionID, now).value.(lastCreated := id);
    StakeOnAmounts(u, sender, id);
  }

  lemma {:induction false} ChallengeConserves(s: State, d: Address, c: Address, did: Id, cid: Id, challenge: Address)
    requires ChallengeAssertion(s, d, c, did, cid, challenge).Some?
    ensures Conserves(s, ChallengeAssertion(s, d, c, did, cid, challenge).value, 0)
  {
    AmountsSame(s.stakers, ChallengeAssertion(s, d, c, did, cid, challenge).value.stakers);
  }

  lemma {:induction false} SlashAmounts(stakers: Stakers, winner: Address, loser: Address, remaining: nat, won: nat)
    requires winner in stakers && loser in stakers && remaining <= stakers[loser].amountStaked
    ensures var st1 := stakers[loser := stakers[loser].(amountStaked := remaining)];
            var st2 := st1[winner := st1[winner].(amountStaked := st1[winner].amountStaked + won,
                                                  currentChallenge := 0)];
            Sum(Amounts(st2 - {loser})) + stakers[loser].amountStaked
            == Sum(Amounts(stakers)) + if winner == loser then 0 else won
  {
    hide Sum, Amounts;
    var l := stakers[loser].(amountStaked := remaining);
    var st1 := stakers[loser := l];
    var w := st1[winner].(amountStaked := st1[winner].amountStaked + won, currentChallenge := 0);
    AmountsUpdate(stakers, loser, l);
    AmountsUpdate(st1, winner, w);
    AmountsRemove(st1[winner := w], loser);
  }

  lemma {:induction false} CompleteConserves(s: State, sender: Address, winner: Address, loser: Address)
    requires CompleteChallenge(s, sender, winner, loser).Some?
    ensures Conserves(s, CompleteChallenge(s, sender, winner, loser).value,
                      if winner == loser then s.stakers[loser].amountStaked / 2 else 0)
  {
    hide Sum, Amounts;
    var loserStake := s.stakers[loser].amountStaked;
    var winnerStake := s.stakers[winner].amountStaked;
    var remaining := if loserStake > winnerStake then winnerStake else loserStake;
    var won := remaining / 2;
    SlashAmounts(s.stakers, winner, loser, remaining, won);
    FundsUpdate(s.withdrawable, loser, Funds(s.withdrawable, loser) + (loserStake - remaining));
    var w1 := if loserStake > winnerStake then
                s.withdrawable[loser := Funds(s.withdrawable, loser) + (loserStake - winnerStake)]
              else s.withdrawable;
    FundsUpdate(w1, s.vault, Funds(w1, s.vault) + (remaining - won));
  }

  lemma {:induction false} StepConserves(s: State, op: Op)
    ensures Conserves(s, Step(s, op), Stranded(s, op))
  {
    hide Sum, Amounts;
    if Feasible(s, op) && Apply(s, op).Some? {
      match op
      case OpStake(sender, value) => StakeConserves(s, sender, value);
      case OpUnstake(sender, amount, _) =>
        var st := s.stakers[sender];
        AmountsUpdate(s.stakers, sender, st.(amountStaked := st.amountStaked - amount));
      case OpRemoveStake(x, _) => AmountsRemove(s.stakers, x);
      case OpAdvanceStake(sender, id) => StakeOnAmounts(s, sender, id);
      case OpWithdraw(sender, _) => FundsUpdate(s.withdrawable, sender, 0);
      case OpCreateAssertion(sender, vmHash, blockNum, now) => CreateConserves(s, sender, vmHash, blockNum, now);
      case OpChallenge(d, c, did, cid, challenge) => ChallengeConserves(s, d, c, did, cid, challenge);
      case OpComplete(sender, winner, loser) => CompleteConserves(s, sender, winner, loser);
      case _ =>
    }
  }

  /** Total stranded over a run. */
  function TotalStranded(s: State, ops: seq<Op>): nat {
    if ops == [] then 0
    else
      var front := ops[..|ops| - 1];
      TotalStranded(s, front) + Stranded(Run(s, front), ops[|ops| - 1])
  }

  /** In every run: the contract's balance is what it owes plus what got stranded in challenges of
      a player against itself. So it is always solvent, and exactly so when no such challenge ends. */
  lemma {:induction false} Solvent(s0: State, ops: seq<Op>)
    requires Initial(s0)
    ensures Run(s0, ops).balance == Owed(Run(s0, ops)) + TotalStranded(s0, ops)
  {
    if ops == [] {
      assert Amounts(s0.stakers) == map[];
    } else {
      hide Initial, Owed, Step, Stranded;
      var front := ops[..|ops| - 1];
      Solvent(s0, front);
      StepConserves(Run(s0, front), ops[|ops| - 1]);
    }
  }

  /** Every staker holds at least the base stake, so the subtraction in `unstake` never underflows. */
  ghost predicate Collateralized(s: State) {
    forall x | x in s.stakers :: s.stakers[x].amountStaked >= s.baseStakeAmount
  }

  lemma {:induction false} StepCollateralized(s: State, op: Op)
    requires Collateralized(s)
    ensures Collateralized(Step(s, op))
  {
    hide Confirmable, Rejectable, Stake, CreateAssertion, CompleteChallenge;
    if Feasible(s, op) && Apply(s, op).Some? {
      match op
      case OpStake(x, value) => StakeCollateralized(s, x, value);
      case OpCreateAssertion(x, vmHash, blockNum, now) => CreateCollateralized(s, x, vmHash, blockNum, now);
      case OpComplete(sender, winner, loser) => CompleteCollateralized(s, sender, winner, loser);
      case _ =>
    }
  }

  lemma {:induction false} StakeCollateralized(s: State, x: Address, value: nat)
    requires Collateralized(s) && Stake(s, x, value).Some?
    ensures Collateralized(Stake(s, x, value).value)
  {
  }

  lemma {:induction false} CreateCollateralized(s: State, x: Address, vmHash: nat, blockNum: nat, now: nat)
    requires Collateralized(s) && CreateAssertion(s, x, vmHash, blockNum, now).Some?
    ensures Collateralized(CreateAssertion(s, x, vmHash, blockNum, now).value)
  {
  }

  lemma {:induction false} CompleteCollateralized(s: State, sender: Address, winner: Address, loser: Address)
    requires Collateralized(s) && CompleteChallenge(s, sender, winner, loser).Some?
    ensures Collateralized(CompleteChallenge(s, sender, winner, loser).value)
  {
  }

  lemma {:induction false} AlwaysCollateralized(s0: State, ops: seq<Op>)
    requires Initial(s0)
    ensures Collateralized(Run(s0, ops))
  {
    if ops != [] {
      hide Step, Collateralized, Initial;
      AlwaysCollateralized(s0, ops[..|ops| - 1]);
      StepCollateralized(Run(s0, ops[..|ops| - 1]), ops[|ops| - 1]);
    }
  }

  // ---------- payouts ----------

  /** Whoever is in a challenge is one of the two players of a deployed challenge contract. */
  ghost predicate Enrolled(s: State) {
    && 0 !in s.challenges
    && forall x | x in s.stakers && s.stakers[x].currentChallenge != 0 ::
         var c := s.stakers[x].currentChallenge;
         c in s.challenges && (s.challenges[c].0 == x || s.challenges[c].1 == x)
  }

  /** A challenge that nobody is in any more. */
  ghost predicate Over(s: State, c: Address) {
    c in s.challenges && forall x | x in s.stakers :: s.stakers[x].currentChallenge != c
  }

  lemma {:induction false} ChallengeEnrolled(s: State, d: Address, c: Address, did: Id, cid: Id, challenge: Address)
    requires Enrolled(s) && challenge != 0 && challenge !in s.challenges
    requires ChallengeAssertion(s, d, c, did, cid, challenge).Some?
    ensures Enrolled(ChallengeAssertion(s, d, c, did, cid, challenge).value)
  {
  }

  lemma {:induction false} CompleteEnrolled(s: State, sender: Address, winner: Address, loser: Address)
    requires Enrolled(s) && CompleteChallenge(s, sender, winner, loser).Some?
    ensures Enrolled(CompleteChallenge(s, sender, winner, loser).value)
  {
  }

  /** All other calls: nobody gets into a challenge. */
  lemma {:induction false} OthersEnrolled(s: State, t: State)
    requires Enrolled(s) && t.challenges == s.challenges
    requires forall x | x in t.stakers ::
               || t.stakers[x].currentChallenge == 0
               || (x in s.stakers && t.stakers[x].currentChallenge == s.stakers[x].currentChallenge)
    ensures Enrolled(t)
  {
  }

  lemma {:induction false} StakeEnrolled(s: State, x: Address, value: nat)
    requires Enrolled(s) && Stake(s, x, value).Some?
    ensures Enrolled(Stake(s, x, value).value)
  {
    OthersEnrolled(s, Stake(s, x, value).value);
  }

  lemma {:induction false} CreateEnrolled(s: State, x: Address, vmHash: nat, blockNum: nat, now: nat)
    requires Enrolled(s) && CreateAssertion(s, x, vmHash, blockNum, now).Some?
    ensures Enrolled(CreateAssertion(s, x, vmHash, blockNum, now).value)
  {
    OthersEnrolled(s, CreateAssertion(s, x, vmHash, blockNum, now).value);
  }

  lemma {:induction false} StepEnrolled(s: State, op: Op)
    requires Enrolled(s)
    ensures Enrolled(Step(s, op))
  {
    hide Enrolled, Confirmable, Rejectable, Stake, CreateAssertion, ChallengeAssertion, CompleteChallenge;
    if Feasible(s, op) && Apply(s, op).Some? {
      match op
      case OpStake(x, value) => StakeEnrolled(s, x, value);
      case OpCreateAssertion(x, vmHash, blockNum, now) => CreateEnrolled(s, x, vmHash, blockNum, now);
      case OpChallenge(d, c, did, cid, challenge) => ChallengeEnrolled(s, d, c, did, cid, challenge);
      case OpComplete(sender, winner, loser) => CompleteEnrolled(s, sender, winner, loser);
      case _ => OthersEnrolled(s, Step(s, op));
    }
  }

  lemma {:induction false} RunEnrolled(s0: State, ops: seq<Op>)
    requires Initial(s0)
    ensures Enrolled(Run(s0, ops))
  {
    if ops != [] {
      hide Step, Enrolled, Initial;
      RunEnrolled(s0, ops[..|ops| - 1]);
      StepEnrolled(Run(s0, ops[..|ops| - 1]), ops[|ops| - 1]);
    }
  }

  lemma {:induction false} EnrolledNonZero(s: State)
    requires Enrolled(s)
    ensures 0 !in s.challenges
  {
  }

  lemma {:induction false} StepOver(s: State, op: Op, c: Address)
    requires Over(s, c) && 0 !in s.challenges
    ensures Over(Step(s, op), c)
  {
  }

  ghost predicate Pays(s: State, op: Op) {
    op.OpComplete? && Feasible(s, op) && Apply(s, op).Some?
  }

  lemma {:induction false} PayoutEnds(s: State, op: Op)
    requires Enrolled(s) && Pays(s, op)
    ensures Over(Step(s, op), op.sender) && !Over(s, op.sender)
  {
  }

  lemma {:induction false} RunOver(s0: State, ops: seq<Op>, more: seq<Op>, c: Address)
    requires Initial(s0) && Over(Run(s0, ops), c)
    ensures Over(Run(s0, ops + more), c)
    decreases |more|
  {
    hide Step, Over, Initial;
    if more == [] {
      assert ops + more == ops;
    } else {
      var front := more[..|more| - 1];
      var all := ops + more;
      assert all[..|all| - 1] == ops + front && all[|all| - 1] == more[|more| - 1];
      RunOver(s0, ops, front, c);
      RunEnrolled(s0, ops + front);
      EnrolledNonZero(Run(s0, ops + front));
      StepOver(Run(s0, ops + front), more[|more| - 1], c);
    }
  }

  /** In every run: a challenge pays out at most once. */
  lemma {:induction false} PaysOnce(s0: State, ops: seq<Op>, i: nat, j: nat)
    requires Initial(s0) && i < j < |ops|
    requires Pays(Run(s0, ops[..i]), ops[i]) && Pays(Run(s0, ops[..j]), ops[j])
    ensures ops[i].sender != ops[j].sender
  {
    hide Step, Over, Enrolled, Initial;
    var c := ops[i].sender;
    RunEnrolled(s0, ops[..i]);
    PayoutEnds(Run(s0, ops[..i]), ops[i]);
    assert ops[..i + 1][..i] == ops[..i];
    assert ops[..j] == ops[..i + 1] + ops[i + 1..j];
    RunOver(s0, ops[..i + 1], ops[i + 1..j], c);
    RunEnrolled(s0, ops[..j]);
    PayoutEnds(Run(s0, ops[..j]), ops[j]);
  }
}
