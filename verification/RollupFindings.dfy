/** Where the contract falls short of its documentation, and of what stakers may expect. */
module RollupFindings {
  import opened Wrappers
  import opened Rollup
  import opened RollupTree
  import opened RollupResolution
  import opened RollupChain
  import opened RollupFunds

  // ---------- createAssertionHelper as written ----------

  /** At most one assertion after the initial one, and then neither can have children; and none at all
      if the initial one has a block number. */
  ghost predicate Stuck(s: State, first: Id, blockNum: nat) {
    && s.reading.AsWritten?
    && s.confirmed != [] && s.confirmed[0] == first
    && (|| (s.lastCreated == first && At(s.assertions, first).blockNum == blockNum)
        || (&& blockNum == 0 && s.lastCreated == first + 1
            && At(s.assertions, first).blockNum != 0 && At(s.assertions, first + 1).blockNum != 0
            && At(s.assertions, first + 1).parent == first))
  }

  lemma {:induction false} LonelyNotRejectable(s: State, first: Id, b: nat, staker: Address, now: nat)
    requires TreeInv(s) && ChainInv(s) && Stuck(s, first, b)
    ensures !Rejectable(s, staker, now)
  {
    ChainBounds(s.assertions, s.confirmed, 0, |s.confirmed| - 1);
    if s.lastResolved < s.lastCreated && staker in s.stakers && s.stakers[staker].assertionID > first {
      assert Counted(s, first + 1);
      assert staker in Standing(s.assertions, s.stakers, first + 1);
    }
  }

  lemma {:induction false} CreateStuck(s: State, first: Id, b: nat, sender: Address, vmHash: nat, blockNum: nat,
                                       now: nat)
    requires Bounds(s) && ChainInv(s) && Stuck(s, first, b) && CreateAssertion(s, sender, vmHash, blockNum, now).Some?
    ensures Stuck(CreateAssertion(s, sender, vmHash, blockNum, now).value, first, b)
  {
    var p := s.stakers[sender].assertionID;
    assert first <= p <= s.lastCreated;
    assert p == first && s.lastCreated == first && b == 0;
  }

  lemma {:induction false} SameStuck(s: State, t: State, first: Id, b: nat)
    requires Stuck(s, first, b) && t.reading == s.reading && s.confirmed <= t.confirmed
             && t.lastCreated == s.lastCreated
    requires forall id: Id :: At(t.assertions, id).blockNum == At(s.assertions, id).blockNum
                             && At(t.assertions, id).parent == At(s.assertions, id).parent
    ensures Stuck(t, first, b)
  {
  }

  lemma {:induction false} StakeOnStuck(s: State, x: Address, id: Id, first: Id, b: nat)
    requires x in s.stakers && Stuck(s, first, b)
    ensures Stuck(StakeOn(s, x, id), first, b)
  {
    SameStuck(s, StakeOn(s, x, id), first, b);
  }

  lemma {:induction false} StakeStuck(s: State, x: Address, value: nat, first: Id, b: nat)
    requires Stuck(s, first, b) && Stake(s, x, value).Some?
    ensures Stuck(Stake(s, x, value).value, first, b)
  {
    hide Stuck, StakeOn;
    if x in s.stakers {
      SameStuck(s, Stake(s, x, value).value, first, b);
    } else {
      var u := s.(stakers := s.stakers[x := Staker(value, 0, 0)], numStakers := s.numStakers + 1,
                  balance := s.balance + value);
      SameStuck(s, u, first, b);
      StakeOnStuck(u, x, s.lastConfirmed, first, b);
    }
  }

  lemma {:induction false} StepStuck(s: State, first: Id, b: nat, op: Op)
    requires TreeInv(s) && ChainInv(s) && Stuck(s, first, b)
    ensures Stuck(Step(s, op), first, b)
  {
    hide TreeInv, ChainInv, Stuck, Confirmable, Rejectable, StakeOn, Stake, CreateAssertion;
    if Feasible(s, op) && Apply(s, op).Some? {
      match op
      case OpCreateAssertion(sender, vmHash, blockNum, now) =>
        TreeBounds(s);
        CreateStuck(s, first, b, sender, vmHash, blockNum, now);
      case OpReject(staker, now) => LonelyNotRejectable(s, first, b, staker, now);
      case OpStake(x, value) => StakeStuck(s, x, value, first, b);
      case OpAdvanceStake(x, id) => StakeOnStuck(s, x, id, first, b);
      case _ => SameStuck(s, Step(s, op), first, b);
    }
  }

  lemma {:induction false} TreeBounds(s: State)
    requires TreeInv(s)
    ensures Bounds(s)
  {
  }

  function InitialBlock(s0: State): nat { At(s0.assertions, s0.lastCreated).blockNum }

  /** Read as written, `createAssertionHelper` admits at most one assertion in a contract's life, and none
      if the initial assertion has a block number: a parent whose `blockNum` is set never gets a child,
      and every child has it set. */
  lemma {:induction false} AsWrittenAtMostOne(s0: State, ops: seq<Op>)
    requires Initial(s0) && s0.reading.AsWritten?
    ensures Run(s0, ops).lastCreated <= s0.lastCreated + if InitialBlock(s0) == 0 then 1 else 0
    ensures Stuck(Run(s0, ops), s0.lastCreated, InitialBlock(s0))
  {
    if ops != [] {
      hide Initial;
      var front := ops[..|ops| - 1];
      AsWrittenAtMostOne(s0, front);
      RunChain(s0, front);
      StepStuck(Run(s0, front), s0.lastCreated, InitialBlock(s0), ops[|ops| - 1]);
    }
  }

  /** The one assertion is possible exactly if the initial block number is 0. */
  lemma {:induction false} AsWrittenExact(s0: State)
    requires Initial(s0) && s0.reading.AsWritten?
    ensures (exists ops :: Run(s0, ops).lastCreated > s0.lastCreated) <==> InitialBlock(s0) == 0
  {
    if InitialBlock(s0) == 0 {
      AsWrittenFirst(s0);
    }
    forall ops | Run(s0, ops).lastCreated > s0.lastCreated ensures InitialBlock(s0) == 0 {
      AsWrittenAtMostOne(s0, ops);
    }
  }

  /** Stake, then propose block 1 as soon as the minimum period is over. */
  lemma {:induction false} AsWrittenFirst(s0: State)
    requires Initial(s0) && s0.reading.AsWritten? && InitialBlock(s0) == 0
    ensures exists ops :: Run(s0, ops).lastCreated > s0.lastCreated
  {
    var now := At(s0.assertions, s0.lastCreated).proposalTime + s0.minimumAssertionPeriod;
    var stake, create := OpStake(1, s0.baseStakeAmount), OpCreateAssertion(1, 0, 1, now);
    assert [] + [stake] == [stake] && [stake] + [create] == [stake, create];
    RunSnoc(s0, [], stake);
    RunSnoc(s0, [stake], create);
    assert Run(s0, []) == s0;
    FirstCreated(s0, Step(s0, stake), now);
  }

  lemma {:induction false} FirstCreated(s0: State, s: State, now: nat)
    requires Initial(s0) && s0.reading.AsWritten? && InitialBlock(s0) == 0
             && s == Step(s0, OpStake(1, s0.baseStakeAmount))
    requires now == At(s0.assertions, s0.lastCreated).proposalTime + s0.minimumAssertionPeriod
    ensures Step(s, OpCreateAssertion(1, 0, 1, now)).lastCreated == s0.lastCreated + 1
  {
    StakeShape(s0, 1, s0.baseStakeAmount);
    hide Stake, Initial;
    assert s.stakers[1].assertionID == s0.lastCreated;
    assert At(s.assertions, s0.lastCreated).blockNum == 0;
  }

  // ---------- a slashed address that stakes again ----------

  const START := Initialize(AsDocumented, 9, 0, 0, 10, 0, 0, 7, 0)

  /** Addresses 1, 2 and 3 stake; 2 and 3 put up siblings 1 and 2; address 1 loses a challenge,
      stakes again and joins assertion 1; address 2 loses a challenge. */
  const RESTAKE: seq<Op> := [
    OpStake(1, 10), OpStake(2, 10), OpStake(3, 10),
    OpCreateAssertion(2, 5, 1, 0), OpCreateAssertion(3, 6, 1, 0),
    OpChallenge(1, 3, 1, 2, 100), OpComplete(100, 3, 1),
    OpStake(1, 10), OpAdvanceStake(1, 1),
    OpChallenge(2, 3, 1, 2, 101), OpComplete(101, 3, 2)]

  lemma {:induction false} RunSnoc(s: State, ops: seq<Op>, op: Op)
    ensures Run(s, ops + [op]) == Step(Run(s, ops), op)
  {
    assert (ops + [op])[..|ops|] == ops;
  }

  ghost function After(n: nat): State
    requires n <= |RESTAKE|
  {
    Run(START, RESTAKE[..n])
  }

  lemma {:induction false} AfterStep(n: nat)
    requires n < |RESTAKE|
    ensures After(n + 1) == Step(After(n), RESTAKE[n])
  {
    assert RESTAKE[..n + 1] == RESTAKE[..n] + [RESTAKE[n]];
    RunSnoc(START, RESTAKE[..n], RESTAKE[n]);
  }

  /** A state in which nothing has been resolved yet. */
  function Scene(lastCreated: Id, assertions: Assertions, stakedOn: map<Id, set<Address>>,
                 childHashes: map<Id, set<nat>>, stakers: Stakers, numStakers: nat, withdrawable: map<Address, nat>,
                 zombies: seq<Zombie>, balance: nat, challenges: map<Address, (Address, Address)>): State {
    State(AsDocumented, 9, 10, 0, 0, 0, 0, lastCreated, assertions, stakedOn, childHashes, stakers, numStakers,
          withdrawable, zombies, balance, challenges, [0], {})
  }

  /** Two stakers on the initial assertion. */
  const PAIR := Scene(0, map[0 := Assertion(7, 0, 0, 0, 0, 2, 0)],
    map[0 := {1, 2}], map[0 := {7}], map[1 := Staker(10, 0, 0), 2 := Staker(10, 0, 0)], 2,
    map[], [], 20, map[])

  /** Three stakers on the initial assertion. */
  const STAKED := Scene(0, map[0 := Assertion(7, 0, 0, 0, 0, 3, 0)],
    map[0 := {1, 2, 3}], map[0 := {7}], map[1 := Staker(10, 0, 0), 2 := Staker(10, 0, 0), 3 := Staker(10, 0, 0)], 3,
    map[], [], 30, map[])

  /** A first assertion, by address 2. */
  const PROPOSED := Scene(1, map[0 := Assertion(7, 0, 0, 0, 0, 3, 1), 1 := Assertion(5, 1, 0, 0, 0, 1, 0)],
    map[0 := {1, 2, 3}, 1 := {2}], map[0 := {7, 5}],
    map[1 := Staker(10, 0, 0), 2 := Staker(10, 1, 0), 3 := Staker(10, 0, 0)], 3,
    map[], [], 30, map[])

  /** A sibling of it, by address 3. */
  const FORKED := Scene(2,
    map[0 := Assertion(7, 0, 0, 0, 0, 3, 1), 1 := Assertion(5, 1, 0, 0, 0, 1, 0), 2 := Assertion(6, 1, 0, 0, 0, 1, 0)],
    map[0 := {1, 2, 3}, 1 := {2}, 2 := {3}], map[0 := {7, 5, 6}],
    map[1 := Staker(10, 0, 0), 2 := Staker(10, 1, 0), 3 := Staker(10, 2, 0)], 3,
    map[], [], 30, map[])

  /** Addresses 1 and 3 are in a challenge. */
  const CHALLENGED := Scene(2,
    map[0 := Assertion(7, 0, 0, 0, 0, 3, 1), 1 := Assertion(5, 1, 0, 0, 0, 1, 0), 2 := Assertion(6, 1, 0, 0, 0, 1, 0)],
    map[0 := {1, 2, 3}, 1 := {2}, 2 := {3}], map[0 := {7, 5, 6}],
    map[1 := Staker(10, 0, 100), 2 := Staker(10, 1, 0), 3 := Staker(10, 2, 100)], 3,
    map[], [], 30, map[100 := (1, 3)])

  /** Address 1 has been slashed. */
  const SLASHED := Scene(2,
    map[0 := Assertion(7, 0, 0, 0, 0, 3, 1), 1 := Assertion(5, 1, 0, 0, 0, 1, 0), 2 := Assertion(6, 1, 0, 0, 0, 1, 0)],
    map[0 := {1, 2, 3}, 1 := {2}, 2 := {3}], map[0 := {7, 5, 6}], map[2 := Staker(10, 1, 0), 3 := Staker(15, 2, 0)], 2,
    map[9 := 5], [Zombie(1, 0)], 30, map[100 := (1, 3)])

  /** Address 1 is back. */
  const RESTAKED := Scene(2,
    map[0 := Assertion(7, 0, 0, 0, 0, 4, 1), 1 := Assertion(5, 1, 0, 0, 0, 1, 0), 2 := Assertion(6, 1, 0, 0, 0, 1, 0)],
    map[0 := {1, 2, 3}, 1 := {2}, 2 := {3}], map[0 := {7, 5, 6}],
    map[1 := Staker(10, 0, 0), 2 := Staker(10, 1, 0), 3 := Staker(15, 2, 0)], 3,
    map[9 := 5], [Zombie(1, 0)], 40, map[100 := (1, 3)])

  /** Address 1 joins assertion 1. */
  const BACK := Scene(2,
    map[0 := Assertion(7, 0, 0, 0, 0, 4, 1), 1 := Assertion(5, 1, 0, 0, 0, 2, 0), 2 := Assertion(6, 1, 0, 0, 0, 1, 0)],
    map[0 := {1, 2, 3}, 1 := {1, 2}, 2 := {3}], map[0 := {7, 5, 6}],
    map[1 := Staker(10, 1, 0), 2 := Staker(10, 1, 0), 3 := Staker(15, 2, 0)], 3,
    map[9 := 5], [Zombie(1, 0)], 40, map[100 := (1, 3)])

  /** Addresses 2 and 3 are in a challenge. */
  const RECHALLENGED := Scene(2,
    map[0 := Assertion(7, 0, 0, 0, 0, 4, 1), 1 := Assertion(5, 1, 0, 0, 0, 2, 0), 2 := Assertion(6, 1, 0, 0, 0, 1, 0)],
    map[0 := {1, 2, 3}, 1 := {1, 2}, 2 := {3}], map[0 := {7, 5, 6}],
    map[1 := Staker(10, 1, 0), 2 := Staker(10, 1, 101), 3 := Staker(15, 2, 101)], 3,
    map[9 := 5], [Zombie(1, 0)], 40, map[100 := (1, 3), 101 := (2, 3)])

  /** Address 2 has been slashed as well. */
  const ALONE := Scene(2,
    map[0 := Assertion(7, 0, 0, 0, 0, 4, 1), 1 := Assertion(5, 1, 0, 0, 0, 2, 0), 2 := Assertion(6, 1, 0, 0, 0, 1, 0)],
    map[0 := {1, 2, 3}, 1 := {1, 2}, 2 := {3}], map[0 := {7, 5, 6}], map[1 := Staker(10, 1, 0), 3 := Staker(20, 2, 0)],
    2,
    map[9 := 10], [Zombie(1, 0), Zombie(2, 1)], 40, map[100 := (1, 3), 101 := (2, 3)])

  lemma {:induction false} Same(s: State, t: State)
    requires s.(assertions := t.assertions, stakedOn := t.stakedOn, childHashes := t.childHashes,
                stakers := t.stakers, withdrawable := t.withdrawable, challenges := t.challenges) == t
    requires s.assertions == t.assertions && s.stakedOn == t.stakedOn && s.childHashes == t.childHashes
    requires s.stakers == t.stakers && s.withdrawable == t.withdrawable && s.challenges == t.challenges
    ensures s == t
  {
  }

  lemma {:induction false} ReachPair()
    ensures After(2) == PAIR
  {
    hide AdvanceStake, CreateAssertion, ChallengeAssertion, CompleteChallenge;
    assert RESTAKE[..0] == [];
    AfterStep(0);
    AfterStep(1);
    assert After(2).stakedOn[0] == {1, 2};
    Same(After(2), PAIR);
  }

  lemma {:induction false} ReachStaked()
    ensures After(3) == STAKED
  {
    hide Run, After, AdvanceStake, CreateAssertion, ChallengeAssertion, CompleteChallenge;
    ReachPair();
    AfterStep(2);
    assert After(3).stakedOn[0] == {1, 2, 3};
    Same(After(3), STAKED);
  }

  lemma {:induction false} ReachProposed()
    ensures After(4) == PROPOSED
  {
    hide Run, After, AdvanceStake, ChallengeAssertion, CompleteChallenge, Stake;
    ReachStaked();
    AfterStep(3);
    assert After(4).stakedOn[1] == {2} && After(4).childHashes[0] == {7, 5};
    Same(After(4), PROPOSED);
  }

  lemma {:induction false} ReachForked()
    ensures After(5) == FORKED
  {
    hide Run, After, AdvanceStake, ChallengeAssertion, CompleteChallenge, Stake;
    ReachProposed();
    AfterStep(4);
    assert After(5).stakedOn[2] == {3} && After(5).childHashes[0] == {7, 5, 6};
    Same(After(5), FORKED);
  }

  lemma {:induction false} ReachChallenged()
    ensures After(6) == CHALLENGED
  {
    hide Run, After, AdvanceStake, ChallengeAssertion, CompleteChallenge, CreateAssertion, Stake;
    ReachForked();
    AfterStep(5);
    ComputeChallenged();
  }

  lemma {:induction false} ComputeChallenged()
    ensures ChallengeAssertion(FORKED, 1, 3, 1, 2, 100) == Some(CHALLENGED)
  {
    assert FORKED.stakers[3 := Staker(10, 2, 100)][1 := Staker(10, 0, 100)] == CHALLENGED.stakers;
    Same(ChallengeAssertion(FORKED, 1, 3, 1, 2, 100).value, CHALLENGED);
  }

  lemma {:induction false} ComputeSlashed()
    ensures CompleteChallenge(CHALLENGED, 100, 3, 1) == Some(SLASHED)
  {
    Same(CompleteChallenge(CHALLENGED, 100, 3, 1).value, SLASHED);
  }

  lemma {:induction false} ReachSlashed()
    ensures After(7) == SLASHED
  {
    hide Run, After, AdvanceStake, ChallengeAssertion, CompleteChallenge, CreateAssertion, Stake;
    ReachChallenged();
    AfterStep(6);
    ComputeSlashed();
  }

  lemma {:induction false} ComputeRestaked()
    ensures Stake(SLASHED, 1, 10) == Some(RESTAKED)
  {
    assert Stake(SLASHED, 1, 10).Some?;
    StakeShape(SLASHED, 1, 10);
    hide Stake;
    RestakedMaps();
    Same(Stake(SLASHED, 1, 10).value, RESTAKED);
  }

  lemma {:induction false} RestakedMaps()
    ensures SLASHED.stakers[1 := Staker(10, 0, 0)] == RESTAKED.stakers
    ensures SLASHED.assertions[0 := Assertion(7, 0, 0, 0, 0, 4, 1)] == RESTAKED.assertions
    ensures SetAt(SLASHED.stakedOn, 0) + {1} == {1, 2, 3}
    ensures SLASHED.stakedOn[0 := {1, 2, 3}] == RESTAKED.stakedOn
  {
  }

  lemma {:induction false} ReachRestaked()
    ensures After(8) == RESTAKED
  {
    hide Run, After, AdvanceStake, ChallengeAssertion, CompleteChallenge, CreateAssertion, Stake;
    ReachSlashed();
    AfterStep(7);
    ComputeRestaked();
  }

  lemma {:induction false} ComputeBack()
    ensures AdvanceStake(RESTAKED, 1, 1) == Some(BACK)
  {
    assert AdvanceStake(RESTAKED, 1, 1).value.stakedOn[1] == {1, 2};
    Same(AdvanceStake(RESTAKED, 1, 1).value, BACK);
  }

  lemma {:induction false} ReachBack()
    ensures After(9) == BACK
  {
    hide Run, After, AdvanceStake, ChallengeAssertion, CompleteChallenge, CreateAssertion, Stake;
    ReachRestaked();
    AfterStep(8);
    ComputeBack();
  }

  lemma {:induction false} ReachRechallenged()
    ensures After(10) == RECHALLENGED
  {
    hide Run, After, AdvanceStake, CompleteChallenge, CreateAssertion, Stake;
    ReachBack();
    AfterStep(9);
    Same(After(10), RECHALLENGED);
  }

  lemma {:induction false} ReachAlone()
    ensures After(11) == ALONE
  {
    hide Run, After, AdvanceStake, ChallengeAssertion, CreateAssertion, Stake;
    ReachRechallenged();
    AfterStep(10);
    Same(After(11), ALONE);
  }

  /** Rejection safety fails once slashed addresses stake again: here assertion 1 is rejectable
      while address 1 is staked on it. */
  lemma {:induction false} RestakeStrands()
    ensures Initial(START)
    ensures var s := Run(START, RESTAKE);
            && Rejectable(s, 3, 0)
            && 1 in s.stakers && s.stakers[1].assertionID == s.lastResolved + 1 == 1
            && !ZombiesExact(s, 1)
  {
    assert RESTAKE[..11] == RESTAKE;
    ReachAlone();
    assert ALONE.zombies[..1] == [Zombie(1, 0)];
    assert StakedZombies([Zombie(1, 0)], {1, 2}) == 1;
    assert CountStakedZombies(ALONE, 1) == 2;
    assert Zombie(1, 0) in ALONE.zombies;
  }

  // ---------- an assertion that can never be confirmed ----------

  /** What a call may do to the records of zombies and unresolved assertions: only add to them. */
  ghost predicate Adds(s: State, t: State) {
    && s.zombies <= t.zombies && s.lastResolved <= t.lastResolved
    && (forall id: Id :: SetAt(s.stakedOn, id) <= SetAt(t.stakedOn, id))
    && (forall id: Id | t.lastResolved < id <= s.lastCreated ::
          At(t.assertions, id).parent == At(s.assertions, id).parent)
  }

  lemma {:induction false} StakeOnAdds(s: State, x: Address, id: Id)
    requires x in s.stakers
    ensures Adds(s, StakeOn(s, x, id))
  {
  }

  lemma {:induction false} StakeAdds(s: State, x: Address, value: nat)
    requires Stake(s, x, value).Some?
    ensures Adds(s, Stake(s, x, value).value)
  {
    if x !in s.stakers {
      var t := s.(stakers := s.stakers[x := Staker(value, 0, 0)], numStakers := s.numStakers + 1,
                  balance := s.balance + value);
      StakeOnAdds(t, x, s.lastConfirmed);
    }
  }

  lemma {:induction false} CreateAdds(s: State, x: Address, vmHash: nat, blockNum: nat, now: nat)
    requires Bounds(s) && CreateAssertion(s, x, vmHash, blockNum, now).Some?
    ensures Adds(s, CreateAssertion(s, x, vmHash, blockNum, now).value)
  {
    hide StakeOn;
    var id := s.lastCreated + 1;
    var u := CreateHelper(s, id, vmHash, blockNum, s.stakers[x].assertionID, now).value.(lastCreated := id);
    assert Adds(s, u);
    StakeOnAdds(u, x, id);
  }

  lemma {:induction false} StepAdds(s: State, op: Op)
    requires Bounds(s)
    ensures Adds(s, Step(s, op))
  {
    hide Confirmable, Rejectable, StakeOn, Stake, CreateAssertion;
    if Feasible(s, op) && Apply(s, op).Some? {
      match op
      case OpStake(x, value) => StakeAdds(s, x, value);
      case OpAdvanceStake(x, id) => StakeOnAdds(s, x, id);
      case OpCreateAssertion(x, vmHash, blockNum, now) => CreateAdds(s, x, vmHash, blockNum, now);
      case _ =>
    }
  }

  lemma {:induction false} StepInexact(s: State, op: Op, a: Id)
    requires TreeInv(s) && Unresolved(s, a) && !ZombiesExact(s, a) && Unresolved(Step(s, op), a)
    ensures !ZombiesExact(Step(s, op), a)
  {
    TreeBounds(s);
    StepAdds(s, op);
    hide Step, TreeInv;
    var t := Step(s, op);
    var z :| z in s.zombies && z.stakerAddress in SetAt(s.stakedOn, a) && !Below(s.assertions, z.lastAssertionID, a);
    BelowFrame(s.assertions, t.assertions, z.lastAssertionID, a);
    assert z in t.zombies && z.stakerAddress in SetAt(t.stakedOn, a);
  }

  /** Not confirmed, and either resolved or with an inexact zombie count. */
  ghost predicate Doomed(s: State, a: Id) {
    a !in s.confirmed && (a <= s.lastResolved || (Unresolved(s, a) && !ZombiesExact(s, a)))
  }

  lemma {:induction false} StepDoomed(s: State, op: Op, a: Id)
    requires TreeInv(s) && Doomed(s, a)
    ensures Doomed(Step(s, op), a)
  {
    TreeBounds(s);
    StepAdds(s, op);
    StepCreated(s, op);
    hide ZombiesExact, TreeInv;
    var t := Step(s, op);
    if op.OpConfirm? && Confirmable(s, op.now) && s.lastResolved + 1 == a {
      ConfirmExact(s, a);
    }
    if Unresolved(t, a) {
      StepInexact(s, op, a);
    }
  }

  lemma {:induction false} StepCreated(s: State, op: Op)
    ensures s.lastCreated <= Step(s, op).lastCreated
    ensures Step(s, op).confirmed == s.confirmed
            || (op.OpConfirm? && Confirmable(s, op.now) && Step(s, op).confirmed == s.confirmed + [s.lastResolved + 1])
  {
  }

  lemma {:induction false} RunDoomed(s: State, ops: seq<Op>, a: Id)
    requires TreeInv(s) && Doomed(s, a)
    ensures Doomed(Run(s, ops), a)
  {
    if ops != [] {
      RunDoomed(s, ops[..|ops| - 1], a);
      RunTree(s, ops[..|ops| - 1]);
      StepDoomed(Run(s, ops[..|ops| - 1]), ops[|ops| - 1], a);
    }
  }

  /** In every run: once the zombie count of an unresolved assertion is inexact, no continuation ever
      confirms that assertion. */
  lemma {:induction false} InexactNeverConfirmed(s0: State, ops: seq<Op>, a: Id, more: seq<Op>)
    requires Initial(s0) && Unresolved(Run(s0, ops), a) && !ZombiesExact(Run(s0, ops), a)
    ensures a !in Run(Run(s0, ops), more).confirmed
  {
    hide Initial, Run, ZombiesExact, TreeInv;
    RunChain(s0, ops);
    var s := Run(s0, ops);
    TreeBounds(s);
    if a in s.confirmed {
      ConfirmedBelow(s, a);
    }
    RunDoomed(s, more, a);
  }

  // ---------- a challenge against oneself ----------

  /** After the fork above, address 1 is made both players of a challenge, and loses it: half of its
      stake leaves what the contract owes and stays in its balance. */
  lemma {:induction false} SelfChallengeStrands()
    ensures Initial(START)
    ensures var s := Run(START, RESTAKE[..5] + [OpChallenge(1, 1, 1, 2, 100)]);
            var op := OpComplete(100, 1, 1);
            && Feasible(s, op) && Apply(s, op).Some? && Stranded(s, op) == 5
            && Step(s, op).balance + Owed(s) == s.balance + Owed(Step(s, op)) + 5
  {
    var s := Run(START, RESTAKE[..5] + [OpChallenge(1, 1, 1, 2, 100)]);
    var op := OpComplete(100, 1, 1);
    RunSnoc(START, RESTAKE[..5], OpChallenge(1, 1, 1, 2, 100));
    ReachForked();
    hide Run, Owed;
    assert s == Step(FORKED, OpChallenge(1, 1, 1, 2, 100));
    assert s.stakers[1] == Staker(10, 0, 100) && s.challenges == map[100 := (1, 1)];
    StepConserves(s, op);
  }

  // ---------- a challenge that a player has left ----------

  /** `x` is a player of challenge `c` and not in it any more. */
  ghost predicate Left(s: State, c: Address, x: Address) {
    && c in s.challenges && 0 !in s.challenges
    && (s.challenges[c].0 == x || s.challenges[c].1 == x)
    && ChallengeOf(s, x) != c
  }

  /** `y` is in challenge `c`. */
  ghost predicate Held(s: State, c: Address, y: Address) {
    y in s.stakers && s.stakers[y].currentChallenge == c
  }

  lemma {:induction false} LeftNeverPays(s: State, op: Op, c: Address, x: Address)
    requires Left(s, c, x) && op.OpComplete? && op.sender == c
    ensures !Pays(s, op)
  {
  }

  /** What a call can do to the challenges of stakers and the list of challenges. */
  ghost predicate KeepsChallenges(s: State, t: State, except: Address) {
    && t.challenges == s.challenges
    && forall y :: ChallengeOf(t, y) == ChallengeOf(s, y) || (ChallengeOf(t, y) == 0 && y == except && y !in t.stakers)
  }

  lemma {:induction false} StakeKeeps(s: State, x: Address, value: nat)
    requires Stake(s, x, value).Some?
    ensures KeepsChallenges(s, Stake(s, x, value).value, x)
    ensures forall y | y in s.stakers :: y in Stake(s, x, value).value.stakers
  {
  }

  lemma {:induction false} CreateKeeps(s: State, x: Address, vmHash: nat, blockNum: nat, now: nat)
    requires CreateAssertion(s, x, vmHash, blockNum, now).Some?
    ensures KeepsChallenges(s, CreateAssertion(s, x, vmHash, blockNum, now).value, x)
    ensures forall y | y in s.stakers :: y in CreateAssertion(s, x, vmHash, blockNum, now).value.stakers
  {
  }

  lemma {:induction false} StepLeft(s: State, op: Op, c: Address, x: Address, y: Address)
    requires Left(s, c, x)
    ensures Left(Step(s, op), c, x)
    ensures Held(s, c, y) && !(op.OpRemoveStake? && op.staker == y) ==> Held(Step(s, op), c, y)
  {
    hide Confirmable, Rejectable, Stake, CreateAssertion;
    if Feasible(s, op) && Apply(s, op).Some? {
      match op
      case OpStake(z, value) => StakeKeeps(s, z, value);
      case OpCreateAssertion(z, vmHash, blockNum, now) => CreateKeeps(s, z, vmHash, blockNum, now);
      case OpComplete(sender, winner, loser) =>
        if sender == c {
          LeftNeverPays(s, op, c, x);
        }
      case _ =>
    }
  }

  lemma {:induction false} RunLeft(s: State, ops: seq<Op>, c: Address, x: Address, y: Address)
    requires Left(s, c, x)
    ensures Left(Run(s, ops), c, x)
    ensures Held(s, c, y) && (forall i | 0 <= i < |ops| :: !(ops[i].OpRemoveStake? && ops[i].staker == y)) ==>
              Held(Run(s, ops), c, y)
  {
    if ops != [] {
      RunLeft(s, ops[..|ops| - 1], c, x, y);
      StepLeft(Run(s, ops[..|ops| - 1]), ops[|ops| - 1], c, x, y);
    }
  }

  /** In every run: once a player of a challenge has removed its stake, that challenge never pays out, and
      the other player stays in it, and so cannot be challenged again, until it leaves as well. */
  lemma {:induction false} LeaverEndsChallenge(s0: State, ops: seq<Op>, x: Address, paid: bool, more: seq<Op>, last: Op,
                                               y: Address)
    requires Initial(s0) && RemoveStake(Run(s0, ops), x, paid).Some?
    requires ChallengeOf(Run(s0, ops), x) != 0
    ensures var c := ChallengeOf(Run(s0, ops), x);
            var s := RemoveStake(Run(s0, ops), x, paid).value;
            && (last.OpComplete? && last.sender == c ==> !Pays(Run(s, more), last))
            && (Held(s, c, y) && (forall i | 0 <= i < |more| :: !(more[i].OpRemoveStake? && more[i].staker == y)) ==>
                  Held(Run(s, more), c, y) && !Unchallenged(Run(s, more), y))
  {
    RunEnrolled(s0, ops);
    hide Run, Initial;
    var c := ChallengeOf(Run(s0, ops), x);
    var s := RemoveStake(Run(s0, ops), x, paid).value;
    assert Left(s, c, x);
    RunLeft(s, more, c, x, y);
    if last.OpComplete? && last.sender == c {
      LeftNeverPays(Run(s, more), last, c, x);
    }
  }

  /** In the run above, address 1 is in a challenge with address 3 and on the confirmed assertion: it can
      leave, and address 3 is held. */
  lemma {:induction false} LeaverHoldsOpponent()
    ensures Initial(START)
    ensures var s := Run(START, RESTAKE[..6]);
            && ChallengeOf(s, 1) == 100 && RemoveStake(s, 1, true).Some?
            && Held(RemoveStake(s, 1, true).value, 100, 3) && !Unchallenged(RemoveStake(s, 1, true).value, 3)
  {
    ReachChallenged();
  }

  // ---------- a staker on a rejected assertion ----------

  /** After the fork: address 2 loses a challenge to 3, assertion 1 is rejected, and address 1 advances from
      the initial assertion onto it. */
  const TRAP: seq<Op> := RESTAKE[..5] + [
    OpChallenge(2, 3, 1, 2, 101), OpComplete(101, 3, 2), OpReject(3, 0), OpAdvanceStake(1, 1)]

  const DUELLING := Scene(2,
    map[0 := Assertion(7, 0, 0, 0, 0, 3, 1), 1 := Assertion(5, 1, 0, 0, 0, 1, 0), 2 := Assertion(6, 1, 0, 0, 0, 1, 0)],
    map[0 := {1, 2, 3}, 1 := {2}, 2 := {3}], map[0 := {7, 5, 6}],
    map[1 := Staker(10, 0, 0), 2 := Staker(10, 1, 101), 3 := Staker(10, 2, 101)], 3,
    map[], [], 30, map[101 := (2, 3)])

  const DECIDED := Scene(2,
    map[0 := Assertion(7, 0, 0, 0, 0, 3, 1), 1 := Assertion(5, 1, 0, 0, 0, 1, 0), 2 := Assertion(6, 1, 0, 0, 0, 1, 0)],
    map[0 := {1, 2, 3}, 1 := {2}, 2 := {3}], map[0 := {7, 5, 6}],
    map[1 := Staker(10, 0, 0), 3 := Staker(15, 2, 0)], 2,
    map[9 := 5], [Zombie(2, 1)], 30, map[101 := (2, 3)])

  const REJECTED := DECIDED.(lastResolved := 1, assertions := DECIDED.assertions[1 := NO_ASSERTION], rejected := {1})

  lemma {:induction false} ReachDuelling()
    ensures Run(START, TRAP[..6]) == DUELLING
  {
    assert TRAP[..6] == RESTAKE[..5] + [OpChallenge(2, 3, 1, 2, 101)];
    RunSnoc(START, RESTAKE[..5], OpChallenge(2, 3, 1, 2, 101));
    ReachForked();
    hide Run, After, AdvanceStake, CompleteChallenge, CreateAssertion, Stake;
    Same(Run(START, TRAP[..6]), DUELLING);
  }

  lemma {:induction false} ReachDecided()
    ensures Run(START, TRAP[..7]) == DECIDED
  {
    hide AdvanceStake, ChallengeAssertion, CreateAssertion, Stake;
    assert TRAP[..7] == TRAP[..6] + [OpComplete(101, 3, 2)];
    RunSnoc(START, TRAP[..6], OpComplete(101, 3, 2));
    ReachDuelling();
    hide Run;
    Same(Run(START, TRAP[..7]), DECIDED);
  }

  lemma {:induction false} ReachRejected()
    ensures Run(START, TRAP[..8]) == REJECTED
  {
    hide AdvanceStake, ChallengeAssertion, CreateAssertion, Stake, CompleteChallenge;
    assert TRAP[..8] == TRAP[..7] + [OpReject(3, 0)];
    RunSnoc(START, TRAP[..7], OpReject(3, 0));
    ReachDecided();
    hide Run;
    assert DECIDED.zombies[..0] == [];
    assert CountStakedZombies(DECIDED, 1) == 1;
    assert Rejectable(DECIDED, 3, 0);
  }

  /** A staker walks onto a rejected assertion and is trapped: it is neither on the last confirmed assertion,
      to leave, nor below assertion 2, which cannot be confirmed as long as it is there. */
  lemma {:induction false} RejectedTrap()
    ensures Initial(START)
    ensures var s := Run(START, TRAP);
            && 1 in s.rejected && 1 in s.stakers && s.stakers[1].assertionID == 1
            && RemoveStake(s, 1, true).None? && !Below(s.assertions, 1, 2) && forall now :: !Confirmable(s, now)
  {
    hide ChallengeAssertion, CreateAssertion, Stake, CompleteChallenge;
    assert TRAP == TRAP[..8] + [OpAdvanceStake(1, 1)];
    RunSnoc(START, TRAP[..8], OpAdvanceStake(1, 1));
    ReachRejected();
    hide Run;
    assert Run(START, TRAP) == StakeOn(REJECTED, 1, 1);
  }
}
