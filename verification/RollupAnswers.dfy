/** When calls are accepted, in the terms of the tree and its stakers, in any state that a run can reach. */
module RollupAnswers {
  import opened Wrappers
  import opened Rollup
  import opened RollupTree
  import opened RollupResolution
  import opened RollupChain
  import opened RollupSound

  /** The first unresolved assertion can be confirmed if and only if there is one, its period is over, it is
      a child of the last confirmed one, somebody is staked, everybody staked is on it or below it, and
      its zombie count is exact. */
  lemma {:induction false} ConfirmAnswer(s: State, now: nat)
    requires Sound(s)
    ensures var a := s.lastResolved + 1;
            Confirmable(s, now) <==>
            && a <= s.lastCreated && s.stakers != map[]
            && now >= At(s.assertions, a).deadline && At(s.assertions, a).parent == s.lastConfirmed
            && (forall x | x in s.stakers :: Below(s.assertions, s.stakers[x].assertionID, a)) && ZombiesExact(s, a)
  {
    hide ChainInv, Below, ZombiesExact, CountStakedZombies;
    var a := s.lastResolved + 1;
    assert |s.stakers| > 0 <==> s.stakers != map[];
    if a <= s.lastCreated {
      ConfirmExact(s, a);
    }
  }

  /** It can be rejected if and only if there is one and, should it be a child of the last confirmed one, its
      period is over, the named staker stands later in the tree but not on it or below it and never fell
      there, and the stakers who do stand there are as many as the zombie count is off. */
  lemma {:induction false} RejectAnswer(s: State, staker: Address, now: nat)
    requires Sound(s)
    ensures var a := s.lastResolved + 1;
            Rejectable(s, staker, now) <==>
            && a <= s.lastCreated
            && (At(s.assertions, a).parent == s.lastConfirmed ==>
                  && now >= At(s.assertions, a).deadline
                  && staker in s.stakers && s.stakers[staker].assertionID > a
                  && !Below(s.assertions, s.stakers[staker].assertionID, a)
                  && !Fallen(s.assertions, s.zombies, a, staker)
                  && |Standing(s.assertions, s.stakers, a)|
                     == CountStakedZombies(s, a) - FallenCount(s.assertions, s.zombies, a))
  {
    hide ChainInv, ZombiesExact, CountStakedZombies, Fallen, FallenCount;
    var a := s.lastResolved + 1;
    if a <= s.lastCreated {
      CountsOf(s, a);
      assert Counted(s, a);
    }
  }

  /** A stake moves if and only if there is such a later child of the assertion it is on; and then it does. */
  lemma {:induction false} AdvanceAnswer(s: State, x: Address, id: Id)
    ensures AdvanceStake(s, x, id).Some? <==>
            && x in s.stakers && s.stakers[x].assertionID < id <= s.lastCreated
            && At(s.assertions, id).parent == s.stakers[x].assertionID
    ensures AdvanceStake(s, x, id).Some? ==>
              var t := AdvanceStake(s, x, id).value;
              && x in t.stakers && t.stakers[x].assertionID == id && x in SetAt(t.stakedOn, id)
              && At(t.assertions, id).numStakers == At(s.assertions, id).numStakers + 1
  {
  }

  /** A challenge starts if and only if it names two existing assertions, in order, with the same parent and
      neither of them confirmed, and two stakers who are in no challenge; and then both are in it. */
  lemma {:induction false} ChallengeAnswer(s: State, d: Address, c: Address, did: Id, cid: Id, challenge: Address)
    requires Sound(s)
    ensures ChallengeAssertion(s, d, c, did, cid, challenge).Some? <==>
            && s.lastConfirmed < did < cid <= s.lastCreated
            && At(s.assertions, did).parent == At(s.assertions, cid).parent
            && d in s.stakers && s.stakers[d].currentChallenge == 0
            && c in s.stakers && s.stakers[c].currentChallenge == 0
    ensures ChallengeAssertion(s, d, c, did, cid, challenge).Some? ==>
              var t := ChallengeAssertion(s, d, c, did, cid, challenge).value;
              && did !in s.confirmed && cid !in s.confirmed
              && ChallengeOf(t, d) == challenge == ChallengeOf(t, c) && t.challenges[challenge] == (d, c)
              && forall x | x != d && x != c :: ChallengeOf(t, x) == ChallengeOf(s, x)
  {
    hide TreeInv;
    if did in s.confirmed {
      ConfirmedBelow(s, did);
    }
    if cid in s.confirmed {
      ConfirmedBelow(s, cid);
    }
  }

  /** The base stake can be lowered, and not raised, when nothing is unresolved. */
  lemma {:induction false} BaseStakeAnswer(s: State, amount: nat)
    requires s.lastResolved <= s.lastCreated
    ensures SetBaseStakeAmount(s, amount).Some? <==> (forall a :: !Unresolved(s, a)) && amount <= s.baseStakeAmount
    ensures SetBaseStakeAmount(s, amount).Some? ==>
              SetBaseStakeAmount(s, amount).value == s.(baseStakeAmount := amount)
  {
    if s.lastResolved < s.lastCreated {
      assert Unresolved(s, s.lastCreated);
    }
  }
}
