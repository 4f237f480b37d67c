/** What confirming or rejecting an assertion means for the stakers, in every run. */
module RollupResolution {
  import opened Wrappers
  import opened Rollup
  import opened RollupTree

  lemma {:induction false} RunTree(s: State, ops: seq<Op>)
    requires TreeInv(s)
    ensures TreeInv(Run(s, ops))
  {
    if ops != [] {
      RunTree(s, ops[..|ops| - 1]);
      StepTree(Run(s, ops[..|ops| - 1]), ops[|ops| - 1]);
    }
  }

  /** A state as `initialize` leaves it. */
  ghost predicate Initial(s: State) {
    exists reading, vault, cp, mp, base, id, blockNum, vmHash, now ::
      s == Initialize(reading, vault, cp, mp, base, id, blockNum, vmHash, now)
  }

  lemma {:induction false} InitialTree(s: State)
    requires Initial(s)
    ensures TreeInv(s)
  {
  }

  // ---------- the zombie count ----------

  /** Every zombie recorded on `a` fell at or below `a`. A caller can read this off the state. */
  predicate ZombiesExact(s: State, a: Id) {
    forall z | z in s.zombies && z.stakerAddress in SetAt(s.stakedOn, a) :: Below(s.assertions, z.lastAssertionID, a)
  }

  /** The zombie count can only over-count, and does so exactly when some recorded zombie did not
      fall at or below `a`. */
  lemma {:induction false} ZombieOvercount(m: Assertions, zombies: seq<Zombie>, flagged: set<Address>, a: Id)
    requires forall z | z in zombies && Below(m, z.lastAssertionID, a) :: z.stakerAddress in flagged
    ensures FallenCount(m, zombies, a) <= StakedZombies(zombies, flagged)
    ensures FallenCount(m, zombies, a) == StakedZombies(zombies, flagged)
            <==> forall z | z in zombies && z.stakerAddress in flagged :: Below(m, z.lastAssertionID, a)
  {
    if zombies != [] {
      var front := zombies[..|zombies| - 1];
      var last := zombies[|zombies| - 1];
      assert forall z :: z in zombies <==> z in front || z == last;
      ZombieOvercount(m, front, flagged, a);
    }
  }

  lemma {:induction false} CountsOf(s: State, a: Id)
    requires TreeInv(s) && Unresolved(s, a)
    ensures var fallen := FallenCount(s.assertions, s.zombies, a);
            && At(s.assertions, a).numStakers == |Standing(s.assertions, s.stakers, a)| + fallen
            && fallen <= CountStakedZombies(s, a)
            && (fallen == CountStakedZombies(s, a) <==> ZombiesExact(s, a))
  {
    assert Counted(s, a);
    forall z | z in s.zombies && Below(s.assertions, z.lastAssertionID, a)
      ensures z.stakerAddress in SetAt(s.stakedOn, a)
    {
      assert Fallen(s.assertions, s.zombies, a, z.stakerAddress);
    }
    ZombieOvercount(s.assertions, s.zombies, SetAt(s.stakedOn, a), a);
  }

  // ---------- confirmation ----------

  /** The staker count test of confirmation holds exactly when every live staker stands on the
      assertion or below it and the zombie count is exact. */
  lemma {:induction false} ConfirmExact(s: State, a: Id)
    requires TreeInv(s) && Unresolved(s, a)
    ensures At(s.assertions, a).numStakers == CountStakedZombies(s, a) + s.numStakers
            <==> (forall x | x in s.stakers :: Below(s.assertions, s.stakers[x].assertionID, a)) && ZombiesExact(s, a)
  {
    CountsOf(s, a);
    var standing := Standing(s.assertions, s.stakers, a);
    assert standing <= s.stakers.Keys;
    SubsetSize(standing, s.stakers.Keys);
    assert |s.stakers| == |s.stakers.Keys|;
    assert standing == s.stakers.Keys
           <==> forall x | x in s.stakers :: Below(s.assertions, s.stakers[x].assertionID, a);
  }

  lemma {:induction false} SubsetSize<T>(a: set<T>, b: set<T>)
    requires a <= b
    ensures |a| <= |b| && (|a| == |b| <==> a == b)
  {
    assert b == a + (b - a) && |b| == |a| + |b - a|;
  }

  /** Two assertions above the same one are above one another. */
  lemma {:induction false} BelowLinear(m: Assertions, d: Id, a: Id, b: Id)
    requires Below(m, d, a) && Below(m, d, b) && a <= b
    ensures Below(m, b, a)
    decreases d
  {
    if d != b {
      if d == a {
        BelowUp(m, d, b);
      } else {
        BelowLinear(m, At(m, d).parent, a, b);
      }
    }
  }

  lemma {:induction false} ConfirmableStanding(s: State, now: nat, x: Address)
    requires TreeInv(s) && Confirmable(s, now) && x in s.stakers
    ensures var a := s.lastResolved + 1;
            x in SetAt(s.stakedOn, a) && Below(s.assertions, s.stakers[x].assertionID, a)
  {
    var a := s.lastResolved + 1;
    ConfirmExact(s, a);
    assert Counted(s, a);
    assert x in Standing(s.assertions, s.stakers, a);
  }

  lemma {:induction false} SiblingsApart(m: Assertions, d: Id, a: Id, b: Id)
    requires a < b && At(m, a).parent == At(m, b).parent && At(m, a).parent < a
    requires Below(m, d, a)
    ensures !Below(m, d, b)
  {
    if Below(m, d, b) {
      BelowLinear(m, d, a, b);
      SiblingNotBelow(m, b, a);
    }
  }

  /** In every run: when an assertion can be confirmed, every live staker has staked on it, stands
      on it or below it, and neither on an unresolved sibling nor below one. */
  lemma {:induction false} ConfirmSafe(s0: State, ops: seq<Op>, now: nat, x: Address)
    requires Initial(s0) && Confirmable(Run(s0, ops), now) && x in Run(s0, ops).stakers
    ensures var s := Run(s0, ops);
            var a := s.lastResolved + 1;
            && x in SetAt(s.stakedOn, a)
            && Below(s.assertions, s.stakers[x].assertionID, a)
            && forall b | Unresolved(s, b) && b != a && At(s.assertions, b).parent == At(s.assertions, a).parent ::
                 !Below(s.assertions, s.stakers[x].assertionID, b)
  {
    hide Initial, Run, Below, CountStakedZombies;
    InitialTree(s0);
    RunTree(s0, ops);
    var s := Run(s0, ops);
    ConfirmableStanding(s, now, x);
    var a := s.lastResolved + 1;
    assert Counted(s, a);
    forall b | Unresolved(s, b) && b != a && At(s.assertions, b).parent == At(s.assertions, a).parent
      ensures !Below(s.assertions, s.stakers[x].assertionID, b)
    {
      SiblingsApart(s.assertions, s.stakers[x].assertionID, a, b);
    }
  }

  // ---------- rejection ----------

  /** When the staker count test of rejection passes, no live staker stands on the assertion
      exactly when the zombie count is exact. */
  lemma {:induction false} RejectExact(s: State, a: Id)
    requires TreeInv(s) && Unresolved(s, a)
    requires At(s.assertions, a).numStakers == CountStakedZombies(s, a)
    ensures (forall x | x in s.stakers :: !Below(s.assertions, s.stakers[x].assertionID, a)) <==> ZombiesExact(s, a)
  {
    CountsOf(s, a);
    var standing := Standing(s.assertions, s.stakers, a);
    assert |standing| == 0 <==> standing == {};
    assert standing == {} <==> forall x | x in s.stakers :: x !in standing;
  }

  lemma {:induction false} RejectableApart(s: State, staker: Address, now: nat)
    requires TreeInv(s) && Rejectable(s, staker, now) && At(s.assertions, s.lastResolved + 1).parent == s.lastConfirmed
    ensures var a := s.lastResolved + 1;
            && !Below(s.assertions, s.stakers[staker].assertionID, a)
            && !Below(s.assertions, a, s.stakers[staker].assertionID)
  {
    var a := s.lastResolved + 1;
    assert Counted(s, a);
    assert staker !in Standing(s.assertions, s.stakers, a);
    BelowUp(s.assertions, a, s.stakers[staker].assertionID);
  }

  /** In every run: the staker that a rejection names is on neither an ancestor nor a descendant of
      the rejected assertion. */
  lemma {:induction false} RejectWitness(s0: State, ops: seq<Op>, staker: Address, now: nat)
    requires Initial(s0) && Rejectable(Run(s0, ops), staker, now)
    requires var s := Run(s0, ops); At(s.assertions, s.lastResolved + 1).parent == s.lastConfirmed
    ensures var s := Run(s0, ops);
            var a := s.lastResolved + 1;
            && staker in s.stakers
            && !Below(s.assertions, s.stakers[staker].assertionID, a)
            && !Below(s.assertions, a, s.stakers[staker].assertionID)
  {
    hide Initial, Run, TreeInv;
    InitialTree(s0);
    RunTree(s0, ops);
    RejectableApart(Run(s0, ops), staker, now);
  }

  /** Zombie addresses are pairwise different and none of them is staked. */
  ghost predicate Buried(s: State) {
    && (forall i, j | 0 <= i < j < |s.zombies| :: s.zombies[i].stakerAddress != s.zombies[j].stakerAddress)
    && (forall z | z in s.zombies :: z.stakerAddress !in s.stakers)
  }

  lemma {:induction false} InitialBuried(s: State)
    requires Initial(s)
    ensures Buried(s)
  {
  }

  /** No address that was slashed stakes again. */
  ghost predicate NoRestake(s: State, ops: seq<Op>)
    decreases |ops|
  {
    ops == [] ||
    var front := ops[..|ops| - 1];
    var op := ops[|ops| - 1];
    && NoRestake(s, front)
    && (op.OpStake? ==> forall z | z in Run(s, front).zombies :: z.stakerAddress != op.sender)
  }

  lemma {:induction false} SlashBuried(s: State, sender: Address, winner: Address, loser: Address)
    requires Buried(s) && CompleteChallenge(s, sender, winner, loser).Some?
    ensures Buried(CompleteChallenge(s, sender, winner, loser).value)
  {
    var t := CompleteChallenge(s, sender, winner, loser).value;
    assert t.zombies[..|s.zombies|] == s.zombies;
    assert t.stakers.Keys == s.stakers.Keys - {loser};
  }

  lemma {:induction false} OthersBuried(s: State, t: State, x: Address)
    requires Buried(s) && t.zombies == s.zombies && t.stakers.Keys <= s.stakers.Keys + {x}
    requires t.stakers.Keys <= s.stakers.Keys || forall z | z in s.zombies :: z.stakerAddress != x
    ensures Buried(t)
  {
  }

  lemma {:induction false} StepBuried(s: State, op: Op)
    requires Buried(s) && (op.OpStake? ==> forall z | z in s.zombies :: z.stakerAddress != op.sender)
    ensures Buried(Step(s, op))
  {
    hide Buried, Confirmable, Rejectable;
    var t := Step(s, op);
    if t != s {
      if op.OpComplete? {
        SlashBuried(s, op.sender, op.winner, op.loser);
      } else {
        StakersKept(s, op, t);
        OthersBuried(s, t, if op.OpStake? then op.sender else 0);
      }
    }
  }

  /** All calls but the end of a challenge keep the zombies, and only `stake` adds a staker. */
  lemma {:induction false} StakersKept(s: State, op: Op, t: State)
    requires !op.OpComplete? && Apply(s, op) == Some(t)
    ensures t.zombies == s.zombies
    ensures t.stakers.Keys <= s.stakers.Keys + if op.OpStake? then {op.sender} else {}
  {
    hide Confirmable, Rejectable;
  }

  lemma {:induction false} RunBuried(s: State, ops: seq<Op>)
    requires Buried(s) && NoRestake(s, ops)
    ensures Buried(Run(s, ops))
  {
    if ops != [] {
      RunBuried(s, ops[..|ops| - 1]);
      StepBuried(Run(s, ops[..|ops| - 1]), ops[|ops| - 1]);
    }
  }

  /** In every run in which no slashed address stakes again, rejecting a child of the last
      confirmed assertion strands no live staker. */
  lemma {:induction false} RejectSafe(s0: State, ops: seq<Op>, staker: Address, now: nat, x: Address)
    requires Initial(s0) && NoRestake(s0, ops) && Rejectable(Run(s0, ops), staker, now)
    requires var s := Run(s0, ops); At(s.assertions, s.lastResolved + 1).parent == s.lastConfirmed
    requires x in Run(s0, ops).stakers
    ensures var s := Run(s0, ops); !Below(s.assertions, s.stakers[x].assertionID, s.lastResolved + 1)
  {
    hide Initial, Run, Below, Counted, Buried, NoRestake, CountStakedZombies;
    InitialBuried(s0);
    InitialTree(s0);
    RunTree(s0, ops);
    RunBuried(s0, ops);
    var s := Run(s0, ops);
    BuriedExact(s, s.lastResolved + 1);
    RejectExact(s, s.lastResolved + 1);
  }

  lemma {:induction false} BuriedExact(s: State, a: Id)
    requires TreeInv(s) && Unresolved(s, a) && Buried(s)
    ensures ZombiesExact(s, a)
  {
    assert Counted(s, a);
    forall z | z in s.zombies && z.stakerAddress in SetAt(s.stakedOn, a)
      ensures Below(s.assertions, z.lastAssertionID, a)
    {
      assert Fallen(s.assertions, s.zombies, a, z.stakerAddress);
      var z' :| z' in s.zombies && z'.stakerAddress == z.stakerAddress && Below(s.assertions, z'.lastAssertionID, a);
      var i :| 0 <= i < |s.zombies| && s.zombies[i] == z;
      var j :| 0 <= j < |s.zombies| && s.zombies[j] == z';
      assert i == j;
    }
  }
}
