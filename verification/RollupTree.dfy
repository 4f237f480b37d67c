/** Who stands where in the assertion tree, and the counting argument behind resolution. */
module RollupTree {
  import opened Wrappers
  import opened Rollup

  // ---------- subtrees ----------

  /** `d` is `a` or below it, following parent links. Only records above `a` are consulted. */
  predicate Below(m: Assertions, d: Id, a: Id)
    decreases d
  {
    d == a || (d > a && At(m, d).parent < d && Below(m, At(m, d).parent, a))
  }

  lemma {:induction false} BelowFrame(m: Assertions, m': Assertions, d: Id, a: Id)
    requires forall id | a < id <= d :: At(m, id).parent == At(m', id).parent
    ensures Below(m, d, a) == Below(m', d, a)
    decreases d
  {
    if d > a && At(m, d).parent < d {
      BelowFrame(m, m', At(m, d).parent, a);
    }
  }

  lemma {:induction false} BelowUp(m: Assertions, d: Id, a: Id)
    ensures Below(m, d, a) ==> a <= d
  {
  }

  /** An assertion with another parent below which `a` hangs is not below `a`. */
  lemma {:induction false} SiblingNotBelow(m: Assertions, d: Id, a: Id)
    requires d != a && At(m, d).parent == At(m, a).parent && At(m, a).parent < a
    ensures !Below(m, d, a)
  {
    BelowUp(m, At(m, a).parent, a);
  }

  /** Live stakers standing on `a` or below it. */
  ghost function Standing(m: Assertions, stakers: Stakers, a: Id): set<Address> {
    set x | x in stakers && Below(m, stakers[x].assertionID, a)
  }

  /** Zombies that were on `a` or below it when they were slashed. */
  ghost function FallenCount(m: Assertions, zombies: seq<Zombie>, a: Id): nat {
    if zombies == [] then 0
    else
      var last := |zombies| - 1;
      FallenCount(m, zombies[..last], a) + if Below(m, zombies[last].lastAssertionID, a) then 1 else 0
  }

  ghost predicate Fallen(m: Assertions, zombies: seq<Zombie>, a: Id, x: Address) {
    exists z | z in zombies :: z.stakerAddress == x && Below(m, z.lastAssertionID, a)
  }

  ghost predicate Unresolved(s: State, a: Id) {
    s.lastResolved < a <= s.lastCreated
  }

  // ---------- the invariant ----------

  /** `numStakers` of `a` counts who stands, or fell, at or below it. */
  ghost predicate Tallied(s: State, a: Id) {
    At(s.assertions, a).numStakers
    == |Standing(s.assertions, s.stakers, a)| + FallenCount(s.assertions, s.zombies, a)
  }

  /** The addresses recorded on `a` are those that stand, or fell, at or below it. */
  ghost predicate Flagged(s: State, a: Id) {
    forall x :: x in SetAt(s.stakedOn, a)
                <==> x in Standing(s.assertions, s.stakers, a) || Fallen(s.assertions, s.zombies, a, x)
  }

  ghost predicate Counted(s: State, a: Id) {
    At(s.assertions, a).parent < a && Tallied(s, a) && Flagged(s, a)
  }

  ghost predicate Bounds(s: State) {
    && s.lastConfirmed <= s.lastResolved <= s.lastCreated
    && s.numStakers == |s.stakers|
    && (forall x | x in s.stakers :: s.stakers[x].assertionID <= s.lastCreated)
    && (forall z | z in s.zombies :: z.lastAssertionID <= s.lastCreated)
    && (forall id | id in s.assertions :: id <= s.lastCreated)
    && (forall id | id in s.stakedOn :: id <= s.lastCreated)
  }

  ghost predicate TreeInv(s: State) {
    Bounds(s) && forall a | Unresolved(s, a) :: Counted(s, a)
  }

  lemma {:induction false} FallenFrame(m: Assertions, m': Assertions, zombies: seq<Zombie>, a: Id, last: Id)
    requires forall id | a < id <= last :: At(m, id).parent == At(m', id).parent
    requires forall z | z in zombies :: z.lastAssertionID <= last
    ensures FallenCount(m, zombies, a) == FallenCount(m', zombies, a)
    ensures forall x :: Fallen(m, zombies, a, x) == Fallen(m', zombies, a, x)
  {
    forall z | z in zombies ensures Below(m, z.lastAssertionID, a) == Below(m', z.lastAssertionID, a) {
      BelowFrame(m, m', z.lastAssertionID, a);
    }
    if zombies != [] {
      var front := zombies[..|zombies| - 1];
      assert forall z | z in front :: z in zombies;
      FallenFrame(m, m', front, a, last);
      assert zombies[|zombies| - 1] in zombies;
    }
  }

  /** How a transition may change what matters to one unresolved assertion `a`. */
  ghost predicate Carried(s: State, t: State, a: Id) {
    && (forall id | a <= id <= s.lastCreated :: At(s.assertions, id).parent == At(t.assertions, id).parent)
    && At(s.assertions, a).numStakers == At(t.assertions, a).numStakers
    && SetAt(s.stakedOn, a) == SetAt(t.stakedOn, a)
    && s.zombies == t.zombies
    && (forall x :: (x in s.stakers && Below(s.assertions, s.stakers[x].assertionID, a))
                    <==> (x in t.stakers && Below(t.assertions, t.stakers[x].assertionID, a)))
  }

  lemma {:induction false} CarriedCounted(s: State, t: State, a: Id)
    requires TreeInv(s) && Unresolved(s, a) && Carried(s, t, a)
    ensures Counted(t, a)
  {
    assert Counted(s, a);
    FallenFrame(s.assertions, t.assertions, s.zombies, a, s.lastCreated);
    assert Standing(s.assertions, s.stakers, a) == Standing(t.assertions, t.stakers, a);
  }

  /** Staker `x` moves to `a` itself: one more stands there. */
  lemma {:induction false} JoinCounted(s: State, t: State, a: Id, x: Address)
    requires TreeInv(s) && Counted(s, a)
    requires forall id | a <= id <= s.lastCreated :: At(s.assertions, id).parent == At(t.assertions, id).parent
    requires At(t.assertions, a).parent == At(s.assertions, a).parent
    requires At(t.assertions, a).numStakers == At(s.assertions, a).numStakers + 1
    requires SetAt(t.stakedOn, a) == SetAt(s.stakedOn, a) + {x} && t.zombies == s.zombies
    requires x in s.stakers && s.stakers[x].assertionID < a
    requires t.stakers == s.stakers[x := s.stakers[x].(assertionID := a)]
    ensures Counted(t, a)
  {
    FallenFrame(s.assertions, t.assertions, s.zombies, a, s.lastCreated);
    JoinStanding(s, t, a, x);
  }

  lemma {:induction false} JoinStanding(s: State, t: State, a: Id, x: Address)
    requires TreeInv(s)
    requires forall id | a <= id <= s.lastCreated :: At(s.assertions, id).parent == At(t.assertions, id).parent
    requires x in s.stakers && s.stakers[x].assertionID < a
    requires t.stakers == s.stakers[x := s.stakers[x].(assertionID := a)]
    ensures x !in Standing(s.assertions, s.stakers, a)
    ensures Standing(t.assertions, t.stakers, a) == Standing(s.assertions, s.stakers, a) + {x}
  {
    forall y | y in s.stakers
      ensures Below(s.assertions, s.stakers[y].assertionID, a) == Below(t.assertions, s.stakers[y].assertionID, a)
    {
      BelowFrame(s.assertions, t.assertions, s.stakers[y].assertionID, a);
    }
    BelowUp(s.assertions, s.stakers[x].assertionID, a);
  }

  lemma {:induction false} FallenAppend(m: Assertions, zombies: seq<Zombie>, z: Zombie, a: Id)
    ensures FallenCount(m, zombies + [z], a)
            == FallenCount(m, zombies, a) + if Below(m, z.lastAssertionID, a) then 1 else 0
    ensures forall x :: Fallen(m, zombies + [z], a, x)
                        <==> Fallen(m, zombies, a, x) || (x == z.stakerAddress && Below(m, z.lastAssertionID, a))
  {
    var all := zombies + [z];
    assert all[..|all| - 1] == zombies;
    assert z in all && forall y | y in zombies :: y in all;
  }

  /** A slashed staker turns from standing to fallen, in place. */
  lemma {:induction false} SlashCounted(s: State, t: State, a: Id, loser: Address)
    requires TreeInv(s) && Counted(s, a)
    requires t.assertions == s.assertions && t.stakedOn == s.stakedOn
    requires loser in s.stakers
    requires t.stakers.Keys == s.stakers.Keys - {loser}
    requires forall x | x in t.stakers :: t.stakers[x].assertionID == s.stakers[x].assertionID
    requires t.zombies == s.zombies + [Zombie(loser, s.stakers[loser].assertionID)]
    ensures Counted(t, a)
  {
    var m := s.assertions;
    FallenAppend(m, s.zombies, Zombie(loser, s.stakers[loser].assertionID), a);
    SlashStanding(m, s.stakers, t.stakers, a, loser);
  }

  lemma {:induction false} SlashStanding(m: Assertions, stakers: Stakers, rest: Stakers, a: Id, loser: Address)
    requires loser in stakers && rest.Keys == stakers.Keys - {loser}
    requires forall x | x in rest :: rest[x].assertionID == stakers[x].assertionID
    ensures Standing(m, rest, a) == Standing(m, stakers, a) - {loser}
    ensures loser in Standing(m, stakers, a) <==> Below(m, stakers[loser].assertionID, a)
    ensures |Standing(m, stakers, a)|
            == |Standing(m, rest, a)| + if Below(m, stakers[loser].assertionID, a) then 1 else 0
  {
    hide Below;
    assert Standing(m, rest, a) == Standing(m, stakers, a) - {loser};
  }

  // ---------- every transition keeps it ----------

  /** Same tree, same stakers in the same places. */
  lemma {:induction false} SamePlaces(s: State, t: State)
    requires TreeInv(s)
    requires t.stakers.Keys == s.stakers.Keys
    requires forall x | x in s.stakers :: t.stakers[x].assertionID == s.stakers[x].assertionID
    requires (t.lastResolved, t.lastConfirmed, t.lastCreated) == (s.lastResolved, s.lastConfirmed, s.lastCreated)
    requires (t.assertions, t.stakedOn, t.zombies, t.numStakers) == (s.assertions, s.stakedOn, s.zombies, s.numStakers)
    ensures TreeInv(t)
  {
    assert |t.stakers| == |t.stakers.Keys| == |s.stakers.Keys| == |s.stakers|;
    forall a | Unresolved(t, a) ensures Counted(t, a) {
      CarriedCounted(s, t, a);
    }
  }

  /** A staker that moves within, or appears in, the resolved part does not concern `a`. */
  lemma {:induction false} NewcomerCounted(s: State, t: State, a: Id, x: Address)
    requires TreeInv(s) && Unresolved(s, a)
    requires x in s.stakers ==> s.stakers[x].assertionID < a
    requires x in t.stakers && t.stakers[x].assertionID < a && t.stakers.Keys == s.stakers.Keys + {x}
    requires forall y | y in s.stakers && y != x :: t.stakers[y].assertionID == s.stakers[y].assertionID
    requires forall i | a <= i <= s.lastCreated :: At(s.assertions, i).parent == At(t.assertions, i).parent
    requires At(s.assertions, a).numStakers == At(t.assertions, a).numStakers
    requires SetAt(s.stakedOn, a) == SetAt(t.stakedOn, a) && t.zombies == s.zombies
    ensures Counted(t, a)
  {
    hide Counted;
    forall y | y in s.stakers
      ensures Below(s.assertions, s.stakers[y].assertionID, a) == Below(t.assertions, s.stakers[y].assertionID, a)
    {
      BelowFrame(s.assertions, t.assertions, s.stakers[y].assertionID, a);
    }
    CarriedCounted(s, t, a);
  }

  /** The state after a new stake. */
  ghost predicate NewStake(s: State, t: State, x: Address, st: Staker, a: Assertion, flagged: set<Address>) {
    && x !in s.stakers && t.numStakers == s.numStakers + 1
    && st.assertionID == s.lastConfirmed && t.stakers == s.stakers[x := st]
    && a.parent == At(s.assertions, s.lastConfirmed).parent && t.assertions == s.assertions[s.lastConfirmed := a]
    && t.stakedOn == s.stakedOn[s.lastConfirmed := flagged]
    && t.lastResolved == s.lastResolved && t.lastConfirmed == s.lastConfirmed
    && t.lastCreated == s.lastCreated && t.zombies == s.zombies
  }

  /** What a new stake changes. */
  lemma {:induction false} StakeShape(s: State, x: Address, value: nat)
    requires x !in s.stakers && Stake(s, x, value).Some?
    ensures var a := At(s.assertions, s.lastConfirmed);
            var t := Stake(s, x, value).value;
            && t == s.(stakers := t.stakers, numStakers := s.numStakers + 1, balance := s.balance + value,
                       assertions := t.assertions, stakedOn := t.stakedOn)
            && NewStake(s, t, x, Staker(value, s.lastConfirmed, 0), a.(numStakers := a.numStakers + 1),
                        SetAt(s.stakedOn, s.lastConfirmed) + {x})
  {
    var first := s.stakers[x := Staker(value, 0, 0)];
    assert first[x := Staker(value, s.lastConfirmed, 0)] == s.stakers[x := Staker(value, s.lastConfirmed, 0)];
  }

  lemma {:induction false} StakeTree(s: State, sender: Address, value: nat)
    requires TreeInv(s) && Stake(s, sender, value).Some?
    ensures TreeInv(Stake(s, sender, value).value)
  {
    hide TreeInv, NewStake;
    var t := Stake(s, sender, value).value;
    if sender in s.stakers {
      SamePlaces(s, t);
    } else {
      var a := At(s.assertions, s.lastConfirmed);
      StakeShape(s, sender, value);
      hide Stake;
      NewStakeTree(s, t, sender, Staker(value, s.lastConfirmed, 0), a.(numStakers := a.numStakers + 1),
                   SetAt(s.stakedOn, s.lastConfirmed) + {sender});
    }
  }

  lemma {:induction false} NewStakeTree(s: State, t: State, x: Address, st: Staker, b: Assertion, flagged: set<Address>)
    requires TreeInv(s) && NewStake(s, t, x, st, b, flagged)
    ensures TreeInv(t)
  {
    hide Counted, NewStake;
    NewStakeBounds(s, t, x, st, b, flagged);
    forall a | Unresolved(t, a) ensures Counted(t, a) {
      NewStakeCounted(s, t, x, st, b, flagged, a);
    }
  }

  lemma {:induction false} NewStakeCounted(s: State, t: State, x: Address, st: Staker, b: Assertion,
                                           flagged: set<Address>, a: Id)
    requires TreeInv(s) && NewStake(s, t, x, st, b, flagged) && Unresolved(t, a)
    ensures Unresolved(s, a) && Counted(t, a)
  {
    assert s.lastConfirmed <= s.lastResolved;
    hide TreeInv, Counted;
    NewStakeStakers(s, t, x, st, b, flagged);
    NewStakeRecords(s, t, x, st, b, flagged, a);
    hide NewStake;
    NewcomerCounted(s, t, a, x);
  }

  lemma {:induction false} NewStakeStakers(s: State, t: State, x: Address, st: Staker, b: Assertion,
                                           flagged: set<Address>)
    requires NewStake(s, t, x, st, b, flagged)
    ensures x !in s.stakers && x in t.stakers && t.stakers[x].assertionID == s.lastConfirmed
    ensures t.stakers.Keys == s.stakers.Keys + {x}
    ensures forall y | y in s.stakers && y != x :: t.stakers[y].assertionID == s.stakers[y].assertionID
  {
  }

  lemma {:induction false} NewStakeRecords(s: State, t: State, x: Address, st: Staker, b: Assertion,
                                           flagged: set<Address>, a: Id)
    requires NewStake(s, t, x, st, b, flagged) && a > s.lastConfirmed
    ensures t.zombies == s.zombies && t.lastResolved == s.lastResolved && t.lastCreated == s.lastCreated
    ensures forall i | a <= i <= s.lastCreated :: At(s.assertions, i) == At(t.assertions, i)
    ensures SetAt(s.stakedOn, a) == SetAt(t.stakedOn, a)
    ensures At(s.assertions, a) == At(t.assertions, a)
  {
  }

  lemma {:induction false} NewStakeBounds(s: State, t: State, x: Address, st: Staker, b: Assertion,
                                          flagged: set<Address>)
    requires Bounds(s) && NewStake(s, t, x, st, b, flagged)
    ensures Bounds(t)
  {
    assert t.stakers.Keys == s.stakers.Keys + {x};
    assert |t.stakers| == |t.stakers.Keys|;
  }

  lemma {:induction false} RemoveStakeTree(s: State, x: Address, paid: bool)
    requires TreeInv(s) && RemoveStake(s, x, paid).Some?
    ensures TreeInv(RemoveStake(s, x, paid).value)
  {
    var t := RemoveStake(s, x, paid).value;
    assert t.stakers.Keys == s.stakers.Keys - {x};
    forall a | Unresolved(t, a) ensures Counted(t, a) {
      BelowUp(s.assertions, s.stakers[x].assertionID, a);
      CarriedCounted(s, t, a);
    }
  }

  lemma {:induction false} AdvanceCounted(s: State, x: Address, id: Id, a: Id)
    requires TreeInv(s) && AdvanceStake(s, x, id).Some? && Unresolved(s, a)
    ensures Counted(AdvanceStake(s, x, id).value, a)
  {
    hide Tallied, Flagged, Carried;
    var t := AdvanceStake(s, x, id).value;
    assert Counted(s, a);
    if a == id {
      JoinCounted(s, t, a, x);
    } else if id < a {
      assert t.stakers.Keys == s.stakers.Keys + {x};
      NewcomerCounted(s, t, a, x);
    } else {
      ClimbCarried(s, t, a, x, id);
      CarriedCounted(s, t, a);
    }
  }

  lemma {:induction false} AdvanceStakeTree(s: State, x: Address, id: Id)
    requires TreeInv(s) && AdvanceStake(s, x, id).Some?
    ensures TreeInv(AdvanceStake(s, x, id).value)
  {
    hide Counted;
    var t := AdvanceStake(s, x, id).value;
    assert t.stakers.Keys == s.stakers.Keys;
    assert |t.stakers| == |t.stakers.Keys|;
    forall a | Unresolved(t, a) ensures Counted(t, a) {
      AdvanceCounted(s, x, id, a);
    }
  }

  /** Moving from an assertion to its child changes nothing for assertions further up. */
  lemma {:induction false} ClimbCarried(s: State, t: State, a: Id, x: Address, id: Id)
    requires TreeInv(s) && Unresolved(s, a) && a < id
    requires x in s.stakers && At(t.assertions, id).parent == s.stakers[x].assertionID < id
    requires forall i | a <= i <= s.lastCreated :: At(s.assertions, i).parent == At(t.assertions, i).parent
    requires At(s.assertions, a).numStakers == At(t.assertions, a).numStakers
    requires SetAt(s.stakedOn, a) == SetAt(t.stakedOn, a) && t.zombies == s.zombies
    requires t.stakers == s.stakers[x := s.stakers[x].(assertionID := id)]
    ensures Carried(s, t, a)
  {
    forall y | y in s.stakers
      ensures Below(s.assertions, s.stakers[y].assertionID, a) == Below(t.assertions, s.stakers[y].assertionID, a)
    {
      BelowFrame(s.assertions, t.assertions, s.stakers[y].assertionID, a);
    }
    assert Below(t.assertions, id, a) == Below(t.assertions, s.stakers[x].assertionID, a);
  }

  lemma {:induction false} CreateCounted(s: State, x: Address, vmHash: nat, blockNum: nat, now: nat, a: Id)
    requires TreeInv(s) && CreateAssertion(s, x, vmHash, blockNum, now).Some?
    requires s.lastResolved < a <= s.lastCreated + 1
    ensures Counted(CreateAssertion(s, x, vmHash, blockNum, now).value, a)
  {
    hide Counted, Carried;
    var t := CreateAssertion(s, x, vmHash, blockNum, now).value;
    if a <= s.lastCreated {
      ClimbCarried(s, t, a, x, t.lastCreated);
      CarriedCounted(s, t, a);
    } else {
      FirstCounted(s, t, x);
    }
  }

  lemma {:induction false} CreateAssertionTree(s: State, x: Address, vmHash: nat, blockNum: nat, now: nat)
    requires TreeInv(s) && CreateAssertion(s, x, vmHash, blockNum, now).Some?
    ensures TreeInv(CreateAssertion(s, x, vmHash, blockNum, now).value)
  {
    hide Counted;
    var t := CreateAssertion(s, x, vmHash, blockNum, now).value;
    assert t.stakers.Keys == s.stakers.Keys;
    assert |t.stakers| == |t.stakers.Keys|;
    forall a | Unresolved(t, a) ensures Counted(t, a) {
      CreateCounted(s, x, vmHash, blockNum, now, a);
    }
  }

  /** The creator is the only one on a brand-new assertion. */
  lemma {:induction false} FirstCounted(s: State, t: State, x: Address)
    requires TreeInv(s) && x in s.stakers && t.lastCreated == s.lastCreated + 1 && t.zombies == s.zombies
    requires At(t.assertions, t.lastCreated).parent == s.stakers[x].assertionID
    requires At(t.assertions, t.lastCreated).numStakers == 1
    requires SetAt(t.stakedOn, t.lastCreated) == {x}
    requires t.stakers == s.stakers[x := s.stakers[x].(assertionID := t.lastCreated)]
    ensures Counted(t, t.lastCreated)
  {
    var id := t.lastCreated;
    forall d: Id | d < id ensures !Below(t.assertions, d, id) {
      BelowUp(t.assertions, d, id);
    }
    assert Standing(t.assertions, t.stakers, id) == {x};
    NoneFallen(t.assertions, t.zombies, id);
  }

  lemma {:induction false} NoneFallen(m: Assertions, zombies: seq<Zombie>, a: Id)
    requires forall z | z in zombies :: z.lastAssertionID < a
    ensures FallenCount(m, zombies, a) == 0
    ensures forall x :: !Fallen(m, zombies, a, x)
  {
    forall z | z in zombies ensures !Below(m, z.lastAssertionID, a) {
      BelowUp(m, z.lastAssertionID, a);
    }
    if zombies != [] {
      var front := zombies[..|zombies| - 1];
      assert forall z | z in front :: z in zombies;
      NoneFallen(m, front, a);
      assert zombies[|zombies| - 1] in zombies;
    }
  }

  lemma {:induction false} ResolveTree(s: State, t: State)
    requires TreeInv(s) && s.lastResolved < s.lastCreated && t.lastResolved == s.lastResolved + 1
    requires t.lastConfirmed == s.lastConfirmed || t.lastConfirmed == t.lastResolved
    requires t.lastCreated == s.lastCreated
    requires (t.stakers, t.numStakers, t.zombies, t.stakedOn) == (s.stakers, s.numStakers, s.zombies, s.stakedOn)
    requires t.assertions == s.assertions || t.assertions == s.assertions[t.lastResolved := NO_ASSERTION]
    ensures TreeInv(t)
  {
    forall a | Unresolved(t, a) ensures Counted(t, a) {
      forall d: Id ensures Below(s.assertions, d, a) == Below(t.assertions, d, a) {
        BelowFrame(s.assertions, t.assertions, d, a);
      }
      CarriedCounted(s, t, a);
    }
  }

  lemma {:induction false} CompleteTree(s: State, sender: Address, winner: Address, loser: Address)
    requires TreeInv(s) && CompleteChallenge(s, sender, winner, loser).Some?
    ensures TreeInv(CompleteChallenge(s, sender, winner, loser).value)
  {
    hide Counted;
    var t := CompleteChallenge(s, sender, winner, loser).value;
    assert t.stakers.Keys == s.stakers.Keys - {loser};
    assert |t.stakers| == |t.stakers.Keys| == |s.stakers.Keys| - 1;
    forall a | Unresolved(t, a) ensures Counted(t, a) {
      assert Counted(s, a);
      SlashCounted(s, t, a, loser);
    }
  }

  lemma {:induction false} StepTree(s: State, op: Op)
    requires TreeInv(s)
    ensures TreeInv(Step(s, op))
  {
    hide TreeInv;
    var t := Step(s, op);
    if t != s {
      match op
      case OpStake(sender, value) => StakeTree(s, sender, value);
      case OpUnstake(_, _, _) => SamePlaces(s, t);
      case OpRemoveStake(x, paid) => RemoveStakeTree(s, x, paid);
      case OpAdvanceStake(sender, id) => AdvanceStakeTree(s, sender, id);
      case OpWithdraw(_, _) => SamePlaces(s, t);
      case OpSetBaseStakeAmount(_) => SamePlaces(s, t);
      case OpCreateAssertion(sender, vmHash, blockNum, now) => CreateAssertionTree(s, sender, vmHash, blockNum, now);
      case OpConfirm(_) => ResolveTree(s, t);
      case OpReject(_, _) => ResolveTree(s, t);
      case OpChallenge(_, _, _, _, _) => SamePlaces(s, t);
      case OpComplete(sender, winner, loser) => CompleteTree(s, sender, winner, loser);
    }
  }
}
