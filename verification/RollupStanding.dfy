/** Where stakers can be: on the last confirmed assertion or on unresolved ones above it. What rejection
    does to them, and the ways in which a staker can still get lost. */
module RollupStanding {
  import opened Wrappers
  import opened Rollup
  import opened RollupTree
  import opened RollupResolution
  import opened RollupChain

  // ---------- nobody falls behind ----------

  /** No staker is behind the last confirmed assertion. */
  ghost predicate UpToDate(s: State) {
    forall x | x in s.stakers :: s.lastConfirmed <= s.stakers[x].assertionID
  }

  lemma {:induction false} ConfirmUpToDate(s: State, now: nat)
    requires TreeInv(s) && Confirmable(s, now)
    ensures forall x | x in s.stakers :: s.lastResolved + 1 <= s.stakers[x].assertionID
  {
    hide Confirmable, TreeInv;
    forall x | x in s.stakers ensures s.lastResolved + 1 <= s.stakers[x].assertionID {
      ConfirmableStanding(s, now, x);
      BelowUp(s.assertions, s.stakers[x].assertionID, s.lastResolved + 1);
    }
  }

  /** The confirmed assertion stays, and nobody ends up behind it. */
  lemma {:induction false} MovesUp(s: State, t: State)
    requires UpToDate(s) && t.lastConfirmed == s.lastConfirmed
    requires forall y | y in t.stakers ::
               || t.stakers[y].assertionID >= s.lastConfirmed
               || (y in s.stakers && t.stakers[y].assertionID == s.stakers[y].assertionID)
    ensures UpToDate(t)
  {
  }

  lemma {:induction false} StakeUp(s: State, x: Address, value: nat)
    requires UpToDate(s) && Stake(s, x, value).Some?
    ensures UpToDate(Stake(s, x, value).value)
  {
    MovesUp(s, Stake(s, x, value).value);
  }

  lemma {:induction false} CreateUp(s: State, x: Address, vmHash: nat, blockNum: nat, now: nat)
    requires Bounds(s) && UpToDate(s) && CreateAssertion(s, x, vmHash, blockNum, now).Some?
    ensures UpToDate(CreateAssertion(s, x, vmHash, blockNum, now).value)
  {
    MovesUp(s, CreateAssertion(s, x, vmHash, blockNum, now).value);
  }

  lemma {:induction false} StepUpToDate(s: State, op: Op)
    requires TreeInv(s) && UpToDate(s)
    ensures UpToDate(Step(s, op))
  {
    hide Confirmable, Rejectable, Counted, Stake, CreateAssertion;
    if Feasible(s, op) && Apply(s, op).Some? {
      match op
      case OpStake(x, value) => StakeUp(s, x, value);
      case OpCreateAssertion(x, vmHash, blockNum, now) => CreateUp(s, x, vmHash, blockNum, now);
      case OpConfirm(now) => ConfirmUpToDate(s, now);
      case _ => MovesUp(s, Step(s, op));
    }
  }

  /** In every run, slashed addresses staking again or not: a staker not above the last confirmed
      assertion is on it. So the tests of `unstake` and `removeStake` mean what they say. */
  lemma {:induction false} OnConfirmed(s0: State, ops: seq<Op>, x: Address)
    requires Initial(s0) && x in Run(s0, ops).stakers
    ensures var s := Run(s0, ops);
            && s.lastConfirmed <= s.stakers[x].assertionID
            && (s.stakers[x].assertionID <= s.lastConfirmed <==>
                  s.stakers[x].assertionID == s.lastConfirmed && s.lastConfirmed in s.confirmed)
  {
    hide TreeInv;
    RunUpToDate(s0, ops);
    RunChain(s0, ops);
    var s := Run(s0, ops);
    ChainedNonEmpty(s.assertions, s.confirmed);
    assert s.lastConfirmed == s.confirmed[|s.confirmed| - 1];
  }

  lemma {:induction false} RunUpToDate(s0: State, ops: seq<Op>)
    requires Initial(s0)
    ensures UpToDate(Run(s0, ops)) && TreeInv(Run(s0, ops))
  {
    hide TreeInv;
    InitialTree(s0);
    RunTree(s0, ops);
    if ops != [] {
      RunUpToDate(s0, ops[..|ops| - 1]);
      StepUpToDate(Run(s0, ops[..|ops| - 1]), ops[|ops| - 1]);
    }
  }

  // ---------- rooted ----------

  /** From `d`, parent links lead to `root` through assertions after `resolved` only. */
  predicate Rooted(m: Assertions, d: Id, root: Id, resolved: Id)
    decreases d
  {
    d == root || (d > resolved && At(m, d).parent < d && Rooted(m, At(m, d).parent, root, resolved))
  }

  lemma {:induction false} RootedFrame(m: Assertions, m': Assertions, d: Id, root: Id, resolved: Id)
    requires forall id | resolved < id <= d :: At(m, id).parent == At(m', id).parent
    ensures Rooted(m, d, root, resolved) == Rooted(m', d, root, resolved)
    decreases d
  {
    if d != root && d > resolved && At(m, d).parent < d {
      RootedFrame(m, m', At(m, d).parent, root, resolved);
    }
  }

  lemma {:induction false} RootedChild(m: Assertions, d: Id, root: Id, resolved: Id)
    requires d > resolved && At(m, d).parent < d && Rooted(m, At(m, d).parent, root, resolved)
    ensures Rooted(m, d, root, resolved)
  {
  }

  lemma {:induction false} RootedSelf(m: Assertions, root: Id, resolved: Id)
    ensures Rooted(m, root, root, resolved)
  {
  }

  /** Everyone who is staked is rooted in the last confirmed assertion. */
  ghost predicate Anchored(s: State) {
    forall x | x in s.stakers :: Rooted(s.assertions, s.stakers[x].assertionID, s.lastConfirmed, s.lastResolved)
  }

  /** Below the confirmed assertion means rooted in it. */
  lemma {:induction false} BelowRooted(m: Assertions, d: Id, a: Id)
    requires Below(m, d, a)
    ensures Rooted(m, d, a, a)
    decreases d
  {
    if d != a {
      BelowRooted(m, At(m, d).parent, a);
    }
  }

  /** A rooted position at or below the first unresolved assertion needs that assertion to be a child of
      the root. */
  lemma {:induction false} RootedBelow(m: Assertions, d: Id, a: Id, root: Id)
    requires a > root && Rooted(m, d, root, a - 1) && Below(m, d, a)
    ensures At(m, a).parent == root
    decreases d
  {
    if d != a {
      RootedBelow(m, At(m, d).parent, a, root);
    }
  }

  /** A rooted position that is not below the first unresolved assertion stays rooted without it. */
  lemma {:induction false} RootedWithout(m: Assertions, d: Id, a: Id, root: Id)
    requires a > root && Rooted(m, d, root, a - 1) && !Below(m, d, a)
    ensures Rooted(m[a := NO_ASSERTION], d, root, a)
    decreases d
  {
    if d != root {
      RootedWithout(m, At(m, d).parent, a, root);
    }
  }

  // ---------- rejection ----------

  /** What a rejection of either kind does: nobody who is rooted stands on the rejected assertion, unless
      it is a child of the last confirmed one and its zombie count is inexact. */
  lemma {:induction false} RejectStrands(s: State, staker: Address, now: nat)
    requires TreeInv(s) && Anchored(s) && Rejectable(s, staker, now)
    ensures var a := s.lastResolved + 1;
            (forall x | x in s.stakers :: !Below(s.assertions, s.stakers[x].assertionID, a)) <==>
            (At(s.assertions, a).parent == s.lastConfirmed ==> ZombiesExact(s, a))
  {
    var a := s.lastResolved + 1;
    if At(s.assertions, a).parent == s.lastConfirmed {
      RejectExact(s, a);
    } else {
      forall x | x in s.stakers ensures !Below(s.assertions, s.stakers[x].assertionID, a) {
        if Below(s.assertions, s.stakers[x].assertionID, a) {
          RootedBelow(s.assertions, s.stakers[x].assertionID, a, s.lastConfirmed);
        }
      }
    }
  }

  // ---------- steps ----------

  /** Neither restaking after a slash nor a step onto a resolved assertion. */
  ghost predicate Orderly(s: State, op: Op) {
    && (op.OpStake? ==> forall z | z in s.zombies :: z.stakerAddress != op.sender)
    && (op.OpAdvanceStake? ==> op.id > s.lastResolved)
  }

  lemma {:induction false} RejectAnchored(s: State, staker: Address, now: nat)
    requires TreeInv(s) && Buried(s) && Anchored(s) && Reject(s, staker, now).Some?
    ensures Anchored(Reject(s, staker, now).value)
  {
    var a := s.lastResolved + 1;
    BuriedExact(s, a);
    RejectStrands(s, staker, now);
    hide Rejectable, Below, Rooted;
    forall x | x in s.stakers
      ensures Rooted(s.assertions[a := NO_ASSERTION], s.stakers[x].assertionID, s.lastConfirmed, a)
    {
      RootedWithout(s.assertions, s.stakers[x].assertionID, a, s.lastConfirmed);
    }
  }

  lemma {:induction false} ConfirmAnchored(s: State, now: nat)
    requires TreeInv(s) && Confirm(s, now).Some?
    ensures Anchored(Confirm(s, now).value)
  {
    hide Confirmable, TreeInv, Below, Rooted;
    forall x | x in s.stakers
      ensures Rooted(s.assertions, s.stakers[x].assertionID, s.lastResolved + 1, s.lastResolved + 1)
    {
      ConfirmableStanding(s, now, x);
      BelowRooted(s.assertions, s.stakers[x].assertionID, s.lastResolved + 1);
    }
  }

  /** Everyone but `x` stays put, the tree above the resolved part keeps its links, and `x`, if staked
      afterwards, is rooted. */
  lemma {:induction false} OthersAnchored(s: State, t: State, x: Address)
    requires Bounds(s) && Anchored(s)
    requires (t.lastConfirmed, t.lastResolved) == (s.lastConfirmed, s.lastResolved)
    requires forall id | s.lastResolved < id <= s.lastCreated ::
               At(t.assertions, id).parent == At(s.assertions, id).parent
    requires forall y | y in t.stakers && y != x ::
               y in s.stakers && t.stakers[y].assertionID == s.stakers[y].assertionID
    requires x in t.stakers ==> Rooted(t.assertions, t.stakers[x].assertionID, t.lastConfirmed, t.lastResolved)
    ensures Anchored(t)
  {
    hide Rooted;
    forall y | y in t.stakers
      ensures Rooted(t.assertions, t.stakers[y].assertionID, t.lastConfirmed, t.lastResolved)
    {
      if y != x {
        RootedFrame(s.assertions, t.assertions, s.stakers[y].assertionID, s.lastConfirmed, s.lastResolved);
      }
    }
  }

  lemma {:induction false} StakeAnchored(s: State, x: Address, value: nat)
    requires Bounds(s) && Anchored(s) && Stake(s, x, value).Some?
    ensures Anchored(Stake(s, x, value).value)
  {
    hide Bounds, Anchored, NewStake;
    var t := Stake(s, x, value).value;
    if x in s.stakers {
      SameAnchored(s, t);
    } else {
      var a := At(s.assertions, s.lastConfirmed);
      StakeShape(s, x, value);
      hide Stake;
      NewStakeAnchored(s, t, x, Staker(value, s.lastConfirmed, 0), a.(numStakers := a.numStakers + 1),
                       SetAt(s.stakedOn, s.lastConfirmed) + {x});
    }
  }

  lemma {:induction false} NewStakeAnchored(s: State, t: State, x: Address, st: Staker, a: Assertion,
                                            flagged: set<Address>)
    requires Bounds(s) && Anchored(s) && NewStake(s, t, x, st, a, flagged)
    ensures Anchored(t)
  {
    hide Rooted, Anchored;
    RootedSelf(t.assertions, s.lastConfirmed, s.lastResolved);
    OthersAnchored(s, t, x);
  }

  lemma {:induction false} AdvanceAnchored(s: State, x: Address, id: Id)
    requires Bounds(s) && Anchored(s) && AdvanceStake(s, x, id).Some? && id > s.lastResolved
    ensures Anchored(AdvanceStake(s, x, id).value)
  {
    hide Rooted;
    var t := AdvanceStake(s, x, id).value;
    RootedFrame(s.assertions, t.assertions, s.stakers[x].assertionID, s.lastConfirmed, s.lastResolved);
    RootedChild(t.assertions, id, s.lastConfirmed, s.lastResolved);
    OthersAnchored(s, t, x);
  }

  lemma {:induction false} CreateAnchored(s: State, x: Address, vmHash: nat, blockNum: nat, now: nat)
    requires Bounds(s) && Anchored(s) && CreateAssertion(s, x, vmHash, blockNum, now).Some?
    ensures Anchored(CreateAssertion(s, x, vmHash, blockNum, now).value)
  {
    hide Rooted;
    var t := CreateAssertion(s, x, vmHash, blockNum, now).value;
    RootedFrame(s.assertions, t.assertions, s.stakers[x].assertionID, s.lastConfirmed, s.lastResolved);
    RootedChild(t.assertions, s.lastCreated + 1, s.lastConfirmed, s.lastResolved);
    OthersAnchored(s, t, x);
  }

  /** Calls that move nobody and leave the tree alone. */
  lemma {:induction false} SameAnchored(s: State, t: State)
    requires Anchored(s)
    requires (t.lastConfirmed, t.lastResolved, t.assertions) == (s.lastConfirmed, s.lastResolved, s.assertions)
    requires forall y | y in t.stakers :: y in s.stakers && t.stakers[y].assertionID == s.stakers[y].assertionID
    ensures Anchored(t)
  {
  }

  lemma {:induction false} StepAnchored(s: State, op: Op)
    requires TreeInv(s) && Buried(s) && Anchored(s) && Orderly(s, op)
    ensures Anchored(Step(s, op))
  {
    hide Counted, Anchored, Confirmable, Rejectable;
    if Feasible(s, op) && Apply(s, op).Some? {
      match op
      case OpStake(x, value) => StakeAnchored(s, x, value);
      case OpAdvanceStake(x, id) => AdvanceAnchored(s, x, id);
      case OpCreateAssertion(x, vmHash, blockNum, now) => CreateAnchored(s, x, vmHash, blockNum, now);
      case OpConfirm(now) => ConfirmAnchored(s, now);
      case OpReject(staker, now) => RejectAnchored(s, staker, now);
      case _ => SameAnchored(s, Step(s, op));
    }
  }

  // ---------- runs ----------

  ghost predicate OrderlyRun(s: State, ops: seq<Op>)
    decreases |ops|
  {
    ops == [] || (OrderlyRun(s, ops[..|ops| - 1]) && Orderly(Run(s, ops[..|ops| - 1]), ops[|ops| - 1]))
  }

  lemma {:induction false} RunAnchored(s0: State, ops: seq<Op>)
    requires Initial(s0) && OrderlyRun(s0, ops)
    ensures Anchored(Run(s0, ops)) && Buried(Run(s0, ops)) && TreeInv(Run(s0, ops))
  {
    InitialTree(s0);
    InitialBuried(s0);
    RunTree(s0, ops);
    if ops != [] {
      hide Initial, TreeInv, Buried, Anchored;
      var front, op := ops[..|ops| - 1], ops[|ops| - 1];
      RunAnchored(s0, front);
      StepBuried(Run(s0, front), op);
      StepAnchored(Run(s0, front), op);
    }
  }

  /** In every orderly run, every staker reaches the last confirmed assertion through unresolved ones,
      and no rejection, of a child of the last confirmed assertion or of any other, strands a staker. */
  lemma {:induction false} NobodyStranded(s0: State, ops: seq<Op>, staker: Address, now: nat, x: Address)
    requires Initial(s0) && OrderlyRun(s0, ops) && x in Run(s0, ops).stakers
    ensures var s := Run(s0, ops);
            && Rooted(s.assertions, s.stakers[x].assertionID, s.lastConfirmed, s.lastResolved)
            && (Rejectable(s, staker, now) ==> !Below(s.assertions, s.stakers[x].assertionID, s.lastResolved + 1))
  {
    hide Initial, Run, TreeInv, Buried, Rooted, Below, Rejectable;
    RunAnchored(s0, ops);
    var s := Run(s0, ops);
    if Rejectable(s, staker, now) {
      RejectableUnresolved(s, staker, now);
      BuriedExact(s, s.lastResolved + 1);
      RejectStrands(s, staker, now);
    }
  }

  lemma {:induction false} RejectableUnresolved(s: State, staker: Address, now: nat)
    requires Rejectable(s, staker, now)
    ensures Unresolved(s, s.lastResolved + 1)
  {
  }

  // ---------- stepping onto a rejected assertion ----------

  /** Rejection deletes the record, so that the parent reads as 0: `advanceStake` lets a staker onto a
      rejected assertion if and only if the staker is on assertion 0. That takes an initial assertion 0
      and no confirmation so far. */
  lemma {:induction false} StepOntoRejected(s0: State, ops: seq<Op>, x: Address, id: Id)
    requires Initial(s0) && x in Run(s0, ops).stakers && id in Run(s0, ops).rejected
    ensures var s := Run(s0, ops); AdvanceStake(s, x, id).Some? <==> s.stakers[x].assertionID == 0 && id > 0
    ensures AdvanceStake(Run(s0, ops), x, id).Some? ==> s0.lastConfirmed == 0 == Run(s0, ops).lastConfirmed
  {
    RunChain(s0, ops);
    RunUpToDate(s0, ops);
    FirstConfirmed(s0, ops);
    hide TreeInv, Run, Initial;
    var s := Run(s0, ops);
    RunBounds(s);
    ChainedNonEmpty(s.assertions, s.confirmed);
    ChainBounds(s.assertions, s.confirmed, 0, |s.confirmed| - 1);
  }

  lemma {:induction false} RunBounds(s: State)
    requires TreeInv(s)
    ensures Bounds(s)
  {
  }
}
