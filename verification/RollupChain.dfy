/** The confirmed chain and the portal's test, in every run. */
module RollupChain {
  import opened Wrappers
  import opened Rollup
  import opened RollupTree
  import opened RollupResolution

  // ---------- the confirmed chain ----------

  /** The confirmed assertions form a chain of parent links that starts at the initial assertion
      and ends at the last confirmed one. */
  ghost predicate Chained(m: Assertions, confirmed: seq<Id>) {
    && confirmed != []
    && forall k | 0 < k < |confirmed| ::
         confirmed[k - 1] < confirmed[k] && At(m, confirmed[k]).parent == confirmed[k - 1]
  }

  /** Every resolved assertion is confirmed, or rejected and deleted. */
  ghost predicate Settled(s: State)
    requires s.confirmed != []
  {
    && s.lastConfirmed == s.confirmed[|s.confirmed| - 1]
    && (forall id | id in s.rejected ::
          && id <= s.lastResolved && id !in s.confirmed
          && At(s.assertions, id).stateHash == 0 && At(s.assertions, id).parent == 0)
    && (forall id | s.confirmed[0] <= id <= s.lastResolved :: id in s.confirmed || id in s.rejected)
  }

  /** Nothing refers to assertions before the initial one. */
  ghost predicate NotBefore(s: State, first: Id) {
    && (forall id | id in s.assertions :: first <= id)
    && (forall x | x in s.stakers :: first <= s.stakers[x].assertionID)
  }

  ghost predicate ChainInv(s: State) {
    && Chained(s.assertions, s.confirmed)
    && Settled(s)
    && NotBefore(s, s.confirmed[0])
  }

  lemma {:induction false} ChainBounds(m: Assertions, confirmed: seq<Id>, j: nat, k: nat)
    requires Chained(m, confirmed) && j <= k < |confirmed|
    ensures confirmed[j] <= confirmed[k] && (j < k ==> confirmed[j] < confirmed[k])
    decreases k
  {
    if j < k {
      ChainBounds(m, confirmed, j, k - 1);
    }
  }

  /** Resolved records keep parent and state hash. */
  ghost predicate RecordsKept(s: State, t: State) {
    forall id | 0 <= id <= s.lastResolved ::
      && At(t.assertions, id).parent == At(s.assertions, id).parent
      && At(t.assertions, id).stateHash == At(s.assertions, id).stateHash
  }

  lemma {:induction false} ChainedKept(m: Assertions, m': Assertions, confirmed: seq<Id>)
    requires Chained(m, confirmed)
    requires forall id | 0 <= id <= confirmed[|confirmed| - 1] :: At(m', id).parent == At(m, id).parent
    ensures Chained(m', confirmed)
  {
    forall k | 0 < k < |confirmed| ensures At(m', confirmed[k]).parent == confirmed[k - 1] {
      ChainBounds(m, confirmed, k, |confirmed| - 1);
    }
  }

  lemma {:induction false} ChainKept(s: State, t: State)
    requires Bounds(s) && ChainInv(s) && RecordsKept(s, t) && NotBefore(t, s.confirmed[0])
    requires (t.confirmed, t.rejected, t.lastConfirmed, t.lastResolved)
             == (s.confirmed, s.rejected, s.lastConfirmed, s.lastResolved)
    ensures ChainInv(t)
  {
    ChainedNonEmpty(s.assertions, s.confirmed);
    hide NotBefore, Chained;
    ChainedKept(s.assertions, t.assertions, s.confirmed);
  }

  lemma {:induction false} ChainedAppend(m: Assertions, confirmed: seq<Id>, id: Id)
    requires Chained(m, confirmed) && confirmed[|confirmed| - 1] < id && At(m, id).parent == confirmed[|confirmed| - 1]
    ensures Chained(m, confirmed + [id])
  {
    var all := confirmed + [id];
    forall k | 0 < k < |all| ensures all[k - 1] < all[k] && At(m, all[k]).parent == all[k - 1] {
    }
  }

  lemma {:induction false} ConfirmChain(s: State, now: nat)
    requires TreeInv(s) && ChainInv(s) && Confirm(s, now).Some?
    ensures ChainInv(Confirm(s, now).value)
  {
    hide Counted, Chained, CountStakedZombies;
    var t := Confirm(s, now).value;
    ChainedNonEmpty(s.assertions, s.confirmed);
    ChainedAppend(s.assertions, s.confirmed, s.lastResolved + 1);
    assert t.confirmed[0] == s.confirmed[0];
    assert forall i :: i in t.confirmed <==> i in s.confirmed || i == s.lastResolved + 1;
  }

  lemma {:induction false} ChainedNonEmpty(m: Assertions, confirmed: seq<Id>)
    requires Chained(m, confirmed)
    ensures confirmed != []
  {
  }

  lemma {:induction false} ConfirmedBelow(s: State, id: Id)
    requires ChainInv(s) && id in s.confirmed
    ensures s.confirmed[0] <= id <= s.lastConfirmed
  {
    var k :| 0 <= k < |s.confirmed| && s.confirmed[k] == id;
    ChainBounds(s.assertions, s.confirmed, k, |s.confirmed| - 1);
    ChainBounds(s.assertions, s.confirmed, 0, k);
  }

  lemma {:induction false} RejectChain(s: State, staker: Address, now: nat)
    requires Bounds(s) && ChainInv(s) && Reject(s, staker, now).Some?
    ensures ChainInv(Reject(s, staker, now).value)
  {
    hide Rejectable, Chained;
    ChainedNonEmpty(s.assertions, s.confirmed);
    ChainedKept(s.assertions, Reject(s, staker, now).value.assertions, s.confirmed);
    RejectSettled(s, staker, now);
    hide Settled;
    ChainBounds(s.assertions, s.confirmed, 0, |s.confirmed| - 1);
  }

  lemma {:induction false} RejectSettled(s: State, staker: Address, now: nat)
    requires Bounds(s) && ChainInv(s) && Reject(s, staker, now).Some?
    ensures s.confirmed != [] && Settled(Reject(s, staker, now).value)
  {
    hide Rejectable, Chained;
    ChainedNonEmpty(s.assertions, s.confirmed);
    forall id | id in s.confirmed ensures id <= s.lastConfirmed {
      ConfirmedBelow(s, id);
    }
  }

  lemma {:induction false} StakeOnKept(s: State, t: State, x: Address, id: Id, first: Id)
    requires x in s.stakers && t == StakeOn(s, x, id) && first <= id
    requires forall i | i in s.assertions :: first <= i
    requires forall y | y in s.stakers && y != x :: first <= s.stakers[y].assertionID
    ensures RecordsKept(s, t) && NotBefore(t, first)
  {
  }

  lemma {:induction false} StakeKept(s: State, sender: Address, value: nat, first: Id)
    requires NotBefore(s, first) && first <= s.lastConfirmed && Stake(s, sender, value).Some?
    ensures RecordsKept(s, Stake(s, sender, value).value) && NotBefore(Stake(s, sender, value).value, first)
  {
    if sender !in s.stakers {
      StakeShape(s, sender, value);
      hide Stake;
    }
  }

  lemma {:induction false} CreateKept(s: State, x: Address, vmHash: nat, blockNum: nat, now: nat, first: Id)
    requires NotBefore(s, first) && first <= s.lastCreated && s.lastResolved <= s.lastCreated
    requires CreateAssertion(s, x, vmHash, blockNum, now).Some?
    ensures var t := CreateAssertion(s, x, vmHash, blockNum, now).value; RecordsKept(s, t) && NotBefore(t, first)
  {
    hide StakeOn;
    var id := s.lastCreated + 1;
    var u := CreateHelper(s, id, vmHash, blockNum, s.stakers[x].assertionID, now).value.(lastCreated := id);
    StakeOnKept(u, StakeOn(u, x, id), x, id, first);
    assert RecordsKept(s, u);
  }

  lemma {:induction false} PlacesKept(s: State, t: State, first: Id)
    requires NotBefore(s, first) && t.assertions == s.assertions && t.stakers.Keys <= s.stakers.Keys
    requires forall x | x in t.stakers :: t.stakers[x].assertionID == s.stakers[x].assertionID
    ensures RecordsKept(s, t) && NotBefore(t, first)
  {
  }

  /** All other calls leave the tree alone and move nobody. */
  lemma {:induction false} TreeUntouched(s: State, op: Op, t: State)
    requires Apply(s, op) == Some(t)
    requires op.OpUnstake? || op.OpRemoveStake? || op.OpWithdraw? || op.OpSetBaseStakeAmount? || op.OpChallenge?
             || op.OpComplete?
    ensures (t.assertions, t.confirmed, t.rejected, t.lastConfirmed, t.lastResolved)
            == (s.assertions, s.confirmed, s.rejected, s.lastConfirmed, s.lastResolved)
    ensures t.stakers.Keys <= s.stakers.Keys
    ensures forall x | x in t.stakers :: t.stakers[x].assertionID == s.stakers[x].assertionID
  {
  }

  lemma {:induction false} OtherChain(s: State, op: Op, t: State)
    requires TreeInv(s) && ChainInv(s) && !op.OpConfirm? && !op.OpReject?
    requires Feasible(s, op) && Apply(s, op) == Some(t)
    ensures ChainInv(t)
  {
    var first := s.confirmed[0];
    ChainBounds(s.assertions, s.confirmed, 0, |s.confirmed| - 1);
    OtherKept(s, op, t, first);
    hide Apply, ChainInv, RecordsKept, NotBefore, Counted;
    ChainKept(s, t);
  }

  lemma {:induction false} OtherKept(s: State, op: Op, t: State, first: Id)
    requires Bounds(s) && NotBefore(s, first) && first <= s.lastConfirmed && !op.OpConfirm? && !op.OpReject?
    requires Apply(s, op) == Some(t)
    ensures RecordsKept(s, t) && NotBefore(t, first)
    ensures (t.confirmed, t.rejected, t.lastConfirmed, t.lastResolved)
            == (s.confirmed, s.rejected, s.lastConfirmed, s.lastResolved)
  {
    hide NotBefore, RecordsKept;
    match op {
      case OpStake(sender, value) => StakeKept(s, sender, value, first);
      case OpAdvanceStake(sender, id) => AdvanceKept(s, sender, id, first);
      case OpCreateAssertion(sender, vmHash, blockNum, now) => CreateKept(s, sender, vmHash, blockNum, now, first);
      case _ =>
        TreeUntouched(s, op, t);
        PlacesKept(s, t, first);
    }
  }

  lemma {:induction false} AdvanceKept(s: State, sender: Address, id: Id, first: Id)
    requires NotBefore(s, first) && AdvanceStake(s, sender, id).Some?
    ensures var t := AdvanceStake(s, sender, id).value; RecordsKept(s, t) && NotBefore(t, first)
  {
    StakeOnKept(s, StakeOn(s, sender, id), sender, id, first);
  }

  lemma {:induction false} StepChain(s: State, op: Op)
    requires TreeInv(s) && ChainInv(s)
    ensures ChainInv(Step(s, op))
  {
    hide ChainInv, Counted;
    if Feasible(s, op) && Apply(s, op).Some? {
      match op
      case OpConfirm(now) => ConfirmChain(s, now);
      case OpReject(staker, now) => RejectChain(s, staker, now);
      case _ => OtherChain(s, op, Apply(s, op).value);
    }
  }

  lemma {:induction false} RunChain(s0: State, ops: seq<Op>)
    requires Initial(s0)
    ensures TreeInv(Run(s0, ops)) && ChainInv(Run(s0, ops))
  {
    hide TreeInv;
    InitialTree(s0);
    RunTree(s0, ops);
    if ops != [] {
      var front := ops[..|ops| - 1];
      RunChain(s0, front);
      StepChain(Run(s0, front), ops[|ops| - 1]);
    }
  }

  /** In every run: the confirmed assertions form one parent-linked chain from the initial
      assertion to the last confirmed one, with no two confirmed siblings. */
  lemma {:induction false} ConfirmedChain(s0: State, ops: seq<Op>)
    requires Initial(s0)
    ensures var s := Run(s0, ops);
            && Chained(s.assertions, s.confirmed)
            && s.confirmed[0] == s0.lastConfirmed && s.confirmed[|s.confirmed| - 1] == s.lastConfirmed
            && forall j, k | 0 < j < k < |s.confirmed| ::
                 At(s.assertions, s.confirmed[j]).parent != At(s.assertions, s.confirmed[k]).parent
  {
    RunChain(s0, ops);
    FirstConfirmed(s0, ops);
    var s := Run(s0, ops);
    hide Run, TreeInv, Initial;
    forall j, k | 0 < j < k < |s.confirmed|
      ensures At(s.assertions, s.confirmed[j]).parent != At(s.assertions, s.confirmed[k]).parent
    {
      ChainBounds(s.assertions, s.confirmed, j - 1, k - 1);
    }
  }

  lemma {:induction false} FirstConfirmed(s0: State, ops: seq<Op>)
    requires Initial(s0)
    ensures Run(s0, ops).confirmed != [] && Run(s0, ops).confirmed[0] == s0.lastConfirmed
  {
    if ops != [] {
      FirstConfirmed(s0, ops[..|ops| - 1]);
      StepConfirmed(Run(s0, ops[..|ops| - 1]), ops[|ops| - 1]);
    }
  }

  lemma {:induction false} StepConfirmed(s: State, op: Op)
    ensures s.confirmed <= Step(s, op).confirmed
  {
  }

  /** In every run: the portal's test accepts exactly the initial and the confirmed assertions
      with a non-zero state hash; in particular never a rejected one. */
  lemma {:induction false} PortalExact(s0: State, ops: seq<Op>, id: Id)
    requires Initial(s0)
    ensures var s := Run(s0, ops);
            && (PortalAccepts(s, id) <==> id in s.confirmed && At(s.assertions, id).stateHash != 0)
            && (id in s.rejected ==> !PortalAccepts(s, id))
  {
    RunChain(s0, ops);
    var s := Run(s0, ops);
    hide Run, Counted, Initial;
    if id in s.confirmed {
      ConfirmedBelow(s, id);
    }
  }
}
