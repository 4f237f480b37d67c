/** What the contract remembers of an assertion is what its creator proposed, and when; nothing is resolved
    before its confirmation period is over. */
module RollupRecords {
  import opened Wrappers
  import opened Rollup
  import opened RollupTree
  import opened RollupResolution
  import opened RollupChain

  // ---------- records do not change ----------

  /** The same proposal: everything but the counters that later calls update. Read as written, a first
      child also overwrites the block number. */
  predicate SameProposal(reading: Reading, a: Assertion, b: Assertion) {
    && a.stateHash == b.stateHash && a.parent == b.parent
    && a.deadline == b.deadline && a.proposalTime == b.proposalTime
    && (reading.AsDocumented? ==> a.blockNum == b.blockNum)
  }

  /** `id` exists and is the proposal `a`, unless it was rejected. */
  ghost predicate Stands(s: State, id: Id, a: Assertion) {
    id <= s.lastCreated && (id in s.rejected || SameProposal(s.reading, At(s.assertions, id), a))
  }

  /** Calls that only count stakers. */
  ghost predicate OnlyCounts(s: State, t: State) {
    && (forall id: Id :: At(t.assertions, id) == At(s.assertions, id).(numStakers := At(t.assertions, id).numStakers))
    && t.childHashes == s.childHashes && t.rejected == s.rejected && t.lastCreated == s.lastCreated
    && t.reading == s.reading && t.confirmationPeriod == s.confirmationPeriod
    && t.minimumAssertionPeriod == s.minimumAssertionPeriod
  }

  lemma {:induction false} StakeOnCounts(s: State, x: Address, id: Id)
    requires x in s.stakers
    ensures OnlyCounts(s, StakeOn(s, x, id))
  {
  }

  lemma {:induction false} StakeCounts(s: State, x: Address, value: nat)
    requires Stake(s, x, value).Some?
    ensures OnlyCounts(s, Stake(s, x, value).value)
  {
    if x !in s.stakers {
      var u := s.(stakers := s.stakers[x := Staker(value, 0, 0)], numStakers := s.numStakers + 1,
                  balance := s.balance + value);
      StakeOnCounts(u, x, s.lastConfirmed);
    }
  }

  lemma {:induction false} StepCounts(s: State, op: Op)
    requires !op.OpCreateAssertion? && !op.OpReject?
    ensures OnlyCounts(s, Step(s, op))
  {
    hide Stake, StakeOn, Confirmable;
    if Feasible(s, op) && Apply(s, op).Some? {
      match op
      case OpStake(x, value) => StakeCounts(s, x, value);
      case OpAdvanceStake(x, id) => StakeOnCounts(s, x, id);
      case _ =>
    }
  }

  /** The assertion that the call of `x` proposes. */
  function Proposal(s: State, x: Address, vmHash: nat, blockNum: nat, now: nat): Assertion
    requires x in s.stakers
  {
    Assertion(vmHash, blockNum, s.stakers[x].assertionID, now + s.confirmationPeriod, now, 0, 0)
  }

  /** What creating an assertion does: a new record, made of the creator's position, the proposal and the
      current block; the parent remembers its children. */
  ghost predicate Creates(s: State, t: State, x: Address, vmHash: nat, blockNum: nat, now: nat) {
    && x in s.stakers && t.lastCreated == s.lastCreated + 1 && t.rejected == s.rejected
    && t.reading == s.reading && t.confirmationPeriod == s.confirmationPeriod
    && t.minimumAssertionPeriod == s.minimumAssertionPeriod
    && var p := s.stakers[x].assertionID;
       && SameProposal(s.reading, At(t.assertions, t.lastCreated), Proposal(s, x, vmHash, blockNum, now))
       && At(t.assertions, t.lastCreated).childBlockNum == 0
       && SetAt(t.childHashes, p) == SetAt(s.childHashes, p) + {vmHash}
       && (forall q: Id | q != p :: SetAt(t.childHashes, q) == SetAt(s.childHashes, q))
       && (forall id: Id | id != p && id != t.lastCreated :: At(t.assertions, id) == At(s.assertions, id))
       && (p <= s.lastCreated ==> SameProposal(s.reading, At(t.assertions, p), At(s.assertions, p)))
  }

  lemma {:induction false} CreateCreates(s: State, x: Address, vmHash: nat, blockNum: nat, now: nat)
    requires CreateAssertion(s, x, vmHash, blockNum, now).Some?
    ensures Creates(s, CreateAssertion(s, x, vmHash, blockNum, now).value, x, vmHash, blockNum, now)
  {
  }

  lemma {:induction false} StepStands(s: State, op: Op, id: Id, a: Assertion)
    requires Bounds(s) && Stands(s, id, a)
    ensures Stands(Step(s, op), id, a) && Step(s, op).reading == s.reading
    ensures Step(s, op).confirmationPeriod == s.confirmationPeriod
    ensures Step(s, op).minimumAssertionPeriod == s.minimumAssertionPeriod
  {
    hide CreateAssertion, Rejectable, Confirmable, StakeOn, Stake;
    if op.OpCreateAssertion? {
      if Apply(s, op).Some? {
        CreateCreates(s, op.sender, op.vmHash, op.blockNum, op.now);
      }
    } else if !op.OpReject? {
      StepCounts(s, op);
      hide Step;
    }
  }

  lemma {:induction false} RunStands(s: State, ops: seq<Op>, id: Id, a: Assertion)
    requires TreeInv(s) && Stands(s, id, a)
    ensures Stands(Run(s, ops), id, a)
  {
    hide TreeInv, Stands, Step;
    if ops != [] {
      var front := ops[..|ops| - 1];
      RunStands(s, front, id, a);
      RunTree(s, front);
      TreeIsBounded(Run(s, front));
      StepStands(Run(s, front), ops[|ops| - 1], id, a);
    }
  }

  lemma {:induction false} TreeIsBounded(s: State)
    requires TreeInv(s)
    ensures Bounds(s)
  {
  }

  lemma {:induction false} RunPeriod(s: State, ops: seq<Op>)
    requires TreeInv(s)
    ensures Run(s, ops).confirmationPeriod == s.confirmationPeriod && Run(s, ops).reading == s.reading
    ensures Run(s, ops).minimumAssertionPeriod == s.minimumAssertionPeriod
  {
    hide TreeInv, Step;
    if ops != [] {
      var front := ops[..|ops| - 1];
      RunPeriod(s, front);
      RunTree(s, front);
      var h := Run(s, front);
      TreeIsBounded(h);
      StepStands(h, ops[|ops| - 1], h.lastCreated, At(h.assertions, h.lastCreated));
    }
  }

  lemma {:induction false} RunSplit(s: State, ops: seq<Op>, more: seq<Op>)
    ensures Run(s, ops + more) == Run(Run(s, ops), more)
    decreases |more|
  {
    hide Step;
    if more == [] {
      assert ops + more == ops;
    } else {
      var all, front := ops + more, more[..|more| - 1];
      assert all[..|all| - 1] == ops + front && all[|all| - 1] == more[|more| - 1];
      RunSplit(s, ops, front);
    }
  }

  /** An accepted call that creates assertion `id`. */
  ghost predicate CreatesAt(s: State, op: Op, id: Id) {
    op.OpCreateAssertion? && Apply(s, op).Some? && id == s.lastCreated + 1
  }

  /** In every run, from the call that created it on and unless it is rejected: the record of an assertion
      is the creator's position at that call, its state hash and block, and the block of the call. */
  lemma {:induction false} StandsAsProposed(s0: State, ops: seq<Op>, i: nat, id: Id)
    requires Initial(s0) && i < |ops| && CreatesAt(Run(s0, ops[..i]), ops[i], id)
    ensures var s := Run(s0, ops[..i]);
            && ops[i].sender in s.stakers
            && Stands(Run(s0, ops), id, Proposal(s, ops[i].sender, ops[i].vmHash, ops[i].blockNum, ops[i].now))
            && s.confirmationPeriod == s0.confirmationPeriod
  {
    hide Run, Step, Apply, Stands, TreeInv, Initial, CreatesAt;
    var s, op := Run(s0, ops[..i]), ops[i];
    InitialTree(s0);
    RunTree(s0, ops[..i]);
    RunPeriod(s0, ops[..i]);
    ChainBelow(s0, ops[..i]);
    ProposalStands(s, op, id);
    StepTree(s, op);
    assert ops == ops[..i] + [op] + ops[i + 1..];
    RunSplit(s0, ops[..i] + [op], ops[i + 1..]);
    RunLast(s0, ops[..i], op);
    RunStands(Step(s, op), ops[i + 1..], id, Proposal(s, op.sender, op.vmHash, op.blockNum, op.now));
  }

  lemma {:induction false} RunLast(s: State, ops: seq<Op>, op: Op)
    ensures Run(s, ops + [op]) == Step(Run(s, ops), op)
  {
    assert (ops + [op])[..|ops|] == ops;
  }

  lemma {:induction false} ProposalStands(s: State, op: Op, id: Id)
    requires CreatesAt(s, op, id) && forall r | r in s.rejected :: r <= s.lastResolved
    requires s.lastResolved <= s.lastCreated
    ensures op.OpCreateAssertion? && op.sender in s.stakers
    ensures Stands(Step(s, op), id, Proposal(s, op.sender, op.vmHash, op.blockNum, op.now))
  {
    CreateCreates(s, op.sender, op.vmHash, op.blockNum, op.now);
    hide CreateAssertion;
  }

  /** Only resolved assertions are rejected. */
  lemma {:induction false} ChainBelow(s0: State, ops: seq<Op>)
    requires Initial(s0)
    ensures forall id | id in Run(s0, ops).rejected :: id <= Run(s0, ops).lastResolved
    ensures Run(s0, ops).lastResolved <= Run(s0, ops).lastCreated
  {
    hide Counted;
    RunChain(s0, ops);
  }

  /** An accepted call that confirms `id`, or rejects it as a child of the last confirmed assertion. */
  ghost predicate ResolvesAt(s: State, op: Op, id: Id) {
    && id == s.lastResolved + 1
    && (|| (op.OpConfirm? && Confirm(s, op.now).Some?)
        || (op.OpReject? && Reject(s, op.staker, op.now).Some? && At(s.assertions, id).parent == s.lastConfirmed))
  }

  /** In every run: between the call that creates an assertion and the call that confirms it, or rejects it
      as a child of the last confirmed one, lies at least the confirmation period; and what is confirmed is
      what was proposed, on the assertion on which the proposer was staked. */
  lemma {:induction false} ResolvedInTime(s0: State, ops: seq<Op>, i: nat, j: nat, id: Id)
    requires Initial(s0) && i < j < |ops|
    requires CreatesAt(Run(s0, ops[..i]), ops[i], id) && ResolvesAt(Run(s0, ops[..j]), ops[j], id)
    ensures ops[j].now >= ops[i].now + s0.confirmationPeriod
    ensures var s, a := Run(s0, ops[..i]), At(Run(s0, ops[..j]).assertions, id);
            && ops[i].sender in s.stakers
            && a.stateHash == ops[i].vmHash && a.parent == s.stakers[ops[i].sender].assertionID
            && (s0.reading.AsDocumented? ==> a.blockNum == ops[i].blockNum)
  {
    hide Run, Initial, CountStakedZombies, CreatesAt;
    assert ops[..j][..i] == ops[..i] && ops[..j][i] == ops[i];
    StandsAsProposed(s0, ops[..j], i, id);
    ChainBelow(s0, ops[..j]);
    InitialTree(s0);
    RunPeriod(s0, ops[..j]);
  }

  // ---------- families ----------

  /** `id` is a child of `p`, neither of them rejected. */
  ghost predicate ChildOf(s: State, first: Id, id: Id, p: Id) {
    && first < id <= s.lastCreated && id !in s.rejected
    && first <= p && p !in s.rejected && At(s.assertions, id).parent == p
  }

  /** Children come after their parents, by block number and by at least the minimum period. */
  ghost predicate Spaced(s: State, first: Id) {
    forall id, p | ChildOf(s, first, id, p) ::
      && At(s.assertions, id).proposalTime >= At(s.assertions, p).proposalTime + s.minimumAssertionPeriod
      && At(s.assertions, id).blockNum > At(s.assertions, p).blockNum
  }

  /** The parent remembers the block number and the state hashes of its children. */
  ghost predicate Remembered(s: State, first: Id) {
    forall id, p | ChildOf(s, first, id, p) ::
      && At(s.assertions, p).childBlockNum == At(s.assertions, id).blockNum != 0
      && At(s.assertions, id).stateHash in SetAt(s.childHashes, p)
  }

  /** Siblings propose the same block with different results. */
  ghost predicate SiblingsDiffer(s: State, first: Id) {
    forall i, j, p | ChildOf(s, first, i, p) && ChildOf(s, first, j, p) && i != j ::
      && At(s.assertions, i).blockNum == At(s.assertions, j).blockNum
      && At(s.assertions, i).stateHash != At(s.assertions, j).stateHash
  }

  ghost predicate Families(s: State, first: Id) {
    s.reading.AsDocumented? && Spaced(s, first) && Remembered(s, first) && SiblingsDiffer(s, first)
  }

  lemma {:induction false} CountsFamilies(s: State, t: State, first: Id)
    requires Families(s, first) && OnlyCounts(s, t)
    ensures Families(t, first)
  {
    assert forall id, p :: ChildOf(t, first, id, p) <==> ChildOf(s, first, id, p);
  }

  lemma {:induction false} RejectFamilies(s: State, t: State, a: Id, first: Id)
    requires Families(s, first) && t.reading == s.reading && t.lastCreated == s.lastCreated
    requires t.minimumAssertionPeriod == s.minimumAssertionPeriod && t.childHashes == s.childHashes
    requires t.rejected == s.rejected + {a} && t.assertions == s.assertions[a := NO_ASSERTION]
    ensures Families(t, first)
  {
    assert forall id, p | ChildOf(t, first, id, p) :: ChildOf(s, first, id, p) && id != a && p != a;
  }

  /** The tests that a new assertion has passed, on the documented reading. */
  ghost predicate Admitted(s: State, x: Address, vmHash: nat, blockNum: nat, now: nat) {
    && x in s.stakers
    && var parent := At(s.assertions, s.stakers[x].assertionID);
       && now >= parent.proposalTime + s.minimumAssertionPeriod
       && blockNum > parent.blockNum
       && (parent.childBlockNum != 0 ==>
             blockNum == parent.childBlockNum && vmHash !in SetAt(s.childHashes, s.stakers[x].assertionID))
  }

  /** Acceptance is exactly that, and the parent then remembers the block. */
  lemma {:induction false} CreateExact(s: State, x: Address, vmHash: nat, blockNum: nat, now: nat)
    requires s.reading.AsDocumented?
    ensures CreateAssertion(s, x, vmHash, blockNum, now).Some? <==> Admitted(s, x, vmHash, blockNum, now)
    ensures CreateAssertion(s, x, vmHash, blockNum, now).Some? && s.stakers[x].assertionID <= s.lastCreated ==>
              At(CreateAssertion(s, x, vmHash, blockNum, now).value.assertions, s.stakers[x].assertionID).childBlockNum
              == blockNum
  {
  }

  lemma {:induction false} CreateChildren(s: State, t: State, x: Address, vmHash: nat, blockNum: nat, now: nat,
                                          first: Id, id: Id, p: Id)
    requires Creates(s, t, x, vmHash, blockNum, now) && s.stakers[x].assertionID <= s.lastCreated
             && s.reading.AsDocumented?
    requires ChildOf(t, first, id, p) && p <= s.lastCreated
    ensures id <= s.lastCreated ==> ChildOf(s, first, id, p)
    ensures id == t.lastCreated ==> p == s.stakers[x].assertionID
  {
  }

  lemma {:induction false} CreateSpaced(s: State, t: State, x: Address, vmHash: nat, blockNum: nat, now: nat, first: Id)
    requires Families(s, first) && Creates(s, t, x, vmHash, blockNum, now) && Admitted(s, x, vmHash, blockNum, now)
    requires s.stakers[x].assertionID <= s.lastCreated
    requires forall id | first < id <= s.lastCreated :: At(s.assertions, id).parent <= s.lastCreated
    ensures Spaced(t, first)
  {
    forall id, p | ChildOf(t, first, id, p)
      ensures At(t.assertions, id).proposalTime >= At(t.assertions, p).proposalTime + t.minimumAssertionPeriod
      ensures At(t.assertions, id).blockNum > At(t.assertions, p).blockNum
    {
      assert At(t.assertions, id).parent <= s.lastCreated;
      CreateChildren(s, t, x, vmHash, blockNum, now, first, id, p);
    }
  }

  lemma {:induction false} CreateRemembered(s: State, t: State, x: Address, vmHash: nat, blockNum: nat, now: nat,
                                            first: Id)
    requires Families(s, first) && Creates(s, t, x, vmHash, blockNum, now) && Admitted(s, x, vmHash, blockNum, now)
    requires s.stakers[x].assertionID <= s.lastCreated
    requires forall id | first < id <= s.lastCreated :: At(s.assertions, id).parent <= s.lastCreated
    requires At(t.assertions, s.stakers[x].assertionID).childBlockNum == blockNum
    ensures Remembered(t, first)
  {
    forall id, p | ChildOf(t, first, id, p)
      ensures At(t.assertions, p).childBlockNum == At(t.assertions, id).blockNum != 0
      ensures At(t.assertions, id).stateHash in SetAt(t.childHashes, p)
    {
      assert At(t.assertions, id).parent <= s.lastCreated;
      CreateChildren(s, t, x, vmHash, blockNum, now, first, id, p);
    }
  }

  lemma {:induction false} CreateSiblings(s: State, t: State, x: Address, vmHash: nat, blockNum: nat, now: nat,
                                          first: Id, i: Id, j: Id, p: Id)
    requires Families(s, first) && Creates(s, t, x, vmHash, blockNum, now) && Admitted(s, x, vmHash, blockNum, now)
    requires s.stakers[x].assertionID <= s.lastCreated && p <= s.lastCreated
    requires ChildOf(t, first, i, p) && ChildOf(t, first, j, p) && i < j
    ensures At(t.assertions, i).blockNum == At(t.assertions, j).blockNum
    ensures At(t.assertions, i).stateHash != At(t.assertions, j).stateHash
  {
    CreateChildren(s, t, x, vmHash, blockNum, now, first, i, p);
    CreateChildren(s, t, x, vmHash, blockNum, now, first, j, p);
  }

  lemma {:induction false} CreateFamilies(s: State, x: Address, vmHash: nat, blockNum: nat, now: nat, first: Id)
    requires Families(s, first) && CreateAssertion(s, x, vmHash, blockNum, now).Some?
    requires s.stakers[x].assertionID <= s.lastCreated
    requires forall id | first < id <= s.lastCreated :: At(s.assertions, id).parent <= s.lastCreated
    ensures Families(CreateAssertion(s, x, vmHash, blockNum, now).value, first)
  {
    CreateCreates(s, x, vmHash, blockNum, now);
    CreateExact(s, x, vmHash, blockNum, now);
    hide CreateAssertion, Creates, Admitted, Spaced, Remembered, ChildOf;
    var t := CreateAssertion(s, x, vmHash, blockNum, now).value;
    CreateSpaced(s, t, x, vmHash, blockNum, now, first);
    CreateRemembered(s, t, x, vmHash, blockNum, now, first);
    forall i, j, p | ChildOf(t, first, i, p) && ChildOf(t, first, j, p) && i != j
      ensures At(t.assertions, i).blockNum == At(t.assertions, j).blockNum
      ensures At(t.assertions, i).stateHash != At(t.assertions, j).stateHash
    {
      ParentsOld(s, t, x, vmHash, blockNum, now, first, i, p);
      if i < j {
        CreateSiblings(s, t, x, vmHash, blockNum, now, first, i, j, p);
      } else {
        CreateSiblings(s, t, x, vmHash, blockNum, now, first, j, i, p);
      }
    }
    CreateReading(s, t, x, vmHash, blockNum, now);
  }

  lemma {:induction false} CreateReading(s: State, t: State, x: Address, vmHash: nat, blockNum: nat, now: nat)
    requires Creates(s, t, x, vmHash, blockNum, now)
    ensures t.reading == s.reading
  {
  }

  lemma {:induction false} ParentsOld(s: State, t: State, x: Address, vmHash: nat, blockNum: nat, now: nat, first: Id,
                                      id: Id, p: Id)
    requires Creates(s, t, x, vmHash, blockNum, now) && s.stakers[x].assertionID <= s.lastCreated
    requires forall i | first < i <= s.lastCreated :: At(s.assertions, i).parent <= s.lastCreated
    requires ChildOf(t, first, id, p)
    ensures p <= s.lastCreated
  {
  }

  /** Every parent exists. */
  ghost predicate ParentsExist(s: State, first: Id) {
    forall id | first < id <= s.lastCreated :: At(s.assertions, id).parent <= s.lastCreated
  }

  lemma {:induction false} StepFamilies(s: State, op: Op, first: Id)
    requires Bounds(s) && Families(s, first) && ParentsExist(s, first)
    ensures Families(Step(s, op), first) && ParentsExist(Step(s, op), first)
  {
    hide Families, CreateAssertion, Rejectable, Stake, StakeOn, Confirmable;
    if op.OpCreateAssertion? {
      if Apply(s, op).Some? {
        CreateCreates(s, op.sender, op.vmHash, op.blockNum, op.now);
        CreateFamilies(s, op.sender, op.vmHash, op.blockNum, op.now, first);
      }
    } else if op.OpReject? {
      if Apply(s, op).Some? {
        var a, t := s.lastResolved + 1, Step(s, op);
        RejectFamilies(s, t, a, first);
        assert forall id: Id :: At(t.assertions, id) == if id == a then NO_ASSERTION else At(s.assertions, id);
      }
    } else {
      StepCounts(s, op);
      hide Step;
      CountsFamilies(s, Step(s, op), first);
    }
  }

  lemma {:induction false} RunFamilies(s0: State, ops: seq<Op>)
    requires Initial(s0) && s0.reading.AsDocumented?
    ensures Families(Run(s0, ops), s0.lastCreated) && ParentsExist(Run(s0, ops), s0.lastCreated)
  {
    if ops != [] {
      hide Initial, Families, ParentsExist, Step, TreeInv;
      var front := ops[..|ops| - 1];
      RunFamilies(s0, front);
      InitialTree(s0);
      RunTree(s0, front);
      TreeIsBounded(Run(s0, front));
      StepFamilies(Run(s0, front), ops[|ops| - 1], s0.lastCreated);
    }
  }

  /** In every run, on the documented reading, among assertions that were not rejected: a child comes at
      least the minimum period after its parent and proposes a later block; and siblings propose the same
      block with different state hashes, so that at most one of them is right. */
  lemma {:induction false} FamiliesInOrder(s0: State, ops: seq<Op>)
    requires Initial(s0) && s0.reading.AsDocumented?
    ensures Spaced(Run(s0, ops), s0.lastCreated) && SiblingsDiffer(Run(s0, ops), s0.lastCreated)
    ensures Run(s0, ops).minimumAssertionPeriod == s0.minimumAssertionPeriod
  {
    hide Run, Initial, Spaced, SiblingsDiffer;
    RunFamilies(s0, ops);
    InitialTree(s0);
    RunPeriod(s0, ops);
  }
}
