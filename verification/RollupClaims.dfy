/** Who owns what and who stands where: each address's books, and its moves through the tree. */
module RollupClaims {
  import opened Wrappers
  import opened Rollup

  // ---------- claims ----------

  /** What the contract owes to `x`: its stake and its withdrawable funds. */
  function Claim(s: State, x: Address): nat {
    (if x in s.stakers then s.stakers[x].amountStaked else 0) + Funds(s.withdrawable, x)
  }

  predicate Accepted(s: State, op: Op) { Feasible(s, op) && Apply(s, op).Some? }

  /** What `x` hands in with an accepted call. */
  function Given(s: State, op: Op, x: Address): nat {
    if Accepted(s, op) && op.OpStake? && op.sender == x then op.value else 0
  }

  /** What an accepted call pays out to `x`: the amount asked for, the whole stake, or all funds. */
  function Paid(s: State, op: Op, x: Address): nat {
    if !Accepted(s, op) then 0
    else match op
      case OpUnstake(sender, amount, _) => if sender == x then amount else 0
      case OpRemoveStake(staker, _) => if staker == x && x in s.stakers then s.stakers[x].amountStaked else 0
      case OpWithdraw(sender, _) => if sender == x then Funds(s.withdrawable, x) else 0
      case _ => 0
  }

  /** What is at stake in a challenge: the smaller of the two stakes. */
  function Pot(s: State, winner: Address, loser: Address): nat
    requires winner in s.stakers && loser in s.stakers
  {
    var w, l := s.stakers[winner].amountStaked, s.stakers[loser].amountStaked;
    if l <= w then l else w
  }

  predicate Settles(s: State, op: Op) {
    Accepted(s, op) && op.OpComplete? && op.winner in s.stakers && op.loser in s.stakers
  }

  /** The loser of a challenge loses the pot and no more. */
  function Lost(s: State, op: Op, x: Address): nat {
    if Settles(s, op) && x == op.loser then Pot(s, op.winner, op.loser) else 0
  }

  /** The winner, if it is another player, gets half of the pot, rounded down; the vault gets the rest. */
  function Won(s: State, op: Op, x: Address): nat {
    if !Settles(s, op) then 0
    else
      var pot := Pot(s, op.winner, op.loser);
      (if x == op.winner && op.winner != op.loser then pot / 2 else 0)
      + (if x == s.vault then pot - pot / 2 else 0)
  }

  lemma {:induction false} CompleteClaims(s: State, sender: Address, winner: Address, loser: Address, x: Address)
    requires CompleteChallenge(s, sender, winner, loser).Some?
    ensures winner in s.stakers && loser in s.stakers
    ensures var t, pot := CompleteChallenge(s, sender, winner, loser).value, Pot(s, winner, loser);
            Claim(t, x) + (if x == loser then pot else 0)
            == Claim(s, x) + (if x == winner && winner != loser then pot / 2 else 0)
               + (if x == s.vault then pot - pot / 2 else 0)
  {
  }

  lemma {:induction false} StakeClaims(s: State, x: Address, value: nat, y: Address)
    requires Stake(s, x, value).Some?
    ensures Claim(Stake(s, x, value).value, y) == Claim(s, y) + if x == y then value else 0
  {
  }

  lemma {:induction false} CreateClaims(s: State, x: Address, vmHash: nat, blockNum: nat, now: nat, y: Address)
    requires CreateAssertion(s, x, vmHash, blockNum, now).Some?
    ensures Claim(CreateAssertion(s, x, vmHash, blockNum, now).value, y) == Claim(s, y)
  {
  }

  lemma {:induction false} ChallengeClaims(s: State, d: Address, c: Address, did: Id, cid: Id, challenge: Address,
                                           y: Address)
    requires ChallengeAssertion(s, d, c, did, cid, challenge).Some?
    ensures Claim(ChallengeAssertion(s, d, c, did, cid, challenge).value, y) == Claim(s, y)
  {
  }

  /** Every call changes every address's claim by exactly what it gave, got paid, won and lost. */
  lemma {:induction false} StepClaims(s: State, op: Op, x: Address)
    ensures Claim(Step(s, op), x) + Paid(s, op, x) + Lost(s, op, x) == Claim(s, x) + Given(s, op, x) + Won(s, op, x)
  {
    hide Stake, CreateAssertion, ChallengeAssertion, CompleteChallenge, Confirmable, Rejectable;
    if Accepted(s, op) {
      match op
      case OpStake(sender, value) => StakeClaims(s, sender, value, x);
      case OpCreateAssertion(sender, vmHash, blockNum, now) => CreateClaims(s, sender, vmHash, blockNum, now, x);
      case OpChallenge(d, c, did, cid, challenge) => ChallengeClaims(s, d, c, did, cid, challenge, x);
      case OpComplete(sender, winner, loser) => CompleteClaims(s, sender, winner, loser, x);
      case _ =>
    }
  }

  /** The totals of a run, for one address. */
  datatype Books = Books(given: nat, paid: nat, won: nat, lost: nat)

  function BooksOf(s: State, ops: seq<Op>, x: Address): Books {
    if ops == [] then Books(0, 0, 0, 0)
    else
      var front, op := ops[..|ops| - 1], ops[|ops| - 1];
      var b, h := BooksOf(s, front, x), Run(s, front);
      Books(b.given + Given(h, op, x), b.paid + Paid(h, op, x), b.won + Won(h, op, x), b.lost + Lost(h, op, x))
  }

  /** In every run, for every address: what it gave and won is what it got paid, lost and still owns. */
  lemma {:induction false} BooksBalance(s: State, ops: seq<Op>, x: Address)
    ensures var b := BooksOf(s, ops, x);
            Claim(Run(s, ops), x) + b.paid + b.lost == Claim(s, x) + b.given + b.won
  {
    if ops != [] {
      hide Claim, Step, Given, Paid, Won, Lost;
      BooksBalance(s, ops[..|ops| - 1], x);
      StepClaims(Run(s, ops[..|ops| - 1]), ops[|ops| - 1], x);
    }
  }

  // ---------- positions ----------

  /** How a staker's position may change in one call. */
  ghost predicate Moves(s: State, op: Op, t: State, x: Address) {
    if x in s.stakers && x in t.stakers then
      var from, to := s.stakers[x].assertionID, t.stakers[x].assertionID;
      || to == from
      || (op.OpAdvanceStake? && op.sender == x && to == op.id && from < to <= s.lastCreated
          && At(s.assertions, to).parent == from)
      || (op.OpCreateAssertion? && op.sender == x && to == s.lastCreated + 1 == t.lastCreated
          && At(t.assertions, to).parent == from)
    else if x in t.stakers then op.OpStake? && op.sender == x && t.stakers[x].assertionID == s.lastConfirmed
    else x in s.stakers ==> (op.OpRemoveStake? && op.staker == x) || (op.OpComplete? && op.loser == x)
  }

  lemma {:induction false} StakeMoves(s: State, x: Address, value: nat, y: Address)
    requires Stake(s, x, value).Some?
    ensures Moves(s, OpStake(x, value), Stake(s, x, value).value, y)
  {
  }

  lemma {:induction false} CreateMoves(s: State, x: Address, vmHash: nat, blockNum: nat, now: nat, y: Address)
    requires CreateAssertion(s, x, vmHash, blockNum, now).Some?
    ensures Moves(s, OpCreateAssertion(x, vmHash, blockNum, now), CreateAssertion(s, x, vmHash, blockNum, now).value, y)
  {
  }

  lemma {:induction false} CompleteMoves(s: State, sender: Address, winner: Address, loser: Address, y: Address)
    requires CompleteChallenge(s, sender, winner, loser).Some?
    ensures Moves(s, OpComplete(sender, winner, loser), CompleteChallenge(s, sender, winner, loser).value, y)
  {
  }

  /** A staker enters on the last confirmed assertion, moves by its own calls only, from an assertion to a
      child of it, and leaves by removing its stake or by losing a challenge. */
  lemma {:induction false} StepMoves(s: State, op: Op, x: Address)
    ensures Moves(s, op, Step(s, op), x)
  {
    hide Stake, CreateAssertion, CompleteChallenge, Confirmable, Rejectable;
    if Accepted(s, op) {
      match op
      case OpStake(sender, value) => StakeMoves(s, sender, value, x);
      case OpCreateAssertion(sender, vmHash, blockNum, now) => CreateMoves(s, sender, vmHash, blockNum, now, x);
      case OpComplete(sender, winner, loser) => CompleteMoves(s, sender, winner, loser, x);
      case _ =>
    }
  }
}
