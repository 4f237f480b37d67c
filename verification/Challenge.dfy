/** The symmetric challenge game `SymChallenge` (with `ChallengeBase` and `ChallengeLib`):
    state and moves. `None` is a revert. */
module Challenge {
  import opened Wrappers

  type Address = nat
  type Hash = nat

  const MAX_BISECTION_DEGREE := 2

  datatype Turn = NoChallenge | Challenger | Defender

  /** The `postInitialization` modifier as written reverts once the bisection hash is set; its
      documentation asks for the opposite. */
  datatype Guard = AsWritten | AsDocumented

  /** `bisectionHash` is modelled by the words it hashes: `[]` while unset. */
  datatype Game = Game(
    guard: Guard,
    turn: Turn,
    defender: Address,
    challenger: Address,
    lastMoveBlock: nat,
    defenderTimeLeft: nat,
    challengerTimeLeft: nat,
    numSteps: nat,
    committed: seq<nat>,
    startStateHash: Hash,
    endStateDefenseHash: Hash,
    endStateChallengeHash: Hash)

  // ---------- ChallengeLib ----------

  /** The words that `computeBisectionHash` packs. */
  function Pack(bisection: seq<Hash>, start: nat, length: nat): seq<nat> {
    bisection + [start, length]
  }

  lemma {:induction false} PackInjective(b: seq<Hash>, s: nat, l: nat, b': seq<Hash>, s': nat, l': nat)
    requires Pack(b, s, l) == Pack(b', s', l')
    ensures b == b' && s == s' && l == l'
  {
    var p := Pack(b, s, l);
    assert p[|p| - 1] == l && p[|p| - 2] == s && p[..|p| - 2] == b;
    var p' := Pack(b', s', l');
    assert p'[|p'| - 1] == l' && p'[|p'| - 2] == s' && p'[..|p'| - 2] == b';
  }

  function FirstSegmentLength(length: nat, degree: nat): nat
    requires degree > 0
  {
    length / degree + length % degree
  }

  function OtherSegmentLength(length: nat, degree: nat): nat
    requires degree > 0
  {
    length / degree
  }

  // ---------- turns and clocks ----------

  function ResponderTimeLeft(g: Game): Option<nat> {
    match g.turn
    case Defender => Some(g.defenderTimeLeft)
    case Challenger => Some(g.challengerTimeLeft)
    case NoChallenge => None
  }

  /** The checks of `onlyOnTurn`; the subtraction of blocks is checked. */
  predicate OnTurn(g: Game, sender: Address, now: nat) {
    && g.turn != NoChallenge
    && sender == (if g.turn.Defender? then g.defender else g.challenger)
    && g.lastMoveBlock <= now
    && now - g.lastMoveBlock <= ResponderTimeLeft(g).value
  }

  /** What `onlyOnTurn` does after the move. */
  function EndTurn(g: Game, now: nat): Game
    requires g.lastMoveBlock <= now
    requires g.turn != NoChallenge ==> now - g.lastMoveBlock <= ResponderTimeLeft(g).value
  {
    var used := now - g.lastMoveBlock;
    match g.turn
    case Challenger => g.(challengerTimeLeft := g.challengerTimeLeft - used, turn := Defender, lastMoveBlock := now)
    case Defender => g.(defenderTimeLeft := g.defenderTimeLeft - used, turn := Challenger, lastMoveBlock := now)
    case NoChallenge => g.(lastMoveBlock := now)
  }

  /** `timeout`: who wins, if the responder's time is up. */
  function Timeout(g: Game, now: nat): Option<Address> {
    if g.turn.NoChallenge? || now < g.lastMoveBlock then None
    else if now - g.lastMoveBlock <= ResponderTimeLeft(g).value then None
    else if g.turn.Defender? then Some(g.challenger)
    else Some(g.defender)
  }

  // ---------- moves ----------

  function Initialize(guard: Guard, defender: Address, challenger: Address, startStateHash: Hash,
                      endStateDefenseHash: Hash, endStateChallengeHash: Hash, challengePeriod: nat,
                      now: nat): Option<Game> {
    if defender == 0 || challenger == 0 then None
    else Some(Game(guard, Defender, defender, challenger, now, challengePeriod, challengePeriod, 0, [],
                   startStateHash, endStateDefenseHash, endStateChallengeHash))
  }

  /** The second `if` of `initializeChallengeLength`, run on what the first one left behind. */
  function ChallengerProposes(g: Game, sender: Address, steps: nat, now: nat): Option<Game>
    requires g.lastMoveBlock <= now
  {
    if !(g.turn.Challenger? && sender == g.challenger) then Some(g)
    else
      var smaller := steps < g.numSteps;
      var numSteps := if smaller then steps else g.numSteps;
      var end := if smaller then g.endStateChallengeHash else g.endStateDefenseHash;
      if g.challengerTimeLeft < now - g.lastMoveBlock then None
      else Some(g.(numSteps := numSteps,
                   turn := if smaller then Defender else Challenger,
                   committed := Pack([g.startStateHash, end], 0, numSteps),
                   challengerTimeLeft := g.challengerTimeLeft - (now - g.lastMoveBlock)))
  }

  function InitializeLength(g: Game, sender: Address, steps: nat, now: nat): Option<Game> {
    if g.turn.NoChallenge? || now < g.lastMoveBlock then None
    else if now - g.lastMoveBlock > ResponderTimeLeft(g).value then None
    else if g.committed != [] then None
    else if steps == 0 then None
    else
      var g1 := if g.turn.Defender? && sender == g.defender
                then g.(numSteps := steps, turn := Challenger,
                        defenderTimeLeft := g.defenderTimeLeft - (now - g.lastMoveBlock))
                else g;
      match ChallengerProposes(g1, sender, steps, now)
      case None => None
      case Some(g2) => Some(g2.(lastMoveBlock := now))
  }

  /** Where the challenged sub-segment starts and how long it is. */
  function SubSegment(segments: nat, start: nat, length: nat, index: nat): (nat, nat)
    requires index > 0
  {
    if segments <= 1 then (start, length)
    else
      var first := FirstSegmentLength(length, MAX_BISECTION_DEGREE);
      var other := OtherSegmentLength(length, MAX_BISECTION_DEGREE);
      if index == 1 then (start, first) else (start + first + other * (index - 2), other)
  }

  function Bisect(g: Game, sender: Address, now: nat, bisection: seq<Hash>, index: nat,
                  prev: seq<Hash>, prevStart: nat, prevLength: nat): Option<Game> {
    if !OnTurn(g, sender, now) then None
    else if (g.guard.AsWritten? && g.committed != []) || (g.guard.AsDocumented? && g.committed == []) then None
    else if Pack(prev, prevStart, prevLength) != g.committed then None
    else if !(0 < index < |prev|) then None
    else if bisection == [] || bisection[0] != prev[index - 1] then None
    else if bisection[|bisection| - 1] == prev[index] then None
    else
      var (start, length) := SubSegment(|prev| - 1, prevStart, prevLength, index);
      if length <= 1 then None
      else
        var target := if length < MAX_BISECTION_DEGREE then length else MAX_BISECTION_DEGREE;
        if |bisection| != target + 1 then None
        else Some(EndTurn(g.(committed := Pack(bisection, start, length)), now))
  }

  /** `verifyOneStepProof`; `passed` tells whether what other contracts check passes (inclusion and
      context of the transaction, the proof itself, the report of a result), and `endHash` is what
      the verifier contract computes. The second component tells whether the responder wins. */
  function OneStep(g: Game, sender: Address, now: nat, index: nat, prev: seq<Hash>, prevStart: nat, prevLength: nat,
                   passed: bool, endHash: Hash): Option<(Game, bool)> {
    if !OnTurn(g, sender, now) then None
    else if Pack(prev, prevStart, prevLength) != g.committed then None
    else if !(0 < index < |prev|) then None
    else if prevLength / MAX_BISECTION_DEGREE > 1 then None
    else if !passed then None
    else Some((EndTurn(g, now), endHash != prev[index]))
  }

  // ---------- runs ----------

  datatype Move =
    | Propose(sender: Address, now: nat, steps: nat)
    | Cut(sender: Address, now: nat, bisection: seq<Hash>, index: nat, prev: seq<Hash>, prevStart: nat, prevLength: nat)
    | Prove(sender: Address, now: nat, index: nat, prev: seq<Hash>, prevStart: nat, prevLength: nat, passed: bool,
            endHash: Hash)

  function Apply(g: Game, m: Move): Option<Game> {
    match m
    case Propose(sender, now, steps) => InitializeLength(g, sender, steps, now)
    case Cut(sender, now, bisection, index, prev, start, length) =>
      Bisect(g, sender, now, bisection, index, prev, start, length)
    case Prove(sender, now, index, prev, start, length, passed, endHash) =>
      match OneStep(g, sender, now, index, prev, start, length, passed, endHash)
      case None => None
      case Some((g', _)) => Some(g')
  }

  /** Rejected moves leave the game as it was. */
  function Play(g: Game, moves: seq<Move>): Game {
    if moves == [] then g
    else
      var h := Play(g, moves[..|moves| - 1]);
      match Apply(h, moves[|moves| - 1])
      case None => h
      case Some(h') => h'
  }

  /** How many bisections a play gets accepted. */
  function Bisections(g: Game, moves: seq<Move>): nat {
    if moves == [] then 0
    else
      var front := moves[..|moves| - 1];
      var m := moves[|moves| - 1];
      Bisections(g, front) + if m.Cut? && Apply(Play(g, front), m).Some? then 1 else 0
  }
}

/** Bisection narrows and terminates; clocks run down; the honest player always has an answer. */
module ChallengeProofs {
  import opened Wrappers
  import opened Challenge

  // ---------- segments ----------

  /** The sub-segments of a cut segment tile it, and differ by at most one step. */
  lemma {:induction false} SegmentsTile(start: nat, length: nat)
    ensures var (s1, l1) := SubSegment(2, start, length, 1);
            var (s2, l2) := SubSegment(2, start, length, 2);
            && s1 == start && s2 == s1 + l1 && s2 + l2 == start + length
            && l2 <= l1 <= l2 + 1
  {
  }

  /** What a game in play has committed to. */
  ghost predicate Committed(g: Game, states: seq<Hash>, start: nat, length: nat) {
    && g.committed == Pack(states, start, length)
    && g.turn != NoChallenge
    && start + length <= g.numSteps
    && (|states| == 2 ==> start == 0 && length == g.numSteps && length > 0)
    && (|states| != 2 ==> |states| == 3 && length > 1)
  }

  /** The length is agreed: play has begun. */
  ghost predicate InPlay(g: Game) {
    exists states, start, length :: Committed(g, states, start, length)
  }

  /** An accepted bisection commits to a sub-segment of what was committed before. */
  lemma {:induction false} CutNarrows(g: Game, m: Move, states: seq<Hash>, start: nat, length: nat)
    requires Committed(g, states, start, length) && m.Cut? && Apply(g, m).Some?
    ensures m.prev == states && m.prevStart == start && m.prevLength == length && 0 < m.index < |states|
    ensures var g' := Apply(g, m).value;
            var (s', l') := SubSegment(|states| - 1, start, length, m.index);
            && Committed(g', m.bisection, s', l') && |m.bisection| == 3
            && start <= s' && s' + l' <= start + length
            && (|states| == 3 ==> l' < length && 2 * (l' - 1) <= length - 1)
            && (|states| == 2 ==> (s', l') == (start, length))
            && m.bisection[0] == states[m.index - 1] && m.bisection[2] != states[m.index]
  {
    PackInjective(m.prev, m.prevStart, m.prevLength, states, start, length);
    SegmentsTile(start, length);
  }

  lemma {:induction false} ProveKeeps(g: Game, m: Move, states: seq<Hash>, start: nat, length: nat)
    requires Committed(g, states, start, length) && !m.Cut? && Apply(g, m).Some?
    ensures m.Prove? && Committed(Apply(g, m).value, states, start, length)
  {
    assert |g.committed| > 0;
  }

  function Pow2(k: nat): nat {
    if k == 0 then 1 else 2 * Pow2(k - 1)
  }

  lemma {:induction false} Halve(k: nat, l: nat, l': nat, n: nat)
    requires k >= 1 && l >= 1 && l' >= 1 && 2 * (l' - 1) <= l - 1 && (l - 1) * Pow2(k - 1) <= n
    ensures (l' - 1) * Pow2(k) <= n
  {
    var p := Pow2(k - 1);
    assert (l' - 1) * Pow2(k) == (2 * (l' - 1)) * p;
    MulMonotone(2 * (l' - 1), l - 1, p);
  }

  lemma {:induction false} MulMonotone(a: nat, b: nat, p: nat)
    requires a <= b
    ensures a * p <= b * p
  {
  }

  /** After `k` accepted bisections the committed segment has been halved `k - 1` times. */
  ghost predicate Narrowed(g: Game, k: nat, states: seq<Hash>, start: nat, length: nat) {
    && Committed(g, states, start, length)
    && (k == 0 <==> |states| == 2)
    && (k > 0 ==> (length - 1) * Pow2(k - 1) <= g.numSteps - 1)
  }

  lemma {:induction false} PlayNarrows(g: Game, moves: seq<Move>, states: seq<Hash>)
        returns (now: seq<Hash>, start: nat, length: nat)
    requires |states| == 2 && Committed(g, states, 0, g.numSteps)
    ensures Narrowed(Play(g, moves), Bisections(g, moves), now, start, length)
    ensures Play(g, moves).numSteps == g.numSteps
  {
    hide Narrowed;
    if moves == [] {
      now, start, length := states, 0, g.numSteps;
      StartNarrowed(g, states);
      return;
    }
    var front := moves[..|moves| - 1];
    var m := moves[|moves| - 1];
    now, start, length := PlayNarrows(g, front, states);
    hide Apply;
    if Apply(Play(g, front), m).Some? {
      now, start, length := MoveNarrowed(Play(g, front), m, Bisections(g, front), now, start, length);
    }
  }

  lemma {:induction false} StartNarrowed(g: Game, states: seq<Hash>)
    requires |states| == 2 && Committed(g, states, 0, g.numSteps)
    ensures Narrowed(g, 0, states, 0, g.numSteps)
  {
  }

  lemma {:induction false} MoveNarrowed(g: Game, m: Move, k: nat, states: seq<Hash>, start: nat, length: nat)
        returns (now: seq<Hash>, start': nat, length': nat)
    requires Narrowed(g, k, states, start, length) && Apply(g, m).Some?
    ensures Narrowed(Apply(g, m).value, k + (if m.Cut? then 1 else 0), now, start', length')
    ensures Apply(g, m).value.numSteps == g.numSteps
  {
    if m.Cut? {
      CutNarrows(g, m, states, start, length);
      var (s', l') := SubSegment(|states| - 1, start, length, m.index);
      if k > 0 {
        Halve(k, length, l', g.numSteps - 1);
      }
      now, start', length' := m.bisection, s', l';
    } else {
      ProveKeeps(g, m, states, start, length);
      now, start', length' := states, start, length;
    }
  }

  /** In every play: the number of accepted bisections is at most logarithmic in the number of
      steps, `k` of them needing more than `2^(k-1)` steps. */
  lemma {:induction false} BisectionsLogarithmic(g: Game, moves: seq<Move>, states: seq<Hash>)
    requires |states| == 2 && Committed(g, states, 0, g.numSteps)
    ensures var k := Bisections(g, moves); k > 0 ==> Pow2(k - 1) < g.numSteps
  {
    var now, start, length := PlayNarrows(g, moves, states);
    var k := Bisections(g, moves);
    if k > 0 {
      MulMonotone(1, length - 1, Pow2(k - 1));
    }
  }

  /** In every play: the challenged segment stays inside `[0, numSteps]`. */
  lemma {:induction false} SegmentInside(g: Game, moves: seq<Move>, states: seq<Hash>)
    requires |states| == 2 && Committed(g, states, 0, g.numSteps)
    ensures InPlay(Play(g, moves)) && Play(g, moves).numSteps == g.numSteps
  {
    var now, start, length := PlayNarrows(g, moves, states);
  }

  /** Agreeing on a length puts the game in play. */
  lemma {:induction false} AgreementStarts(g: Game, sender: Address, steps: nat, now: nat)
    requires g.committed == [] && (g.turn.Challenger? ==> g.numSteps > 0)
    requires InitializeLength(g, sender, steps, now).Some?
             && InitializeLength(g, sender, steps, now).value.committed != []
    ensures var g' := InitializeLength(g, sender, steps, now).value;
            && 0 < g'.numSteps <= steps
            && (exists end :: Committed(g', [g.startStateHash, end], 0, g'.numSteps)
                              && end == if g'.turn.Defender? then g.endStateChallengeHash else g.endStateDefenseHash)
  {
    var g' := InitializeLength(g, sender, steps, now).value;
    var end := if g'.turn.Defender? then g.endStateChallengeHash else g.endStateDefenseHash;
    assert Committed(g', [g.startStateHash, end], 0, g'.numSteps);
  }

  // ---------- clocks ----------

  /** The block by which both clocks have run out. */
  function FinalBlock(g: Game): nat {
    g.defenderTimeLeft + g.challengerTimeLeft + g.lastMoveBlock
  }

  lemma {:induction false} MoveKeepsFinalBlock(g: Game, m: Move)
    requires InPlay(g) && Apply(g, m).Some?
    ensures InPlay(Apply(g, m).value) && FinalBlock(Apply(g, m).value) == FinalBlock(g)
    ensures g.lastMoveBlock <= m.now <= FinalBlock(g)
  {
    var states, start, length :| Committed(g, states, start, length);
    if m.Cut? {
      CutNarrows(g, m, states, start, length);
    } else {
      ProveKeeps(g, m, states, start, length);
    }
  }

  /** In every play from an agreed length: the sum of both clocks and the last move's block is
      constant; after that block no move is accepted and the responder can be timed out. */
  lemma {:induction false} ClockConservation(g: Game, moves: seq<Move>)
    requires InPlay(g)
    ensures InPlay(Play(g, moves)) && FinalBlock(Play(g, moves)) == FinalBlock(g)
    ensures forall m: Move | m.now > FinalBlock(g) :: Apply(Play(g, moves), m).None?
    ensures forall now | now > FinalBlock(g) :: Timeout(Play(g, moves), now).Some?
  {
    if moves != [] {
      var h := Play(g, moves[..|moves| - 1]);
      ClockConservation(g, moves[..|moves| - 1]);
      if Apply(h, moves[|moves| - 1]).Some? {
        MoveKeepsFinalBlock(h, moves[|moves| - 1]);
      }
    }
    var h := Play(g, moves);
    forall m: Move | m.now > FinalBlock(g) ensures Apply(h, m).None? {
      if Apply(h, m).Some? {
        MoveKeepsFinalBlock(h, m);
      }
    }
  }

  // ---------- the honest player ----------

  /** The true state after each step. */
  type Truth = nat -> Hash

  /** Where the `i`-th committed state sits. */
  function Position(segments: nat, start: nat, length: nat, i: nat): nat {
    if i == 0 then start
    else
      var (s, l) := SubSegment(segments, start, length, i);
      s + l
  }

  /** The committed segment starts at the true state and ends at a false one. */
  ghost predicate Disputable(f: Truth, states: seq<Hash>, start: nat, length: nat) {
    |states| >= 2 && states[0] == f(start) && states[|states| - 1] != f(start + length)
  }

  /** All committed states are true. */
  ghost predicate Truthful(f: Truth, states: seq<Hash>, start: nat, length: nat) {
    forall i | 0 <= i < |states| :: states[i] == f(Position(|states| - 1, start, length, i))
  }

  /** The first index whose state is false. */
  function FirstFalse(f: Truth, states: seq<Hash>, start: nat, length: nat): (i: nat)
    requires |states| == 2 || |states| == 3
    requires states[|states| - 1] != f(start + length)
    ensures 0 < i < |states|
  {
    if |states| == 3 && states[1] == f(Position(2, start, length, 1)) then 2 else 1
  }

  /** The true states of a segment cut in two. */
  function TrueBisection(f: Truth, start: nat, length: nat): seq<Hash> {
    [f(start), f(Position(2, start, length, 1)), f(start + length)]
  }

  /** The sub-segment up to the first false state starts true and ends false. */
  lemma {:induction false} FirstFalseSegment(f: Truth, states: seq<Hash>, start: nat, length: nat)
    requires |states| == 2 || |states| == 3
    requires Disputable(f, states, start, length) && length > |states| - 2
    ensures var i := FirstFalse(f, states, start, length);
            var (s', l') := SubSegment(|states| - 1, start, length, i);
            && states[i - 1] == f(s') && states[i] != f(s' + l') && l' >= 1
            && (l' == 1 ==> length <= 3)
  {
    SegmentsTile(start, length);
  }

  lemma {:induction false} TrueBisectionTruthful(f: Truth, start: nat, length: nat)
    ensures Truthful(f, TrueBisection(f, start, length), start, length)
  {
    SegmentsTile(start, length);
  }

  /** At its turn, facing a segment that starts true and ends false, the honest player finds a
      sub-segment with the same property. Unless that is a single step, its true bisection is
      accepted; if it is, its one-step proof is accepted exactly when it passes the checks of the
      other contracts. */
  lemma {:induction false} HonestMove(g: Game, f: Truth, sender: Address, now: nat, states: seq<Hash>, start: nat,
                                      length: nat, passed: bool)
    requires Committed(g, states, start, length) && Disputable(f, states, start, length)
    requires g.guard.AsDocumented? && OnTurn(g, sender, now)
    ensures var i := FirstFalse(f, states, start, length);
            var (s', l') := SubSegment(|states| - 1, start, length, i);
            var answer := TrueBisection(f, s', l');
            && states[i - 1] == f(s') && states[i] != f(s' + l') && l' >= 1
            && (l' > 1 ==>
                  && Bisect(g, sender, now, answer, i, states, start, length).Some?
                  && var g' := Bisect(g, sender, now, answer, i, states, start, length).value;
                     Committed(g', answer, s', l') && Truthful(f, answer, s', l'))
            && (l' == 1 ==> (OneStep(g, sender, now, i, states, start, length, passed, f(s' + 1)).Some? <==> passed))
  {
    hide Truthful, SubSegment, FirstFalse;
    FirstFalseSegment(f, states, start, length);
    var i := FirstFalse(f, states, start, length);
    var (s', l') := SubSegment(|states| - 1, start, length, i);
    var answer := TrueBisection(f, s', l');
    TrueBisectionTruthful(f, s', l');
    if l' > 1 {
      CutNarrows(g, Cut(sender, now, answer, i, states, start, length), states, start, length);
    }
  }

  /** Whatever bisection the opponent gets accepted against true states, its segment again starts
      true and ends false. */
  lemma {:induction false} OpponentReply(g: Game, f: Truth, m: Move, states: seq<Hash>, start: nat, length: nat)
    requires Committed(g, states, start, length) && Truthful(f, states, start, length)
    requires m.Cut? && Apply(g, m).Some?
    ensures 0 < m.index < |states|
    ensures var (s', l') := SubSegment(|states| - 1, start, length, m.index);
            Committed(Apply(g, m).value, m.bisection, s', l') && Disputable(f, m.bisection, s', l')
  {
    CutNarrows(g, m, states, start, length);
    SegmentsTile(start, length);
    var n := |states| - 1;
    var (s', l') := SubSegment(n, start, length, m.index);
    assert s' == Position(n, start, length, m.index - 1) && s' + l' == Position(n, start, length, m.index);
  }

  /** At the honest player's turn the committed segment is disputable; at the opponent's it is true. */
  ghost predicate HonestInv(g: Game, f: Truth, honest: Turn) {
    exists states, start, length ::
      && Committed(g, states, start, length)
      && if g.turn == honest then Disputable(f, states, start, length) else Truthful(f, states, start, length)
  }

  /** The bisection of `HonestMove`. */
  ghost predicate Strategic(g: Game, f: Truth, m: Move)
    requires m.Cut?
  {
    forall states, start, length | Committed(g, states, start, length) && Disputable(f, states, start, length) ::
      var i := FirstFalse(f, states, start, length);
      var (s', l') := SubSegment(|states| - 1, start, length, i);
      m.index == i && m.bisection == TrueBisection(f, s', l')
  }

  /** Moves are bisections, those of the honest player strategic; calls that revert do not matter. */
  ghost predicate Honestly(g: Game, f: Truth, honest: Turn, m: Move) {
    Apply(g, m).None? || (m.Cut? && (g.turn == honest ==> Strategic(g, f, m)))
  }

  ghost predicate HonestPlay(g: Game, f: Truth, honest: Turn, moves: seq<Move>) {
    moves == [] ||
    (HonestPlay(g, f, honest, moves[..|moves| - 1])
     && Honestly(Play(g, moves[..|moves| - 1]), f, honest, moves[|moves| - 1]))
  }

  /** In every sequence of bisections in which the honest player follows its strategy and the
      opponent does whatever gets accepted, the honest player keeps its footing. */
  lemma {:induction false} HonestInvariant(g: Game, f: Truth, honest: Turn, moves: seq<Move>)
    requires HonestInv(g, f, honest) && HonestPlay(g, f, honest, moves) && honest != NoChallenge
    ensures HonestInv(Play(g, moves), f, honest)
  {
    if moves != [] {
      var front := moves[..|moves| - 1];
      HonestInvariant(g, f, honest, front);
      HonestStep(Play(g, front), f, honest, moves[|moves| - 1]);
    }
  }

  lemma {:induction false} HonestStep(g: Game, f: Truth, honest: Turn, m: Move)
    requires HonestInv(g, f, honest) && Honestly(g, f, honest, m) && honest != NoChallenge
    ensures Apply(g, m).Some? ==> HonestInv(Apply(g, m).value, f, honest)
  {
    if Apply(g, m).Some? {
      var states, start, length :|
        && Committed(g, states, start, length)
        && if g.turn == honest then Disputable(f, states, start, length) else Truthful(f, states, start, length);
      CutFlipsTurn(g, m);
      CutNarrows(g, m, states, start, length);
      hide Apply, Committed, Disputable, Truthful, SubSegment;
      var (s', l') := SubSegment(|states| - 1, start, length, m.index);
      if g.turn == honest {
        TrueBisectionTruthful(f, s', l');
        assert m.bisection == TrueBisection(f, s', l');
      } else {
        OpponentReply(g, f, m, states, start, length);
      }
    }
  }

  lemma {:induction false} CutFlipsTurn(g: Game, m: Move)
    requires m.Cut? && Apply(g, m).Some?
    ensures g.turn != NoChallenge
    ensures Apply(g, m).value.turn == if g.turn.Defender? then Challenger else Defender
  {
  }

  /** So in every such play, at its turn and in time, the honest player has a move: a bisection,
      or a one-step proof at a step that starts true and is claimed to end false. */
  lemma {:induction false} HonestNeverStuck(g: Game, f: Truth, honest: Turn, moves: seq<Move>, sender: Address,
                                            now: nat, passed: bool)
        returns (states: seq<Hash>, start: nat, length: nat, index: nat)
    requires HonestInv(g, f, honest) && HonestPlay(g, f, honest, moves) && honest != NoChallenge
    requires var h := Play(g, moves); h.guard.AsDocumented? && h.turn == honest && OnTurn(h, sender, now)
    ensures var h := Play(g, moves);
            && Committed(h, states, start, length) && 0 < index < |states|
            && var (s', l') := SubSegment(|states| - 1, start, length, index);
               && states[index - 1] == f(s') && states[index] != f(s' + l')
               && (Bisect(h, sender, now, TrueBisection(f, s', l'), index, states, start, length).Some?
                   || (l' == 1 && (OneStep(h, sender, now, index, states, start, length, passed, f(s' + 1)).Some?
                                   <==> passed)))
  {
    hide Play, HonestPlay, Bisect, OneStep, OnTurn, Truthful, SubSegment, TrueBisection, FirstFalse;
    HonestInvariant(g, f, honest, moves);
    var h := Play(g, moves);
    states, start, length :| Committed(h, states, start, length) && Disputable(f, states, start, length);
    HonestMove(h, f, sender, now, states, start, length, passed);
    index := FirstFalse(f, states, start, length);
  }

  /** The footing is there as soon as the length is agreed: the start is true, and of the two end
      states the one that gets committed is the honest player's true one, or the opponent's false
      one. Either player may be honest, and either may be the first to bisect. */
  lemma {:induction false} HonestFromAgreement(g: Game, f: Truth, honest: Turn, sender: Address, steps: nat, now: nat)
    requires g.committed == [] && (g.turn.Challenger? ==> g.numSteps > 0) && honest != NoChallenge
    requires InitializeLength(g, sender, steps, now).Some?
    requires InitializeLength(g, sender, steps, now).value.committed != []
    requires g.startStateHash == f(0)
    requires var g' := InitializeLength(g, sender, steps, now).value;
             var own := if honest.Defender? then g.endStateDefenseHash else g.endStateChallengeHash;
             var other := if honest.Defender? then g.endStateChallengeHash else g.endStateDefenseHash;
             if g'.turn == honest then other != f(g'.numSteps) else own == f(g'.numSteps)
    ensures HonestInv(InitializeLength(g, sender, steps, now).value, f, honest)
  {
    AgreementStarts(g, sender, steps, now);
    hide InitializeLength;
    var g' := InitializeLength(g, sender, steps, now).value;
    var end :| Committed(g', [g.startStateHash, end], 0, g'.numSteps)
               && end == if g'.turn.Defender? then g.endStateChallengeHash else g.endStateDefenseHash;
    var states := [g.startStateHash, end];
    assert g'.turn != honest ==> Truthful(f, states, 0, g'.numSteps);
    assert g'.turn == honest ==> Disputable(f, states, 0, g'.numSteps);
  }

  // ---------- stalling ----------

  /** A player can also pass: a one-step proof that does not win leaves the commitment in place and
      hands over the turn. */
  lemma {:induction false} StallKeeps(g: Game, f: Truth, m: Move, states: seq<Hash>, start: nat, length: nat)
    requires Committed(g, states, start, length) && Truthful(f, states, start, length)
    requires m.Prove? && Apply(g, m).Some?
    ensures var g' := Apply(g, m).value;
            && Committed(g', states, start, length) && length <= 3
            && g'.turn == if g.turn.Defender? then Challenger else Defender
  {
    ProveKeeps(g, m, states, start, length);
    PackInjective(m.prev, m.prevStart, m.prevLength, states, start, length);
  }

  /** The honest player, who then faces its own true states, can get only false bisections accepted;
      but it can pass as well, and the opponent faces the true commitment again. */
  lemma {:induction false} StallAnswered(g: Game, f: Truth, m: Move, states: seq<Hash>, start: nat, length: nat,
                                         sender: Address, now: nat, reply: Move)
    requires Committed(g, states, start, length) && Truthful(f, states, start, length)
    requires m.Prove? && Apply(g, m).Some? && OnTurn(Apply(g, m).value, sender, now)
    ensures var g' := Apply(g, m).value;
            && (reply.Cut? && Apply(g', reply).Some? ==>
                  var (s', l') := SubSegment(|states| - 1, start, length, reply.index);
                  reply.bisection[|reply.bisection| - 1] != f(s' + l'))
            && var pass := Prove(sender, now, 1, states, start, length, true, states[1]);
               && Apply(g', pass).Some? && Apply(g', pass).value.turn == g.turn
               && Committed(Apply(g', pass).value, states, start, length)
  {
    StallKeeps(g, f, m, states, start, length);
    var g' := Apply(g, m).value;
    if reply.Cut? && Apply(g', reply).Some? {
      OpponentReply(g', f, reply, states, start, length);
      CutNarrows(g', reply, states, start, length);
    }
    StallKeeps(g', f, Prove(sender, now, 1, states, start, length, true, states[1]), states, start, length);
  }

  /** Some one-step proof by `sender` gets accepted now. */
  ghost predicate CanPass(g: Game, sender: Address, now: nat) {
    exists m: Move :: m.Prove? && m.sender == sender && m.now == now && Apply(g, m).Some?
  }

  /** The player on turn can pass if and only if the committed segment has at most three steps. */
  lemma {:induction false} PassExact(g: Game, sender: Address, now: nat, states: seq<Hash>, start: nat, length: nat)
    requires Committed(g, states, start, length) && OnTurn(g, sender, now)
    ensures CanPass(g, sender, now) <==> length <= 3
  {
    var pass := Prove(sender, now, 1, states, start, length, true, states[1]);
    assert Apply(g, pass).Some? <==> length <= 3;
    forall m: Move | m.Prove? && m.sender == sender && m.now == now && Apply(g, m).Some? ensures length <= 3 {
      PackInjective(m.prev, m.prevStart, m.prevLength, states, start, length);
    }
  }

  /** Against true states, the opponent's move keeps the honest player's footing if and only if it is
      a bisection: passing leaves the honest player in front of its own true states. */
  lemma {:induction false} FootingExact(g: Game, f: Truth, honest: Turn, m: Move, states: seq<Hash>, start: nat,
                                        length: nat)
    requires Committed(g, states, start, length) && Truthful(f, states, start, length)
    requires honest != NoChallenge && g.turn != honest && Apply(g, m).Some?
    ensures HonestInv(Apply(g, m).value, f, honest) <==> m.Cut?
  {
    var g' := Apply(g, m).value;
    if m.Cut? {
      CutFlipsTurn(g, m);
      OpponentReply(g, f, m, states, start, length);
    } else {
      ProveKeeps(g, m, states, start, length);
      StallKeeps(g, f, m, states, start, length);
      hide Apply;
      if HonestInv(g', f, honest) {
        var states', start', length' :| Committed(g', states', start', length')
            && Disputable(f, states', start', length');
        PackInjective(states, start, length, states', start', length');
        TrueEnd(f, states, start, length);
      }
    }
  }

  lemma {:induction false} TrueEnd(f: Truth, states: seq<Hash>, start: nat, length: nat)
    requires (|states| == 2 || |states| == 3) && Truthful(f, states, start, length)
    ensures !Disputable(f, states, start, length)
  {
    SegmentsTile(start, length);
    var n := |states| - 1;
    assert states[n] == f(Position(n, start, length, n));
  }

  /** A game of one step between players 1 and 2, agreed and true: the challenger passes, and the honest
      defender has lost its footing. */
  lemma {:induction false} PassLosesFooting(f: Truth, other: Hash)
    ensures var g := Game(AsDocumented, Challenger, 1, 2, 0, 10, 10, 1, Pack([f(0), f(1)], 0, 1), f(0), f(1), other);
            var pass := Prove(2, 0, 1, [f(0), f(1)], 0, 1, true, f(1));
            && HonestInv(g, f, Defender) && Apply(g, pass).Some? && !HonestInv(Apply(g, pass).value, f, Defender)
  {
    var states := [f(0), f(1)];
    var g := Game(AsDocumented, Challenger, 1, 2, 0, 10, 10, 1, Pack(states, 0, 1), f(0), f(1), other);
    var pass := Prove(2, 0, 1, states, 0, 1, true, f(1));
    assert Apply(g, pass).Some?;
    assert Committed(g, states, 0, 1);
    assert Truthful(f, states, 0, 1);
    hide Apply, Committed, Truthful, Disputable, Pack;
    FootingExact(g, f, Defender, pass, states, 0, 1);
  }

  // ---------- the whole game, passes included ----------

  ghost predicate Disputed(g: Game, f: Truth) {
    exists states, start, length :: Committed(g, states, start, length) && Disputable(f, states, start, length)
  }

  /** The committed states are true, in a segment of at most `bound` steps if there is one. */
  ghost predicate TruthHolds(g: Game, f: Truth, bound: Option<nat>) {
    exists states, start: nat, length: nat ::
      && Committed(g, states, start, length) && Truthful(f, states, start, length)
      && (bound.Some? ==> length <= bound.value)
  }

  /** At the opponent's turn the committed states are true; at the honest player's they are disputable,
      or the opponent has passed in front of true ones. */
  ghost predicate Steady(g: Game, f: Truth, honest: Turn) {
    if g.turn == honest then Disputed(g, f) || TruthHolds(g, f, Some(3)) else TruthHolds(g, f, None)
  }

  lemma {:induction false} FootingSteady(g: Game, f: Truth, honest: Turn)
    requires HonestInv(g, f, honest)
    ensures Steady(g, f, honest)
  {
  }

  /** The honest player bisects by its strategy where there is a dispute and passes where there is
      none; its winning one-step proof ends the game. The opponent does whatever gets accepted. */
  ghost predicate Steadfast(g: Game, f: Truth, honest: Turn, m: Move) {
    Apply(g, m).None? || g.turn != honest
    || (if m.Cut? then Disputed(g, f) && Strategic(g, f, m) else !Disputed(g, f))
  }

  ghost predicate SteadfastPlay(g: Game, f: Truth, honest: Turn, moves: seq<Move>) {
    moves == [] ||
    (SteadfastPlay(g, f, honest, moves[..|moves| - 1])
     && Steadfast(Play(g, moves[..|moves| - 1]), f, honest, moves[|moves| - 1]))
  }

  lemma {:induction false} PassSteady(g: Game, f: Truth, honest: Turn, m: Move, bound: Option<nat>)
    requires TruthHolds(g, f, bound) && !m.Cut? && Apply(g, m).Some? && honest != NoChallenge
    ensures Steady(Apply(g, m).value, f, honest)
  {
    var states, start, length :| Committed(g, states, start, length) && Truthful(f, states, start, length);
    ProveKeeps(g, m, states, start, length);
    StallKeeps(g, f, m, states, start, length);
  }

  lemma {:induction false} CutSteady(g: Game, f: Truth, honest: Turn, m: Move)
    requires Steady(g, f, honest) && Steadfast(g, f, honest, m) && m.Cut? && Apply(g, m).Some? && honest != NoChallenge
    ensures Steady(Apply(g, m).value, f, honest)
  {
    CutFlipsTurn(g, m);
    if g.turn == honest {
      var states, start, length :| Committed(g, states, start, length) && Disputable(f, states, start, length);
      CutNarrows(g, m, states, start, length);
      hide Apply, Committed, Disputable, Truthful, SubSegment;
      var (s', l') := SubSegment(|states| - 1, start, length, m.index);
      TrueBisectionTruthful(f, s', l');
      assert m.bisection == TrueBisection(f, s', l');
    } else {
      var states, start, length :| Committed(g, states, start, length) && Truthful(f, states, start, length);
      OpponentReply(g, f, m, states, start, length);
    }
  }

  /** In every play, passes and rejected calls included, in which the honest player is steadfast. */
  lemma {:induction false} SteadyInvariant(g: Game, f: Truth, honest: Turn, moves: seq<Move>)
    requires Steady(g, f, honest) && SteadfastPlay(g, f, honest, moves) && honest != NoChallenge
    ensures Steady(Play(g, moves), f, honest)
  {
    if moves != [] {
      var h, m := Play(g, moves[..|moves| - 1]), moves[|moves| - 1];
      SteadyInvariant(g, f, honest, moves[..|moves| - 1]);
      hide Play, Steady;
      if Apply(h, m).Some? {
        if m.Cut? {
          CutSteady(h, f, honest, m);
        } else {
          SteadyTruth(h, f, honest, m);
          PassSteady(h, f, honest, m, if h.turn == honest then Some(3) else None);
        }
      }
    }
  }

  lemma {:induction false} SteadyTruth(g: Game, f: Truth, honest: Turn, m: Move)
    requires Steady(g, f, honest) && Steadfast(g, f, honest, m) && !m.Cut? && Apply(g, m).Some?
    ensures TruthHolds(g, f, if g.turn == honest then Some(3) else None)
  {
  }

  /** And in every such play, at its turn and in time, the honest player has a move: in a dispute the
      one of `HonestMove`, otherwise a pass that is accepted if it passes the other contracts' checks. */
  lemma {:induction false} SteadyNeverStuck(g: Game, f: Truth, honest: Turn, moves: seq<Move>, sender: Address,
                                            now: nat)
    requires Steady(g, f, honest) && SteadfastPlay(g, f, honest, moves) && honest != NoChallenge
    requires var h := Play(g, moves); h.turn == honest && OnTurn(h, sender, now)
    ensures var h := Play(g, moves);
            Disputed(h, f) || CanPass(h, sender, now)
  {
    hide Play, SteadfastPlay, Apply, OnTurn;
    SteadyInvariant(g, f, honest, moves);
    var h := Play(g, moves);
    if !Disputed(h, f) {
      var states, start, length :| Committed(h, states, start, length) && Truthful(f, states, start, length)
          && length <= 3;
      PassExact(h, sender, now, states, start, length);
    }
  }

  // ---------- the guard as written ----------

  /** Read as written, `postInitialization` never lets a bisection through. */
  lemma {:induction false} AsWrittenNeverBisects(g: Game, m: Move)
    requires g.guard.AsWritten? && m.Cut?
    ensures Apply(g, m).None?
  {
    assert |Pack(m.prev, m.prevStart, m.prevLength)| >= 2;
  }
}

/** The challenge contract in its own form: storage variables that moves update in place. */
module ChallengeContract {
  import opened Wrappers
  import opened Challenge
  import opened ChallengeProofs

  ghost predicate Outcome(before: Game, spec: Option<Game>, after: Game, ok: bool) {
    match spec
    case None => !ok && after == before
    case Some(g) => ok && after == g
  }

  /** The committed segment, cut by `bisection`, lies within the quoted one. */
  ghost predicate Narrows(g: Game, bisection: seq<Hash>, prevStart: nat, prevLength: nat) {
    exists start: nat, length: nat ::
      Committed(g, bisection, start, length) && prevStart <= start && start + length <= prevStart + prevLength
  }

  lemma {:induction false} MoveNarrows(g: Game, m: Move, g': Game)
    requires (g.committed != [] ==> InPlay(g)) && m.Cut? && Apply(g, m) == Some(g')
    ensures InPlay(g') && FinalBlock(g') == FinalBlock(g) && m.now <= FinalBlock(g)
    ensures Narrows(g', m.bisection, m.prevStart, m.prevLength) && g'.numSteps == g.numSteps
  {
    assert |Pack(m.prev, m.prevStart, m.prevLength)| >= 2;
    MoveKeepsFinalBlock(g, m);
    var states, start, length :| Committed(g, states, start, length);
    CutNarrows(g, m, states, start, length);
  }

  class SymChallenge {
    const guard: Guard
    const defender: Address
    const challenger: Address
    const startStateHash: Hash
    const endStateDefenseHash: Hash
    const endStateChallengeHash: Hash
    var turn: Turn
    var lastMoveBlock: nat
    var defenderTimeLeft: nat
    var challengerTimeLeft: nat
    var numSteps: nat
    var committed: seq<nat>

    ghost function Snapshot(): Game
      reads this
    {
      Game(guard, turn, defender, challenger, lastMoveBlock, defenderTimeLeft, challengerTimeLeft, numSteps,
           committed, startStateHash, endStateDefenseHash, endStateChallengeHash)
    }

    /** Before the length is agreed the challenger only gets the turn with a positive length on the
        table; after that the committed segment lies within the agreed steps. */
    ghost predicate Valid()
      reads this
    {
      && turn != NoChallenge
      && if committed == [] then turn.Challenger? ==> numSteps > 0 else InPlay(Snapshot())
    }

    /** `initialize`, with the zero addresses it rejects excluded. */
    constructor (guard: Guard, defender: Address, challenger: Address, startStateHash: Hash,
                 endStateDefenseHash: Hash, endStateChallengeHash: Hash, challengePeriod: nat, now: nat)
      requires defender != 0 && challenger != 0
      ensures Some(Snapshot()) == Initialize(guard, defender, challenger, startStateHash,
                                             endStateDefenseHash, endStateChallengeHash, challengePeriod, now)
      ensures Valid()
    {
      this.guard, this.defender, this.challenger := guard, defender, challenger;
      this.startStateHash := startStateHash;
      this.endStateDefenseHash, this.endStateChallengeHash := endStateDefenseHash, endStateChallengeHash;
      turn, lastMoveBlock := Defender, now;
      defenderTimeLeft, challengerTimeLeft := challengePeriod, challengePeriod;
      numSteps, committed := 0, [];
    }

    method InitializeChallengeLength(sender: Address, steps: nat, now: nat) returns (ok: bool)
      requires Valid()
      modifies this
      ensures Valid() && (ok && committed != [] ==> 0 < numSteps <= steps)
      ensures Outcome(old(Snapshot()), InitializeLength(old(Snapshot()), sender, steps, now), Snapshot(), ok)
    {
      ghost var before := Snapshot();
      if turn == NoChallenge || now < lastMoveBlock { return false; }
      var elapsed := now - lastMoveBlock;
      if elapsed > (if turn == Defender then defenderTimeLeft else challengerTimeLeft) { return false; }
      if committed != [] || steps == 0 { return false; }

      var proposing := turn == Defender && sender == defender;
      var closing := (proposing || turn == Challenger) && sender == challenger;
      if closing && challengerTimeLeft < elapsed { return false; }
      if proposing {
        numSteps := steps;
        turn := Challenger;
        defenderTimeLeft := defenderTimeLeft - elapsed;
      }
      if turn == Challenger && sender == challenger {
        var endStateHash;
        if steps < numSteps {
          numSteps := steps;
          endStateHash := endStateChallengeHash;
          turn := Defender;
        } else {
          endStateHash := endStateDefenseHash;
          turn := Challenger;
        }
        committed := Pack([startStateHash, endStateHash], 0, numSteps);
        challengerTimeLeft := challengerTimeLeft - elapsed;
      }
      lastMoveBlock := now;
      ok := true;
      if committed != [] {
        assert InitializeLength(before, sender, steps, now) == Some(Snapshot());
        AgreementStarts(before, sender, steps, now);
      }
    }

    /** The part of `onlyOnTurn` after the move. */
    method FinishTurn(now: nat)
      requires lastMoveBlock <= now
      requires turn != NoChallenge ==> now - lastMoveBlock <= ResponderTimeLeft(Snapshot()).value
      modifies this`turn, this`lastMoveBlock, this`defenderTimeLeft, this`challengerTimeLeft
      ensures Snapshot() == EndTurn(old(Snapshot()), now)
    {
      if turn == Challenger {
        challengerTimeLeft := challengerTimeLeft - (now - lastMoveBlock);
        turn := Defender;
      } else if turn == Defender {
        defenderTimeLeft := defenderTimeLeft - (now - lastMoveBlock);
        turn := Challenger;
      }
      lastMoveBlock := now;
    }

    /** An accepted bisection stays within the segment it quotes and before the final block, which does
        not move. */
    method BisectExecution(sender: Address, now: nat, bisection: seq<Hash>, index: nat,
                           prev: seq<Hash>, prevStart: nat, prevLength: nat) returns (ok: bool)
      requires Valid()
      modifies this
      ensures Valid()
      ensures ok ==> now <= FinalBlock(Snapshot()) == old(FinalBlock(Snapshot())) && numSteps == old(numSteps)
      ensures ok ==> Narrows(Snapshot(), bisection, prevStart, prevLength)
      ensures Outcome(old(Snapshot()),
                      Bisect(old(Snapshot()), sender, now, bisection, index, prev, prevStart, prevLength),
                      Snapshot(), ok)
    {
      ghost var before := Snapshot();
      hide InPlay, Narrows, FinalBlock;
      if turn == NoChallenge || sender != (if turn == Defender then defender else challenger) { return false; }
      var timeLeft := if turn == Defender then defenderTimeLeft else challengerTimeLeft;
      if now < lastMoveBlock || now - lastMoveBlock > timeLeft {
        return false;
      }
      if (guard == AsWritten && committed != []) || (guard == AsDocumented && committed == []) { return false; }
      if Pack(prev, prevStart, prevLength) != committed { return false; }
      if !(0 < index < |prev|) { return false; }
      if bisection == [] || bisection[0] != prev[index - 1] { return false; }
      if bisection[|bisection| - 1] == prev[index] { return false; }

      var start, length := prevStart, prevLength;
      if |prev| > 2 {
        var first := FirstSegmentLength(prevLength, MAX_BISECTION_DEGREE);
        var other := OtherSegmentLength(prevLength, MAX_BISECTION_DEGREE);
        length := if index == 1 then first else other;
        if index > 1 {
          start := start + (first + other * (index - 2));
        }
      }
      if length <= 1 { return false; }
      var target := if length < MAX_BISECTION_DEGREE then length else MAX_BISECTION_DEGREE;
      if |bisection| != target + 1 { return false; }
      committed := Pack(bisection, start, length);
      FinishTurn(now);
      ok := true;
      MoveNarrows(before, Cut(sender, now, bisection, index, prev, prevStart, prevLength), Snapshot());
    }

    method VerifyOneStepProof(sender: Address, now: nat, index: nat, prev: seq<Hash>, prevStart: nat, prevLength: nat,
                              passed: bool, endHash: Hash) returns (ok: bool, wins: bool)
      requires Valid()
      modifies this
      ensures Valid()
      ensures ok ==> now <= FinalBlock(Snapshot()) == old(FinalBlock(Snapshot())) && committed == old(committed)
      ensures match OneStep(old(Snapshot()), sender, now, index, prev, prevStart, prevLength, passed, endHash)
              case None => !ok && Snapshot() == old(Snapshot())
              case Some((g, w)) => ok && Snapshot() == g && wins == w
    {
      ghost var before := Snapshot();
      hide InPlay, FinalBlock;
      if turn == NoChallenge || sender != (if turn == Defender then defender else challenger) { return false, false; }
      var timeLeft := if turn == Defender then defenderTimeLeft else challengerTimeLeft;
      if now < lastMoveBlock || now - lastMoveBlock > timeLeft {
        return false, false;
      }
      if Pack(prev, prevStart, prevLength) != committed { return false, false; }
      if !(0 < index < |prev|) { return false, false; }
      if prevLength / MAX_BISECTION_DEGREE > 1 { return false, false; }
      if !passed { return false, false; }
      FinishTurn(now);
      ok, wins := true, endHash != prev[index];
      MoveKeepsFinalBlock(before, Prove(sender, now, index, prev, prevStart, prevLength, passed, endHash));
    }

    /** Once the length is agreed, past the final block somebody has always lost. */
    method TimeOut(now: nat) returns (winner: Option<Address>)
      requires Valid()
      ensures winner == Timeout(Snapshot(), now)
      ensures committed != [] && now > FinalBlock(Snapshot()) ==> winner.Some?
      ensures winner.Some? <==>
              now > lastMoveBlock + if turn == Defender then defenderTimeLeft else challengerTimeLeft
      ensures winner.Some? ==> winner.value == if turn == Defender then challenger else defender
    {
      if now < lastMoveBlock { return None; }
      var timeLeft := if turn == Defender then defenderTimeLeft else challengerTimeLeft;
      if now - lastMoveBlock <= timeLeft { return None; }
      winner := Some(if turn == Defender then challenger else defender);
    }
  }
}
