/** Whose move it is, whose clock runs, and who loses by it; and when moves are accepted. */
module ChallengeClocks {
  import opened Wrappers
  import opened Challenge
  import opened ChallengeProofs

  function Opponent(p: Turn): Turn {
    match p
    case Defender => Challenger
    case Challenger => Defender
    case NoChallenge => NoChallenge
  }

  function Left(g: Game, p: Turn): nat { if p.Defender? then g.defenderTimeLeft else g.challengerTimeLeft }

  function PlayerOf(g: Game, p: Turn): Address { if p.Defender? then g.defender else g.challenger }

  /** `sender` is the player on turn, and its clock has not run out at `now`. */
  predicate InTime(g: Game, sender: Address, now: nat) {
    && !g.turn.NoChallenge? && sender == PlayerOf(g, g.turn)
    && g.lastMoveBlock <= now <= g.lastMoveBlock + Left(g, g.turn)
  }

  // ---------- the start ----------

  /** A challenge between two proper addresses starts with the defender's move and full clocks. */
  lemma {:induction false} FairStart(guard: Guard, d: Address, c: Address, start: Hash, endD: Hash, endC: Hash,
                                     period: nat, now: nat)
    ensures Initialize(guard, d, c, start, endD, endC, period, now).Some? <==> d != 0 && c != 0
    ensures d != 0 && c != 0 ==>
              var g := Initialize(guard, d, c, start, endD, endC, period, now).value;
              && g.turn.Defender? && PlayerOf(g, Defender) == d && PlayerOf(g, Challenger) == c
              && Left(g, Defender) == period == Left(g, Challenger) && g.lastMoveBlock == now
              && g.committed == [] && g.numSteps == 0
              && (g.startStateHash, g.endStateDefenseHash, g.endStateChallengeHash) == (start, endD, endC)
  {
  }

  /** Agreeing on a length, between different players. A proposal is accepted while the clock of the player
      on turn runs and nothing is agreed. The defender's is put on the table; the challenger's, of the same
      or another length, settles the smaller one, and the defender is next if the challenger wanted fewer
      steps, else the challenger. Each is charged for its own move; anybody else only resets the clock. */
  lemma {:induction false} ProposeExact(g: Game, sender: Address, steps: nat, now: nat)
    requires g.defender != g.challenger
    ensures InitializeLength(g, sender, steps, now).Some? <==>
            && InTime(g, PlayerOf(g, g.turn), now) && g.committed == [] && steps > 0
    ensures InitializeLength(g, sender, steps, now).Some? ==>
              var g' := InitializeLength(g, sender, steps, now).value;
              var used := now - g.lastMoveBlock;
              && g'.lastMoveBlock == now
              && (if sender != PlayerOf(g, g.turn) then g' == g.(lastMoveBlock := now)
                  else
                    && Left(g', g.turn) == Left(g, g.turn) - used
                    && Left(g', Opponent(g.turn)) == Left(g, Opponent(g.turn))
                    && (if g.turn.Defender? then g'.turn.Challenger? && g'.numSteps == steps && g'.committed == []
                        else
                          && g'.numSteps == (if steps < g.numSteps then steps else g.numSteps)
                          && (g'.turn.Defender? <==> steps < g.numSteps) && !g'.turn.NoChallenge?
                          && g'.committed
                             == Pack([g.startStateHash,
                                      if steps < g.numSteps then g.endStateChallengeHash else g.endStateDefenseHash],
                                     0, g'.numSteps)))
  {
  }

  // ---------- moves ----------

  /** A bisection of the committed segment is accepted if and only if the player on turn makes it in time,
      quotes the commitment, picks a part of more than one step, and offers three states that agree with the
      part at its start and differ at its end. */
  lemma {:induction false} CutExact(g: Game, m: Move, states: seq<Hash>, start: nat, length: nat)
    requires Committed(g, states, start, length) && g.guard.AsDocumented? && m.Cut?
    ensures Apply(g, m).Some? <==>
            && InTime(g, m.sender, m.now)
            && m.prev == states && m.prevStart == start && m.prevLength == length && 0 < m.index < |states|
            && |m.bisection| == 3 && m.bisection[0] == states[m.index - 1] && m.bisection[2] != states[m.index]
            && SubSegment(|states| - 1, start, length, m.index).1 > 1
  {
    if Apply(g, m).Some? {
      CutNarrows(g, m, states, start, length);
    }
  }

  /** A one-step proof is accepted if and only if the player on turn makes it in time, quotes the commitment,
      at most three steps are left, and the other contracts' checks pass. It wins if and only if the verifier
      arrives at another state than the committed one. */
  lemma {:induction false} ProveExact(g: Game, m: Move, states: seq<Hash>, start: nat, length: nat)
    requires Committed(g, states, start, length) && m.Prove?
    ensures Apply(g, m).Some? <==>
            && InTime(g, m.sender, m.now)
            && m.prev == states && m.prevStart == start && m.prevLength == length && 0 < m.index < |states|
            && length <= 3 && m.passed
    ensures Apply(g, m).Some? ==>
              (OneStep(g, m.sender, m.now, m.index, m.prev, m.prevStart, m.prevLength, m.passed, m.endHash).value.1
               <==> m.endHash != states[m.index])
  {
    if Pack(m.prev, m.prevStart, m.prevLength) == g.committed {
      PackInjective(m.prev, m.prevStart, m.prevLength, states, start, length);
    }
  }

  /** So a step that starts true and is claimed to end false is won, if the verifier computes true states. */
  lemma {:induction false} TrueStepWins(g: Game, f: Truth, m: Move, states: seq<Hash>, start: nat, length: nat)
    requires Committed(g, states, start, length) && Disputable(f, states, start, length)
    requires m.Prove? && Apply(g, m).Some? && m.index == FirstFalse(f, states, start, length)
    requires var (s', l') := SubSegment(|states| - 1, start, length, m.index); l' == 1 && m.endHash == f(s' + 1)
    ensures OneStep(g, m.sender, m.now, m.index, m.prev, m.prevStart, m.prevLength, m.passed, m.endHash).value.1
  {
    ProveExact(g, m, states, start, length);
    FirstFalseSegment(f, states, start, length);
  }

  // ---------- clocks ----------

  /** An accepted move is made by the player on turn while its clock runs; that clock alone is charged, and
      the turn passes. */
  lemma {:induction false} MoverCharged(g: Game, m: Move)
    requires InPlay(g) && Apply(g, m).Some?
    ensures InTime(g, m.sender, m.now)
    ensures var g' := Apply(g, m).value;
            && g'.lastMoveBlock == m.now && g'.turn == Opponent(g.turn)
            && Left(g', g.turn) == Left(g, g.turn) - (m.now - g.lastMoveBlock)
            && Left(g', Opponent(g.turn)) == Left(g, Opponent(g.turn))
            && g'.defender == g.defender && g'.challenger == g.challenger
  {
    var states, start, length :| Committed(g, states, start, length);
    assert g.committed != [] by {
      assert |Pack(states, start, length)| >= 2;
    }
  }

  /** The time that player `p` has spent on its own turns. */
  function Used(g: Game, moves: seq<Move>, p: Turn): nat {
    if moves == [] then 0
    else
      var front, m := moves[..|moves| - 1], moves[|moves| - 1];
      var h := Play(g, front);
      Used(g, front, p)
      + if Apply(h, m).Some? && h.turn == p && h.lastMoveBlock <= m.now then m.now - h.lastMoveBlock else 0
  }

  /** In every play from an agreed length, for each player: what is left on its clock is what it started with
      minus the time it spent on its own turns. */
  lemma {:induction false} ClockPerPlayer(g: Game, moves: seq<Move>, p: Turn)
    requires InPlay(g) && !p.NoChallenge?
    ensures Left(Play(g, moves), p) + Used(g, moves, p) == Left(g, p)
    ensures Play(g, moves).defender == g.defender && Play(g, moves).challenger == g.challenger
  {
    ClockConservation(g, moves);
    if moves != [] {
      hide InPlay, Apply;
      var front, m := moves[..|moves| - 1], moves[|moves| - 1];
      ClockPerPlayer(g, front, p);
      ClockConservation(g, front);
      if Apply(Play(g, front), m).Some? {
        MoverCharged(Play(g, front), m);
      }
    }
  }

  /** In every play from an agreed length: `w` wins by timeout if and only if it is the opponent of the
      player on turn, who with the current wait has spent more than its whole clock on its own turns. */
  lemma {:induction false} TimeoutFair(g: Game, moves: seq<Move>, now: nat, w: Address)
    requires InPlay(g)
    ensures var h := Play(g, moves);
            Timeout(h, now) == Some(w) <==>
            && now > h.lastMoveBlock && Used(g, moves, h.turn) + (now - h.lastMoveBlock) > Left(g, h.turn)
            && w == PlayerOf(g, Opponent(h.turn))
  {
    hide Play, Used;
    ClockConservation(g, moves);
    var h := Play(g, moves);
    var states, start, length :| Committed(h, states, start, length);
    hide InPlay, Committed;
    ClockPerPlayer(g, moves, h.turn);
  }

  /** So a player who stays within its clock on its own turns is never timed out, however long the opponent
      takes. */
  lemma {:induction false} PunctualNeverTimedOut(g: Game, moves: seq<Move>, now: nat, p: Turn)
    requires InPlay(g) && !p.NoChallenge? && g.defender != g.challenger
    requires var h := Play(g, moves);
             h.turn == p && h.lastMoveBlock <= now ==> Used(g, moves, p) + (now - h.lastMoveBlock) <= Left(g, p)
    ensures Timeout(Play(g, moves), now) != Some(PlayerOf(g, Opponent(p)))
  {
    hide Play, Used, InPlay, Timeout;
    TimeoutFair(g, moves, now, PlayerOf(g, Opponent(p)));
    TurnInPlay(g, moves);
  }

  lemma {:induction false} TurnInPlay(g: Game, moves: seq<Move>)
    requires InPlay(g)
    ensures !Play(g, moves).turn.NoChallenge?
  {
    ClockConservation(g, moves);
  }
}
