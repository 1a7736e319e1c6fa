/**
 * The round resolver. One round takes a position from each side, decides
 * whether the hider was found, credits the winner of the round with a win
 * and with the payoff (negated for the seeker, whose view is opposite to the
 * hider's), and advances the round counter.
 *
 * The rules are stated once on values (Resolve, Next, After); the class
 * GameLogic is proved to follow them on the two Player objects it updates.
 */
module Game {

  import opened Worlds
  import opened Players

  /** The positions the two sides chose for one round. */
  datatype Move = Move(hider: int, seeker: int)

  /** What a round returns: both positions, the payoff and whether the hider was found. */
  datatype RoundResult = RoundResult(hiderPos: int, seekerPos: int, score: int, found: bool)

  /** The statistics snapshot: round counter, both scores and both win counts. */
  datatype Stats = Stats(round: nat, hiderScore: int, seekerScore: int, hiderWins: nat, seekerWins: nat)

  /** The statistics of a game that has just been reset. */
  const Zero := Stats(0, 0, 0, 0, 0)

  /** The outcome of one round: the hider is found exactly when both chose the same position. */
  function Resolve(world: World, m: Move): RoundResult
  {
    RoundResult(m.hider, m.seeker, world.getScore(m.hider, m.seeker), m.hider == m.seeker)
  }

  /** The statistics after one round with the given outcome. */
  function Next(st: Stats, r: RoundResult): Stats
  {
    if r.found then
      st.(round := st.round + 1, seekerWins := st.seekerWins + 1, seekerScore := st.seekerScore - r.score)
    else
      st.(round := st.round + 1, hiderWins := st.hiderWins + 1, hiderScore := st.hiderScore + r.score)
  }

  /** The statistics after playing the given moves in order. */
  function After(st: Stats, world: World, moves: seq<Move>): Stats
  {
    if moves == [] then st
    else Next(After(st, world, moves[..|moves| - 1]), Resolve(world, moves[|moves| - 1]))
  }

  /** Number of rounds among the moves in which the hider is found. */
  function Catches(moves: seq<Move>): (n: nat)
    ensures n <= |moves|
  {
    if moves == [] then 0
    else (if moves[0].hider == moves[0].seeker then 1 else 0) + Catches(moves[1..])
  }

  /** Total payoff of the rounds in which the hider is found. */
  function CaughtPayoff(world: World, moves: seq<Move>): int
  {
    if moves == [] then 0
    else (if moves[0].hider == moves[0].seeker then world.getScore(moves[0].hider, moves[0].seeker) else 0)
         + CaughtPayoff(world, moves[1..])
  }

  /** Total payoff of the rounds in which the hider escapes. */
  function EscapedPayoff(world: World, moves: seq<Move>): int
  {
    if moves == [] then 0
    else (if moves[0].hider != moves[0].seeker then world.getScore(moves[0].hider, moves[0].seeker) else 0)
         + EscapedPayoff(world, moves[1..])
  }

  lemma {:induction false} TotalsSnoc(world: World, moves: seq<Move>, m: Move)
    ensures Catches(moves + [m]) == Catches(moves) + (if m.hider == m.seeker then 1 else 0)
    ensures CaughtPayoff(world, moves + [m])
         == CaughtPayoff(world, moves) + (if m.hider == m.seeker then world.getScore(m.hider, m.seeker) else 0)
    ensures EscapedPayoff(world, moves + [m])
         == EscapedPayoff(world, moves) + (if m.hider != m.seeker then world.getScore(m.hider, m.seeker) else 0)
  {
    if moves == [] {
      assert [m][1..] == [];
    } else {
      assert (moves + [m])[1..] == moves[1..] + [m];
      TotalsSnoc(world, moves[1..], m);
    }
  }

  /**
   * Playing a sequence of rounds adds one to the round counter per round,
   * one seeker win per catch and one hider win per escape; the hider's score
   * grows by the payoffs of the escapes and the seeker's score shrinks by the
   * payoffs of the catches.
   */
  lemma {:induction false} AfterTotals(st: Stats, world: World, moves: seq<Move>)
    ensures After(st, world, moves) == Stats(
      st.round + |moves|,
      st.hiderScore + EscapedPayoff(world, moves),
      st.seekerScore - CaughtPayoff(world, moves),
      st.hiderWins + (|moves| - Catches(moves)),
      st.seekerWins + Catches(moves))
  {
    if moves != [] {
      var front, last := moves[..|moves| - 1], moves[|moves| - 1];
      assert moves == front + [last];
      AfterTotals(st, world, front);
      TotalsSnoc(world, front, last);
    }
  }

  /**
   * Every round has exactly one winner: if the win counts add up to the
   * round counter before a sequence of rounds, they still do afterwards.
   */
  lemma {:induction false} WinsCountRounds(st: Stats, world: World, moves: seq<Move>)
    requires st.hiderWins + st.seekerWins == st.round
    ensures var fin := After(st, world, moves); fin.hiderWins + fin.seekerWins == fin.round
  {
    AfterTotals(st, world, moves);
  }

  /** Playing the rounds of two consecutive move sequences is playing their concatenation. */
  lemma {:induction false} AfterAppend(st: Stats, world: World, xs: seq<Move>, ys: seq<Move>)
    ensures After(After(st, world, xs), world, ys) == After(st, world, xs + ys)
  {
    if ys != [] {
      var front, last := ys[..|ys| - 1], ys[|ys| - 1];
      assert (xs + ys)[..|xs + ys| - 1] == xs + front;
      AfterAppend(st, world, xs, front);
    } else {
      assert xs + ys == xs;
    }
  }

  /**
   * The round resolver: a world, the hider and the seeker (two distinct
   * players), a round counter and a game-over flag.
   */
  class GameLogic {
    const world: World
    const hider: Player
    const seeker: Player
    var roundNumber: nat
    var gameOver: bool

    predicate Valid()
    {
      hider != seeker
    }

    /** The snapshot of the current round number and both players' counters. */
    function GetPlayerStats(): (s: Stats)
      reads this, hider, seeker
      ensures s.round == roundNumber
      ensures s.hiderScore == hider.score && s.hiderWins == hider.wins
      ensures s.seekerScore == seeker.score && s.seekerWins == seeker.wins
    {
      Stats(roundNumber, hider.score, seeker.score, hider.wins, seeker.wins)
    }

    /** Every round so far has credited exactly one win. */
    predicate Balanced()
      reads this, hider, seeker
    {
      hider.wins + seeker.wins == roundNumber
    }

    constructor (world: World, hider: Player, seeker: Player)
      requires hider != seeker
      ensures Valid()
      ensures this.world == world && this.hider == hider && this.seeker == seeker
      ensures roundNumber == 0 && !gameOver
      ensures unchanged(hider, seeker)
    {
      this.world := world;
      this.hider := hider;
      this.seeker := seeker;
      roundNumber := 0;
      gameOver := false;
    }

    method PlayRound(hiderPos: int, seekerPos: int) returns (r: RoundResult)
      requires Valid()
      modifies this`roundNumber, hider`score, hider`wins, seeker`score, seeker`wins
      ensures r.found <==> hiderPos == seekerPos
      ensures r == Resolve(world, Move(hiderPos, seekerPos))
      ensures roundNumber == old(roundNumber) + 1
      ensures r.found ==>
        && seeker.Counters() == ApplyAll(old(seeker.Counters()), [Won, Scored(-r.score)])
        && hider.Counters() == old(hider.Counters())
      ensures !r.found ==>
        && hider.Counters() == ApplyAll(old(hider.Counters()), [Won, Scored(r.score)])
        && seeker.Counters() == old(seeker.Counters())
      ensures GetPlayerStats() == Next(old(GetPlayerStats()), r)
      ensures old(Balanced()) ==> Balanced()
    {
      var score := world.getScore(hiderPos, seekerPos);
      var found := hiderPos == seekerPos;
      if found {
        seeker.AddWin();
        seeker.AddScore(-score);
        TwoOps(old(seeker.Counters()), Won, Scored(-score));
      } else {
        hider.AddWin();
        hider.AddScore(score);
        TwoOps(old(hider.Counters()), Won, Scored(score));
      }
      roundNumber := roundNumber + 1;
      r := RoundResult(hiderPos, seekerPos, score, found);
    }

    method ResetGame()
      requires Valid()
      modifies this`roundNumber, this`gameOver, hider`score, hider`wins, seeker`score, seeker`wins
      ensures roundNumber == 0 && !gameOver
      ensures hider.Counters() == Apply(old(hider.Counters()), Reset)
      ensures seeker.Counters() == Apply(old(seeker.Counters()), Reset)
      ensures GetPlayerStats() == Zero && Balanced()
    {
      roundNumber := 0;
      gameOver := false;
      hider.ResetStats();
      seeker.ResetStats();
    }
  }
}
