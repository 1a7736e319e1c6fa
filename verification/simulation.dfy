/**
 * Repeated play: a counted loop over the round resolver that collects each
 * round's result in play order and then reads the statistics snapshot.
 */
module Simulations {

  import opened Game

  /** Rounds played when the caller does not say how many. */
  const DefaultRounds := 100

  /** What a run returns: the final statistics and the per-round results, oldest first. */
  datatype SimulationResult = SimulationResult(stats: Stats, results: seq<RoundResult>)

  /** The number of rounds a request for numRounds plays: none when it is not positive. */
  function RoundsToPlay(numRounds: int): (n: nat)
    ensures numRounds <= 0 ==> n == 0
    ensures numRounds > 0 ==> n == numRounds
  {
    if numRounds > 0 then numRounds else 0
  }

  /** A simulation drives one already-built game. */
  class Simulation {
    const game: GameLogic

    predicate Valid()
    {
      game.Valid()
    }

    constructor (game: GameLogic)
      requires game.Valid()
      ensures Valid() && this.game == game
    {
      this.game := game;
    }

    /**
     * Plays RoundsToPlay(numRounds) rounds; round k uses moves[k]. Returns
     * each round's result in play order and the statistics after the last one.
     */
    method RunSimulation(moves: seq<Move>, numRounds: int := DefaultRounds) returns (out: SimulationResult)
      requires Valid()
      requires numRounds <= |moves|
      modifies game`roundNumber, game.hider`score, game.hider`wins, game.seeker`score, game.seeker`wins
      ensures |out.results| == RoundsToPlay(numRounds)
      ensures forall k :: 0 <= k < |out.results| ==> out.results[k] == Resolve(game.world, moves[k])
      ensures game.GetPlayerStats() == After(old(game.GetPlayerStats()), game.world, moves[..RoundsToPlay(numRounds)])
      ensures game.roundNumber == old(game.roundNumber) + RoundsToPlay(numRounds)
      ensures out.stats == game.GetPlayerStats()
      ensures old(game.Balanced()) ==> game.Balanced()
    {
      var n := RoundsToPlay(numRounds);
      var results: seq<RoundResult> := [];
      ghost var start := game.GetPlayerStats();
      for i := 0 to n
        invariant |results| == i
        invariant forall k :: 0 <= k < i ==> results[k] == Resolve(game.world, moves[k])
        invariant game.GetPlayerStats() == After(start, game.world, moves[..i])
        invariant game.roundNumber == old(game.roundNumber) + i
        invariant old(game.Balanced()) ==> game.Balanced()
      {
        var result := game.PlayRound(moves[i].hider, moves[i].seeker);
        results := results + [result];
        assert moves[..i + 1][..i] == moves[..i];
      }
      var stats := game.GetPlayerStats();
      out := SimulationResult(stats, results);
    }

    /** Starts over: delegates to the game's reset. */
    method Reset()
      requires Valid()
      modifies game`roundNumber, game`gameOver, game.hider`score, game.hider`wins, game.seeker`score, game.seeker`wins
      ensures game.roundNumber == 0 && !game.gameOver
      ensures game.GetPlayerStats() == Zero
    {
      game.ResetGame();
    }
  }
}
