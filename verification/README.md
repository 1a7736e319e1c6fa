# Hide & Seek game engine, modelled in Dafny

A model of the engine of a two-player hide-and-seek game. One player hides
at a position, the other seeks at a position, and the hider is found exactly
when both positions are the same. The engine keeps each player's cumulative
score and win count. It resolves single rounds, runs a counted series of
rounds, and hands a computer player a strategy. That strategy is, for now,
the uniform distribution over the positions.

Files, one module each:

- `player.dfy` (`Players`): class `Player`, with a fixed role, a fixed
  controller (human or computer), and the fields `score`, `wins` and
  `strategy` that the source updates in place. The three ways the counters
  change are also written as values (`StatOp`, `Apply`, `ApplyAll`). The
  methods are proved to perform exactly those updates, and lemmas state what
  a whole history of updates does.
- `world.dfy` (`Worlds`): the world as the round resolver sees it, a payoff
  `getScore(hider_pos, seeker_pos)`. It is an integer from the hider's
  perspective, and the function is left uninterpreted.
- `game_logic.dfy` (`Game`): the round rules on values (`Resolve`, `Next`,
  `After`) and class `GameLogic`, which updates the two distinct `Player`
  objects and its round counter according to those rules.
- `simulation.dfy` (`Simulations`): class `Simulation` over an existing
  `GameLogic`. Its `for` loop plays the requested number of rounds and
  collects the results in order.
- `lp_solver.dfy` (`LPSolver`): `SolveGame`, the uniform strategy, with the
  proof that it is a probability distribution.

Moves are inputs. `PlayRound` takes the two positions, and `RunSimulation`
takes one `Move` per round. This is because the computer's move selection is
an unimplemented stub, and a human's move needs a choice that `play_round`
never passes to it.

## Model

| member | source | states |
|---|---|---|
| `Players.Player.Human` | player.py:60-65 | a new human player keeps the role it was given and starts with score 0, 0 wins and no strategy |
| `Players.Player.Computer` | player.py:81-87 | a new computer player keeps its role and starts with score 0, 0 wins and an empty strategy |
| `Players.Player.HumanMove` | player.py:67-79 | a human's move is the chosen position, unchanged, whatever the world |
| `Players.Player.AddScore` | player.py:42-49 | the score grows by exactly the points given; wins and everything else are untouched |
| `Players.Player.AddWin` | player.py:51-53 | wins grow by exactly one; the score and everything else are untouched |
| `Players.Player.ResetStats` | player.py:55-58 | score and wins become 0; the strategy is untouched |
| `Players.Player.SetStrategy` | player.py:89-96 | a computer player's strategy becomes exactly the given list, and nothing else changes |
| `Players.NoResetTotals` | player.py:42-53 | over any history without a reset, the score grows by the sum of the points added and wins by the number of wins recorded |
| `Players.WinsNeverDecrease` | player.py:49-58 | a history in which the win count went down contains a reset |
| `Players.ResetForgets` | player.py:55-58 | after a history's last reset, the counters hold only what was added after it |
| `Game.GameLogic.constructor` | game_logic.py:13-26 | a new game holds the given world and players, has round 0, is not over, and leaves both players' counters unchanged |
| `Game.GameLogic.PlayRound` | game_logic.py:28-56 | returns (hider position, seeker position, payoff, found), where found holds exactly when the positions are equal. On a catch the seeker gets a win and minus the payoff, and the hider is untouched. On an escape the hider gets a win and plus the payoff, and the seeker is untouched. The round counter grows by one, and the one-win-per-round balance is kept |
| `Game.GameLogic.ResetGame` | game_logic.py:58-63 | round 0, not over, both players' score and wins 0 |
| `Game.GameLogic.GetPlayerStats` | game_logic.py:65-78 | a read-only snapshot holding exactly the round number and both players' scores and wins |
| `Game.AfterTotals` | game_logic.py:40-54 | over any sequence of rounds, the round counter grows by their number. The seeker gains one win per catch and loses the payoffs of the catches. The hider gains one win per escape and the payoffs of the escapes |
| `Game.WinsCountRounds` | game_logic.py:43-54 | if the two win counts add up to the round number, they still do after any sequence of rounds |
| `Game.AfterAppend` | game_logic.py:28-56 | playing two sequences of rounds one after the other is the same as playing their concatenation |
| `Simulations.RoundsToPlay` | simulation.py:44-56 | a request for n rounds plays n of them when n is positive and none otherwise |
| `Simulations.Simulation.RunSimulation` | simulation.py:44-65 | plays that many rounds (100 by default) and returns one result per round, in play order, entry k being round k's result. The game's statistics are those of playing the moves in order, the round counter grows by the number of rounds, the returned stats equal the snapshot after the last round, and the win balance is kept |
| `Simulations.Simulation.Reset` | simulation.py:67-69 | delegates to the game's reset: round 0, not over, all scores and wins 0 |
| `LPSolver.SolveGame` | lp_solver.py:19-42 | for a non-empty rectangular matrix: one entry per row of the payoff matrix, each 1/n and in (0, 1], depending on neither the entries nor the side; a one-row matrix gives [1.0] |
| `LPSolver.SolveGameSumsToOne` | lp_solver.py:42 | for a non-empty rectangular matrix, the entries of the returned strategy add up to 1 |

## Left out

- The payoff rules of the world (place types, bonuses, proximity) and payoff matrix generation: every method of the world in world.py is an unimplemented stub. `getScore` is therefore an uninterpreted function, and the `PlaceType` enumeration is not modelled because nothing in the engine uses it; only the presentation code colours positions by it.
- `World1D`, `World2D` and `BaseWorld` are not part of this model. They are imported by simulation.py but are not in the sources.
- A position is an integer, as in the 1-D world. A cell of the 2-D world is represented by its linear index. Positions are only compared for equality and passed to `getScore`, so no round behaviour depends on their shape.
- The computer player's move selection (`ComputerPlayer.make_move`) is a stub, and the base `Player.make_move` only raises. Moves are parameters of `PlayRound` and `RunSimulation` instead.
- `Simulation.__init__` is not modelled. It refers to an attribute that does not exist and asks the stub world for a matrix. `Simulations.Simulation` is instead built over a `GameLogic` that already exists.
- `Simulations.Simulation.RunSimulation`: the moves for the rounds come as a sequence, so the model requires at least as many moves as rounds requested.
- The linear-programming formulation and its helpers (`formulate_hider_lp`, `formulate_seeker_lp`, `extract_strategy`) are stubs, so no equilibrium property is stated.
- `LPSolver.SolveGame`: an empty payoff matrix makes the source divide by zero, so the model requires at least one row. Converting the matrix to an array rejects rows of different lengths with a `ValueError`, so the model also requires every row to have the length of the first. Probabilities are exact reals. Floating-point rounding of `1.0 / n` is not modelled, so "sums to 1" holds exactly here but only approximately in floating point.
- `Players.Player.SetStrategy`: the source stores the caller's list itself, so later changes the caller makes to that list would be seen by the player. The model stores the list as a value, so this aliasing is not captured.
- Human and computer players are one class with a fixed `controller` field, since a Dafny class cannot extend another class. A human player also carries an empty `strategy` field that the source's human player does not have.
- `Game.GameLogic.constructor` requires the hider and the seeker to be two different objects. The source never passes the same object twice, and the per-player postconditions of `PlayRound` assume they are distinct.
- The presentation layer (windows, labels, win-rate and average displays) is not modelled.
