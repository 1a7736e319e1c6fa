/**
 * The game world, as far as the round resolver uses it: a payoff for every
 * (hider position, seeker position) pair, an integer from the hider's
 * perspective. How the payoff is computed is not part of this model, so it
 * is an uninterpreted function carried by the world value.
 */
module Worlds {

  datatype World = World(getScore: (int, int) -> int)
}
