/**
 * The random draws the factories of the game consume. The model does not
 * draw them: each factory takes them as parameters, typed by the range the
 * Java generator guarantees.
 */
module Chance {

  /** A result of Random.nextDouble(): a real in [0, 1). */
  type UnitDraw = r: real | 0.0 <= r < 1.0
}
