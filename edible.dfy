/**
 * Edible (src/model/Edible.java): something a player can eat once, changing
 * health by its effect. The effect is fixed when the edible is built and
 * never written again, so an edible is a value.
 */
module Edibles {

  import opened Wrappers
  import opened Chance

  /** The probability that the factory builds an edible at all. */
  const CREATION_PROB: real := 0.6
  /** A sign draw above this value makes the effect negative. */
  const HEALTHY_PROB: real := 0.5

  /** A result of Random.nextInt(5): the magnitude of a random effect. */
  type Magnitude = n: int | 0 <= n < 5

  datatype Edible = Edible(effect: int) {

    /** The health change eating this edible causes (possibly 0). */
    function GetEffect(): (r: int)
      ensures Edible(r) == this
      ensures r >= 0 <==> IsHealthy()
    {
      effect
    }

    /** Eating it does not lower health; an effect of 0 counts as healthy. */
    predicate IsHealthy()
      ensures effect == 0 ==> IsHealthy()
      ensures IsHealthy() <==> !(effect < 0)
    {
      effect >= 0
    }
  }

  /**
   * What the constructor promises about an edible built from the two draws:
   * its effect has the drawn magnitude, and it is healthy exactly when that
   * magnitude is 0 or the sign draw does not exceed HEALTHY_PROB.
   */
  ghost predicate DrawnAs(e: Edible, magnitude: Magnitude, signDraw: UnitDraw) {
    (e.effect == magnitude || e.effect == -(magnitude as int)) &&
    (e.IsHealthy() <==> magnitude == 0 || signDraw <= HEALTHY_PROB)
  }

  /** The two draws determine the edible. */
  lemma DrawnAsDetermines(e1: Edible, e2: Edible, magnitude: Magnitude, signDraw: UnitDraw)
    requires DrawnAs(e1, magnitude, signDraw) && DrawnAs(e2, magnitude, signDraw)
    ensures e1 == e2
  {
  }

  /** The private constructor: draw a magnitude, then maybe negate it. */
  method NewEdible(magnitude: Magnitude, signDraw: UnitDraw) returns (e: Edible)
    ensures DrawnAs(e, magnitude, signDraw)
    ensures -4 <= e.GetEffect() <= 4
    ensures magnitude == 0 ==> e.GetEffect() == 0
  {
    var effect: int := magnitude;
    if signDraw > HEALTHY_PROB {
      effect := effect * -1;
    }
    e := Edible(effect);
  }

  /** The factory: an edible when the creation draw is at most CREATION_PROB, none otherwise. */
  method BuildEdible(creationDraw: UnitDraw, magnitude: Magnitude, signDraw: UnitDraw)
    returns (e: Option<Edible>)
    ensures e.Some? <==> creationDraw <= CREATION_PROB
    ensures e.Some? ==> DrawnAs(e.value, magnitude, signDraw) && -4 <= e.value.GetEffect() <= 4
  {
    if creationDraw <= CREATION_PROB {
      var made := NewEdible(magnitude, signDraw);
      return Some(made);
    }
    return None;
  }

  /** The deterministic healthy edible scenarios use: it raises health by one. */
  function BuildHealthyEdible(): (e: Edible)
    ensures e.IsHealthy() && e.GetEffect() == 1
  {
    Edible(1)
  }

  /** The deterministic unhealthy edible scenarios use: it lowers health by one. */
  function BuildUnhealthyEdible(): (e: Edible)
    ensures !e.IsHealthy() && e.GetEffect() == -1
  {
    Edible(-1)
  }
}
