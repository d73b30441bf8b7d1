/**
 * Player (src/model/Player.java): score, health, the room the player is in
 * and the items picked up. Eating changes the current room first and then
 * the player; picking up appends the room's item to the inventory first and
 * then clears it from the room.
 */
module Players {

  import opened Wrappers
  import opened Strings
  import opened Items
  import opened Rooms
  import opened Commands
  import opened Edibles

  const START_HEALTH: int := 10
  const NOTHING_TO_EAT: string := "Eat what? There's nothing here."
  const HEALTH_CHANGE: string := "Your health changes by "

  /** Health after one update: the old health plus delta, but never below 0. */
  function UpdatedHealth(health: int, delta: int): (r: int)
    ensures r >= 0 && r >= health + delta
    ensures r == 0 || r == health + delta
  {
    if health + delta < 0 then 0 else health + delta
  }

  /**
   * For a player with positive health, an edible is healthy exactly when
   * eating it leaves health no lower than before. At health 0 the clamp
   * hides an unhealthy edible, so the equivalence needs health > 0.
   */
  lemma HealthyIffHealthNotLowered(health: int, e: Edible)
    requires health > 0
    ensures e.IsHealthy() <==> UpdatedHealth(health, e.GetEffect()) >= health
  {
  }

  /** Health after a sequence of updates, applied one at a time. */
  function HealthAfter(health: int, deltas: seq<int>): int
    decreases |deltas|
  {
    if deltas == [] then health else HealthAfter(UpdatedHealth(health, deltas[0]), deltas[1..])
  }

  function Sum(deltas: seq<int>): int
    decreases |deltas|
  {
    if deltas == [] then 0 else deltas[0] + Sum(deltas[1..])
  }

  /** No sequence of updates drives health below 0. */
  lemma {:induction false} HealthAfterNonNegative(health: int, deltas: seq<int>)
    requires health >= 0
    ensures HealthAfter(health, deltas) >= 0
    decreases |deltas|
  {
    if deltas != [] {
      HealthAfterNonNegative(UpdatedHealth(health, deltas[0]), deltas[1..]);
    }
  }

  /** Clamping only ever adds: health ends at least at the plain sum of the updates. */
  lemma {:induction false} HealthAfterAtLeastSum(health: int, deltas: seq<int>)
    ensures HealthAfter(health, deltas) >= health + Sum(deltas)
    decreases |deltas|
  {
    if deltas != [] {
      HealthAfterAtLeastSum(UpdatedHealth(health, deltas[0]), deltas[1..]);
    }
  }

  /** While no running total drops below 0, health is exactly the start plus the sum of updates. */
  lemma {:induction false} HealthAfterWithoutClamping(health: int, deltas: seq<int>)
    requires forall k :: 0 <= k <= |deltas| ==> health + Sum(deltas[..k]) >= 0
    ensures HealthAfter(health, deltas) == health + Sum(deltas)
    decreases |deltas|
  {
    if deltas != [] {
      assert deltas[..1] == [deltas[0]] && Sum(deltas[..1]) == deltas[0] + Sum([]);
      var next := health + deltas[0];
      forall k | 0 <= k <= |deltas| - 1
        ensures next + Sum(deltas[1..][..k]) >= 0
      {
        assert deltas[..k + 1][1..] == deltas[1..][..k];
        assert health + Sum(deltas[..k + 1]) >= 0;
      }
      HealthAfterWithoutClamping(next, deltas[1..]);
      assert deltas[..|deltas|] == deltas;
    }
  }

  /**
   * The converse: from a non-negative start, once some running total drops
   * below 0 the clamp has added something, so health ends above the sum.
   */
  lemma {:induction false} HealthAfterAboveSumOnceClamped(health: int, deltas: seq<int>)
    requires health >= 0
    requires exists k :: 0 <= k <= |deltas| && health + Sum(deltas[..k]) < 0
    ensures HealthAfter(health, deltas) > health + Sum(deltas)
    decreases |deltas|
  {
    var k :| 0 <= k <= |deltas| && health + Sum(deltas[..k]) < 0;
    assert deltas[..0] == [];
    assert k > 0;
    var rest := deltas[1..];
    if health + deltas[0] < 0 {
      HealthAfterAtLeastSum(0, rest);
    } else {
      var next := health + deltas[0];
      assert deltas[..1] == [deltas[0]] && Sum(deltas[..1]) == deltas[0] + Sum([]);
      assert k > 1;
      assert deltas[..k][1..] == rest[..k - 1];
      assert next + Sum(rest[..k - 1]) < 0;
      HealthAfterAboveSumOnceClamped(next, rest);
    }
  }

  /**
   * Clamping happens at every update, not once at the end: from 10, the
   * updates -20 and +5 leave health at 5, whereas max(0, 10 + sum) is 0.
   */
  lemma ClampingIsPerUpdate()
    ensures HealthAfter(10, [-20, 5]) == 5
    ensures 10 + Sum([-20, 5]) < 0
  {
    assert [-20, 5][1..] == [5];
    assert [5][1..] == [];
  }

  /** The message eat() returns when the player ate something with this effect. */
  function EatMessage(effect: int): (m: string)
    ensures |m| > |HEALTH_CHANGE| && m[..|HEALTH_CHANGE|] == HEALTH_CHANGE
    ensures IsNumeral(m[|HEALTH_CHANGE|..]) && ParseInt(m[|HEALTH_CHANGE|..]) == effect
    ensures m != NOTHING_TO_EAT
  {
    IntToStringRoundTrip(effect);
    var m := HEALTH_CHANGE + IntToString(effect);
    assert m[|HEALTH_CHANGE|..] == IntToString(effect);
    assert m[0] != NOTHING_TO_EAT[0];
    m
  }

  /** The outcome of a pick-up request, each with the line the game prints for it. */
  datatype PickUpOutcome = PickUpWhat | NothingToPickUp | PickedUp(name: string) | NotRecognised {

    function Message(): (r: string)
      ensures PickedUp? ==> |r| == 24 + |name| && r[23..|r| - 1] == name
      ensures r == "Pick up what?" <==> PickUpWhat?
    {
      match this
      case PickUpWhat => "Pick up what?"
      case NothingToPickUp => "There is nothing to pick up here."
      case PickedUp(name) => "You have picked up the " + name + "."
      case NotRecognised => "That item is not recognised."
    }
  }

  /** Different outcomes print different lines, so the printed line tells which outcome it was. */
  lemma MessagesDistinguishOutcomes(o1: PickUpOutcome, o2: PickUpOutcome)
    requires o1 != o2
    ensures o1.Message() != o2.Message()
  {
    var m1, m2 := o1.Message(), o2.Message();
    if o1.PickedUp? && o2.PickedUp? {
      var prefix := "You have picked up the ";
      if |o1.name| == |o2.name| {
        assert m1[|prefix|..|prefix| + |o1.name|] == o1.name;
        assert m2[|prefix|..|prefix| + |o2.name|] == o2.name;
      }
    } else {
      assert m1[0] != m2[0] || m1[2] != m2[2];
    }
  }

  /**
   * Which outcome a pick-up request has, given the second word of the
   * command and the name of the item in the room (None for no item).
   */
  function PickUpVerdict(requested: Option<string>, roomItem: Option<string>): (r: PickUpOutcome)
    ensures r == NothingToPickUp <==> roomItem.None?
    ensures r == PickUpWhat <==> requested.None? && roomItem.Some?
    ensures r.PickedUp? <==> requested.Some? && roomItem.Some? && requested.value == roomItem.value
    ensures r.PickedUp? ==> r.name == roomItem.value
    ensures r == NotRecognised <==> requested.Some? && roomItem.Some? && requested.value != roomItem.value
  {
    if requested.None? && roomItem.Some? then PickUpWhat
    else if roomItem.None? then NothingToPickUp
    else if requested.value == roomItem.value then PickedUp(requested.value)
    else NotRecognised
  }

  /** The summary line toString() appends below the room's description. */
  function StatusLine(score: int, health: int): string {
    "Score: " + IntToString(score) + "     Health: " + IntToString(health)
  }

  /** A label, one space and a number split into the label and the number. */
  lemma LabelledNumberWords(tag: string, number: string, rest: string)
    requires IsWord(tag) && IsWord(number) && AtBoundary(rest)
    ensures Words(tag + " " + number + rest) == [tag, number] + Words(rest)
  {
    WordsJoin(number, rest);
    WordsSkipSpace(number + rest);
    WordsJoin(tag, " " + (number + rest));
    AppendAssoc(tag + " ", number, rest);
    AppendAssoc(tag, " ", number + rest);
  }

  /** The summary line splits into its two labels and its two numbers. */
  lemma StatusLineWords(score: int, health: int)
    ensures Words(StatusLine(score, health)) == ["Score:", IntToString(score), "Health:", IntToString(health)]
  {
    var sc, he := IntToString(score), IntToString(health);
    var healthPart := "Health:" + " " + he + "";
    LabelledNumberWords("Health:", he, "");
    WordsSkipSpaces(5, healthPart);
    assert Spaces(5) == "     ";
    var tail := "     " + healthPart;
    LabelledNumberWords("Score:", sc, tail);
    assert healthPart == "Health: " + he;
    assert "     " + "Health: " == "     Health: ";
    AppendAssoc("     ", "Health: ", he);
    assert tail == "     Health: " + he;
    assert "Score:" + " " == "Score: ";
    AppendAssoc("Score: " + sc, "     Health: ", he);
  }

  /** The summary line splits into its two labels and two numbers, and the numbers read back as score and health. */
  lemma StatusLineRoundTrip(score: int, health: int)
    ensures var words := Words(StatusLine(score, health));
            |words| == 4 && words[0] == "Score:" && words[2] == "Health:" &&
            IsNumeral(words[1]) && ParseInt(words[1]) == score &&
            IsNumeral(words[3]) && ParseInt(words[3]) == health
  {
    StatusLineWords(score, health);
    IntToStringRoundTrip(score);
    IntToStringRoundTrip(health);
  }

  class Player {
    var score: int
    var health: int
    var currentLocation: Room
    var inventory: seq<Item?>

    /** Score never goes negative and health is clamped at 0. */
    ghost predicate Valid()
      reads this
    {
      score >= 0 && health >= 0
    }

    /** A new player: score 0, health 10, nothing carried, standing in the start room. */
    constructor (currentLocation: Room)
      ensures Valid()
      ensures score == 0 && health == START_HEALTH && inventory == []
      ensures this.currentLocation == currentLocation
    {
      score := 0;
      health := START_HEALTH;
      this.currentLocation := currentLocation;
      inventory := [];
    }

    method IncrementScore()
      requires Valid()
      modifies this
      ensures Valid()
      ensures score == old(score) + 1
      ensures health == old(health) && currentLocation == old(currentLocation) && inventory == old(inventory)
    {
      score := score + 1;
    }

    /** Adds delta to health, then raises a negative result to 0. */
    method UpdateHealth(delta: int)
      requires Valid()
      modifies this
      ensures Valid()
      ensures health == UpdatedHealth(old(health), delta)
      ensures score == old(score) && currentLocation == old(currentLocation) && inventory == old(inventory)
    {
      health := health + delta;
      if health < 0 {
        health := 0;
      }
    }

    /** Alive while health is positive, so dead exactly at the floor of 0. */
    predicate IsAlive()
      reads this
      ensures IsAlive() <==> health >= 1
    {
      health > 0
    }

    /** Moves the player; whether the room is adjacent is the caller's business. */
    method SetCurrentLocation(room: Room)
      requires Valid()
      modifies this
      ensures Valid()
      ensures currentLocation == room
      ensures score == old(score) && health == old(health) && inventory == old(inventory)
    {
      currentLocation := room;
    }

    /**
     * Eats what the current room offers: the room loses its edible and
     * health changes by exactly its effect (clamped at 0); with nothing to
     * eat, only the message says so.
     */
    method Eat() returns (message: string)
      requires Valid()
      modifies this, currentLocation
      ensures Valid()
      ensures currentLocation == old(currentLocation)
      ensures score == old(score) && inventory == old(inventory)
      ensures !currentLocation.HasEdible()
      ensures currentLocation.exits == old(currentLocation.exits) && currentLocation.item == old(currentLocation.item)
      ensures old(currentLocation.edible).Some? ==>
                var effect := old(currentLocation.edible).value.GetEffect();
                health == UpdatedHealth(old(health), effect) && message == EatMessage(effect)
      ensures old(currentLocation.edible).None? ==> health == old(health) && message == NOTHING_TO_EAT
    {
      if currentLocation.HasEdible() {
        var effect := currentLocation.EatEdible();
        UpdateHealth(effect);
        return EatMessage(effect);
      } else {
        return NOTHING_TO_EAT;
      }
    }

    /**
     * Picks up the item the command names. On success the room's item is
     * appended to the inventory and removed from the room; on any failure
     * nothing changes. The outcome carries the line the game prints.
     */
    method GetItem(command: Command) returns (ok: bool, outcome: PickUpOutcome)
      requires Valid()
      modifies this, currentLocation
      ensures Valid()
      ensures outcome == PickUpVerdict(command.secondWord, old(currentLocation.ItemName()))
      ensures ok <==> outcome.PickedUp?
      ensures currentLocation == old(currentLocation) && score == old(score) && health == old(health)
      ensures currentLocation.exits == old(currentLocation.exits)
      ensures currentLocation.edible == old(currentLocation.edible)
      ensures ok ==> inventory == old(inventory) + [old(currentLocation.item)] && !currentLocation.HasItem()
      ensures !ok ==> inventory == old(inventory) && currentLocation.item == old(currentLocation.item)
    {
      if !command.HasSecondWord() && currentLocation.HasItem() {
        return false, PickUpWhat;
      }
      var requested := command.GetSecondWord();
      if !currentLocation.HasItem() {
        return false, NothingToPickUp;
      }
      if requested.value == currentLocation.GetItemName() {
        AddToInventory(currentLocation.GetItem());
        var picked := currentLocation.PickUpItem();
        return true, PickedUp(requested.value);
      } else {
        return false, NotRecognised;
      }
    }

    method AddToInventory(item: Item?)
      requires Valid()
      modifies this
      ensures Valid()
      ensures inventory == old(inventory) + [item]
      ensures score == old(score) && health == old(health) && currentLocation == old(currentLocation)
    {
      inventory := inventory + [item];
    }

    /** The current room's description, then a line with score and health. */
    method ToString() returns (description: string, order: seq<string>)
      ensures EnumeratesOnce(order, currentLocation.exits.Keys)
      ensures description == currentLocation.Describe(order) + "\n" + StatusLine(score, health)
    {
      description, order := currentLocation.ToString();
      description := description + "\n";
      description := description + "Score: " + IntToString(score) + "     Health: " + IntToString(health);
    }
  }

  /** A player is dead exactly when health has reached its floor of 0. */
  lemma DeadExactlyAtZero(p: Player)
    requires p.Valid()
    ensures !p.IsAlive() <==> p.health == 0
  {
  }
}
