# World of Zuul: the world and player state, in Dafny

This project models the world state of a "World of Zuul" text adventure.

- **Rooms** are joined by named exits. A room holds at most one edible and at most one item. Each of these can be taken only once.
- **Edibles** change a player's health by an effect between -4 and 4.
- **Items** have a name and can be picked up into the player's inventory.
- **The player** has a score, a health that never drops below 0, a current room and an inventory.
- Eating changes the current room first and then the player. Picking up appends the room's item to the inventory first and then clears it from the room.

The classes that are changed in place in Java (`Room`, `Player`, `Item`) are Dafny classes. Their methods have `modifies` clauses, and their postconditions say what the new state is and what stays the same. An `Edible`'s effect is fixed once the edible is built, so `Edible` is a datatype. The random draws that the Java factories make are parameters. Their types are the ranges `Random.nextDouble()` and `Random.nextInt(5)` can return. The two deterministic JUnit scenarios are methods, and their postconditions state the values the JUnit assertions expect.

Modules, one file each:

- `Wrappers` (`wrappers.dfy`): `Option`. It holds a room's edible that may be null and a command's missing second word. A possibly-null `Room` or `Item` is a nullable class type (`Room?`, `Item?`): the exit map's values, a room's item, the inventory's entries and what `Item.BuildItem` returns.
- `Chance` (`chance.dfy`): the type of a `nextDouble()` draw.
- `Strings` (`strings.dfy`): how Java renders an `int` in a string, and how to read it back. It also splits text into words, so properties of the rendered descriptions can be stated.
- `Edibles`, `Items`, `Rooms`, `Players`, `PlayerTests`: one module per Java source file.
- `Commands` (`command.dfy`): a command word plus an optional second word. `Command.java` is not part of this model, so only this shape is used.

Notes on the code:

- `Room.pickUpItem` returns the int 1 or 0. `Player.getItem` reads the item with `Room.getItem` before `pickUpItem` clears it.
- Health is clamped at 0 after every update. So after several updates, health is 10 plus the sum of the deltas exactly while no running total is negative. `HealthAfterWithoutClamping` proves that this case gives the sum. `HealthAfterAboveSumOnceClamped` proves that, from a non-negative start, a negative running total leaves health above the sum. In `ClampingIsPerUpdate`, updates of -20 then +5 from 10 give 5.
- `Room(description, false)` has neither an edible nor an item.

## Model

| member | source | states |
|---|---|---|
| `Edibles.NewEdible` | src/model/Edible.java:15-20 | The effect has the drawn magnitude (0..4), so it lies in [-4, 4]. It is negative exactly when the magnitude is non-zero and the sign draw exceeds 0.5. A magnitude of 0 gives effect 0 whatever the sign draw. |
| `Edibles.DrawnAsDetermines` | src/model/Edible.java:15-20 | The magnitude and sign draws fix the edible's effect: two edibles built from the same draws are equal. |
| `Edibles.Edible.GetEffect` | src/model/Edible.java:39-41 | The effect is all there is to an edible: the edible with that effect is this one. It is non-negative exactly when the edible is healthy. |
| `Edibles.Edible.IsHealthy` | src/model/Edible.java:50-52 | Healthy exactly when the effect is not negative, so an effect of 0 counts as healthy. |
| `Players.HealthyIffHealthNotLowered` | src/model/Edible.java:50-52 | While health is positive, an edible is healthy exactly when eating it leaves health no lower than before. |
| `Edibles.BuildEdible` | src/model/Edible.java:27-32 | An edible is built exactly when the creation draw is at most 0.6 (`CREATION_PROB`); otherwise none. A built edible is as the constructor promises. |
| `Edibles.BuildHealthyEdible` | src/model/Room.java:96 | The deterministic test edible is healthy and has effect +1. |
| `Edibles.BuildUnhealthyEdible` | src/model/Room.java:98 | The deterministic test edible is unhealthy and has effect -1. |
| `Items.Item.constructor` | src/model/Item.java:14-16 | A new item is named "blankItem". |
| `Items.Item.BuildItem` | src/model/Item.java:23-28 | A fresh blank item exactly when the creation draw is at most 0.6; otherwise null. |
| `Items.Item.BuildTestItem` | src/model/Item.java:34-36 | Always a fresh, non-null item named "blankItem". |
| `Items.Item.GetName` | src/model/Item.java:45-47 | The item's current name: "blankItem" from the constructor, or the last name set. |
| `Items.Item.SetItemName` | src/model/Item.java:38-47 | Afterwards `GetName()` is the new name; the last write wins. |
| `Rooms.Room.constructor` | src/model/Room.java:39-45 | The room keeps its description and has no exits. It has an edible exactly when the edible creation draw is at most 0.6, with the effect the draws give. It has a fresh blank item exactly when the item draw is at most 0.6. |
| `Rooms.Room.Testing` | src/model/Room.java:53-60 | No exits and no edible. A fresh "blankItem" item when testing, and no item otherwise. |
| `Rooms.Room.SetExit` | src/model/Room.java:68-71 | The exit map gets this direction set to the destination, which may be null. `GetExit` of that direction returns the destination. Every other direction and the edible and item are unchanged. |
| `Rooms.Room.GetExit` | src/model/Room.java:87-89 | Null for a direction never registered; otherwise the registered destination. |
| `Rooms.Room.SetTestEdible` | src/model/Room.java:94-100 | Afterwards the room has an edible whose `IsHealthy()` equals the argument: the +1 or the -1 test edible. Exits and item are unchanged. |
| `Rooms.Room.HasEdible` | src/model/Room.java:106-108 | True exactly when the room holds an edible. |
| `Rooms.Room.EatEdible` | src/model/Room.java:115-122 | Returns the effect of the edible that was there, or 0 when there was none. Afterwards the room has no edible, so a second call returns 0. Exits and item are unchanged. |
| `Rooms.Room.SetItem` | src/model/Room.java:127-132 | Renames the room's item when it has one. Only that item is modified, so with no item nothing changes. |
| `Rooms.Room.HasItem` | src/model/Room.java:138-140 | True exactly when the room holds an item. |
| `Rooms.Room.PickUpItem` | src/model/Room.java:147-153 | Returns 1 when there was an item and 0 otherwise. Afterwards the room has no item. Exits and edible are unchanged. |
| `Rooms.Room.GetItem` | src/model/Room.java:155-157 | The result is non-null exactly when the room has an item. |
| `Rooms.Room.GetItemName` | src/model/Room.java:159-161 | Only callable when the room has an item; it is that item's name. |
| `Rooms.Room.ItemName` | src/model/Room.java:138-161 | The item's name when the room has an item, and None exactly when it has none. |
| `Rooms.Room.ToString` | src/model/Room.java:163-176 | The text is the room's description with its exits listed in some order. That order lists every registered direction exactly once and nothing else, including directions registered with a null destination. |
| `Rooms.EdibleLineIffEdible` | src/model/Room.java:164-167 | The line "There is something to eat here." follows the description exactly when the room has an edible. |
| `Rooms.ItemLineIffNamedItem` | src/model/Room.java:168-170 | The item line appears exactly when the room has an item whose name is not "blankItem". When it appears, it names that item. |
| `Rooms.ExitListWords` | src/model/Room.java:172-174 | When directions contain no spaces, splitting the listed exits on spaces gives back exactly the listed directions, in order. |
| `Rooms.ExitsLineWords` | src/model/Room.java:171-174 | When directions contain no spaces, the last line splits into "Exits:" followed by exactly the listed directions. |
| `Players.Player.constructor` | src/model/Player.java:15-20 | Score 0, health 10, an empty inventory, standing in the start room. |
| `Players.Player.IncrementScore` | src/model/Player.java:33-35 | Score goes up by exactly 1, and nothing else changes. |
| `Players.UpdatedHealth` | src/model/Player.java:49-54 | The updated health is the least value that is at least 0 and at least old + delta, i.e. `max(0, old + delta)`. |
| `Players.Player.UpdateHealth` | src/model/Player.java:49-54 | Health becomes `UpdatedHealth(old, delta)`, so health >= 0 is kept. Score, location and inventory are unchanged. |
| `Players.HealthAfterNonNegative` | src/model/Player.java:49-54 | No sequence of updates drives health below 0. |
| `Players.HealthAfterAtLeastSum` | src/model/Player.java:49-54 | After any sequence of updates, health is at least the start plus the sum of the deltas. |
| `Players.HealthAfterWithoutClamping` | src/model/Player.java:49-54 | While no running total drops below 0, health is exactly the start plus the sum of the deltas. |
| `Players.HealthAfterAboveSumOnceClamped` | src/model/Player.java:49-54 | The converse of the previous row: from a non-negative start, if some running total drops below 0, health ends strictly above the start plus the sum. |
| `Players.ClampingIsPerUpdate` | src/model/Player.java:49-54 | From 10, updates -20 then +5 give 5, although 10 + sum is negative, so the clamp applies at each update. |
| `Players.Player.IsAlive` | src/model/Player.java:59-60 | Alive exactly when health is at least 1, i.e. health > 0. |
| `Players.DeadExactlyAtZero` | src/model/Player.java:59-60 | For a valid player, not alive holds exactly when health is 0. |
| `Players.Player.SetCurrentLocation` | src/model/Player.java:92-94 | The player is in the given room; score, health and inventory are unchanged, so `Valid()` is kept. |
| `Players.Player.Eat` | src/model/Player.java:96-105 | With an edible in the room: health becomes `max(0, old + effect)`, the room loses its edible, and the message reports the effect. Without one: health stays the same and the message is "Eat what? There's nothing here.". Score, inventory, location, exits and the room's item are unchanged either way. |
| `Players.EatMessage` | src/model/Player.java:100 | The message is "Your health changes by " followed by a numeral that reads back as the effect, and it differs from the nothing-to-eat message. |
| `Players.PickUpVerdict` | src/model/Player.java:111-135 | The request fails as ambiguous exactly when there is no second word but there is an item. It finds nothing exactly when the room has no item. It succeeds exactly when the second word equals the item's name. It is not recognised exactly when the second word differs from the name. |
| `Players.PickUpOutcome.Message` | src/model/Player.java:115-132 | The printed line for each outcome. A success line has length 24 plus the name's length and carries the picked-up name back between "You have picked up the " and the final ".". The line is "Pick up what?" exactly for the ambiguous request. |
| `Players.MessagesDistinguishOutcomes` | src/model/Player.java:115-132 | Different pick-up outcomes print different lines, including successes with different names. |
| `Players.Player.GetItem` | src/model/Player.java:111-136 | The outcome is `PickUpVerdict` of the second word and the room's item name, and the result is true exactly on success. On success, the inventory is the old one with the room's former item object appended, and the room has no item. On failure, the inventory and the room's item are unchanged. Score, health, location, exits and edible never change. |
| `Players.Player.AddToInventory` | src/model/Player.java:141-143 | The inventory is the old one with the item appended; score, health and location are unchanged, so `Valid()` is kept. |
| `Players.StatusLineWords` | src/model/Player.java:170 | The summary line splits into "Score:", the score's numeral, "Health:" and the health's numeral. |
| `Players.StatusLineRoundTrip` | src/model/Player.java:170 | The summary line's numerals read back as the score and the health. |
| `Players.Player.ToString` | src/model/Player.java:168-172 | The room's description, a newline, then the summary line with the current score and health. |
| `Strings.IntToStringRoundTrip` | src/model/Player.java:100 | Reading back an int rendered inside a string gives the int. |
| `PlayerTests.InventoryRooms` | src/model/PlayerTest.java:42-52 | Five distinct fresh test rooms. Outside holds "blankItem"; the other four hold "notebook", "drink", "laptop" and "printer". |
| `PlayerTests.TestInventory` | src/model/PlayerTest.java:41-82 | The five pick-ups give false, true, true, true, false. The first fails as a name mismatch and the last because the lab is empty. The inventory ends with 3 items. |
| `PlayerTests.EdibleRooms` | src/model/PlayerTest.java:90-101 | Four distinct fresh rooms: two with the healthy test edible, two with the unhealthy one. |
| `PlayerTests.TestEdibles` | src/model/PlayerTest.java:88-132 | Health runs 10, 11, 11, 12, 11, 10. The second eat in the theater returns "Eat what? There's nothing here.". |

## Left out

- Randomness: `java.util.Random` is not modelled. Each draw is a parameter typed by the range the generator returns. The probabilities are not modelled.
- `testProbabilities` (src/model/PlayerTest.java:14-31): a statistical check over 100 random builds. It can only be sampled, not proved.
- Floating point: the draws and the constants 0.6 and 0.5 are exact reals, not Java doubles.
- Integer width: score and health are unbounded integers. Java's 32-bit wrap-around in `score++` and `health += d` is not modelled.
- Console output: `getItem`'s `System.out.println` lines are returned as the outcome's `Message()` instead of being printed. `printInventory` is pure console output and is left out.
- `Rooms.Room.ToString`: `HashMap` iteration order is implementation-defined. The model fixes only that each registered direction appears exactly once; the order is an arbitrary choice returned as a second result.
- `Players.Player.ToString`: inherits the same unspecified exit order from the room.
- `Command.java` is not part of this model. A command is a command word and an optional second word.
- Null references the Java code would not survive: a `Player` built with a null room, and a null `Boolean` passed to the test-mode `Room` constructor. A player's room is non-null and `testing` is a `bool`.
- Null strings: a Dafny `string` cannot be null, so the following are not modelled.
  - A null direction, which `HashMap.put` accepts (src/model/Room.java:70), after which `toString` lists " null".
  - `setItem(null)` (src/model/Room.java:129), after which `toString` throws at src/model/Room.java:168.
  - A null description, which `toString` renders as "null".
- `Edible.buildHealthyEdible` and `Edible.buildUnhealthyEdible` are called at src/model/Room.java:96-98 but are missing from the Java source. They are modelled as effect +1 and -1, as the test comment at src/model/PlayerTest.java:97 says.
- The getters `getDescription`, `getScore`, `getHealth`, `getCurrentLocation` and `getInventory` are plain field reads. Callers read the fields directly.
- Building the room graph and the game loop are outside these files.
- `PlayerTests.TestInventory`, `PlayerTests.TestEdibles`: the rooms are built and stocked in helper methods (`InventoryRooms`, `EdibleRooms`). The checks between steps of the JUnit tests are stated once, as postconditions on the values they inspect.
