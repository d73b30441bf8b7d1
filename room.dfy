/**
 * Room (src/model/Room.java): a location of the game world. It owns at most
 * one edible and one item, each handed out once, and names its neighbours
 * by direction. Exits are references to other rooms, not owned by this one.
 */
module Rooms {

  import opened Wrappers
  import opened Chance
  import opened Strings
  import opened Edibles
  import opened Items

  /** The line a description carries while the room has something to eat. */
  const EDIBLE_LINE: string := "There is something to eat here.\n"

  /** The exit directions as the description lists them: each preceded by one space. */
  function ExitList(directions: seq<string>): string {
    if directions == [] then "" else " " + directions[0] + ExitList(directions[1..])
  }

  lemma {:induction false} ExitListAppend(directions: seq<string>, d: string)
    ensures ExitList(directions + [d]) == ExitList(directions) + (" " + d)
    decreases |directions|
  {
    if directions == [] {
      assert directions + [d] == [d];
    } else {
      assert (directions + [d])[1..] == directions[1..] + [d];
      ExitListAppend(directions[1..], d);
    }
  }

  /** Splitting the listed exits on spaces gives back the directions, in the order listed. */
  lemma {:induction false} ExitListWords(directions: seq<string>)
    requires forall i :: 0 <= i < |directions| ==> IsWord(directions[i])
    ensures AtBoundary(ExitList(directions))
    ensures Words(ExitList(directions)) == directions
    decreases |directions|
  {
    if directions != [] {
      var rest := ExitList(directions[1..]);
      ExitListWords(directions[1..]);
      WordsSkipSpace(directions[0] + rest);
      WordsJoin(directions[0], rest);
      assert " " + directions[0] + rest == " " + (directions[0] + rest);
    }
  }

  /** The description's last line, listing the exits in the given order. */
  function ExitsLine(order: seq<string>): string {
    "Exits:" + ExitList(order)
  }

  /** When directions are words, the last line splits into "Exits:" followed by exactly the listed directions. */
  lemma ExitsLineWords(order: seq<string>)
    requires forall i :: 0 <= i < |order| ==> IsWord(order[i])
    ensures Words(ExitsLine(order)) == ["Exits:"] + order
  {
    ExitListWords(order);
    WordsJoin("Exits:", ExitList(order));
  }

  /** order lists every key of keys exactly once, and nothing else. */
  ghost predicate EnumeratesOnce(order: seq<string>, keys: set<string>) {
    (forall d :: d in order <==> d in keys) &&
    (forall i, j :: 0 <= i < j < |order| ==> order[i] != order[j])
  }

  class Room {
    const description: string
    var exits: map<string, Room?>
    var edible: Option<Edible>
    var item: Item?

    /** The normal constructor: no exits, and an edible and an item each as the factories decide. */
    constructor (description: string, edibleDraw: UnitDraw, magnitude: Magnitude, signDraw: UnitDraw,
                 itemDraw: UnitDraw)
      ensures this.description == description && exits == map[]
      ensures edible.Some? <==> edibleDraw <= Edibles.CREATION_PROB
      ensures edible.Some? ==> DrawnAs(edible.value, magnitude, signDraw)
      ensures item != null <==> itemDraw <= Items.CREATION_PROB
      ensures item != null ==> fresh(item) && item.name == BLANK_NAME
    {
      var e := BuildEdible(edibleDraw, magnitude, signDraw);
      var i := Item.BuildItem(itemDraw);
      this.description := description;
      exits := map[];
      edible := e;
      item := i;
    }

    /** The test constructor: no exits and no edible; a blank item exactly when testing. */
    constructor Testing(description: string, testing: bool)
      ensures this.description == description && exits == map[] && edible == None
      ensures testing ==> item != null && fresh(item) && item.name == BLANK_NAME
      ensures !testing ==> item == null
    {
      var i: Item? := null;
      if testing {
        i := Item.BuildTestItem();
      }
      this.description := description;
      exits := map[];
      edible := None;
      item := i;
    }

    /** Registers (or overwrites) the exit in one direction; the destination may be null. */
    method SetExit(direction: string, destination: Room?)
      modifies this
      ensures exits == old(exits)[direction := destination]
      ensures GetExit(direction) == destination
      ensures forall d :: d != direction ==> GetExit(d) == old(GetExit(d))
      ensures edible == old(edible) && item == old(item)
    {
      exits := exits[direction := destination];
    }

    /** The room reached in a direction, null when no exit was registered for it. */
    function GetExit(direction: string): (r: Room?)
      reads this
      ensures direction !in exits ==> r == null
      ensures direction in exits ==> r == exits[direction]
    {
      if direction in exits then exits[direction] else null
    }

    /** Places a deterministic edible: healthy (+1) or unhealthy (-1). */
    method SetTestEdible(healthy: bool)
      modifies this
      ensures HasEdible() && edible.value.IsHealthy() == healthy
      ensures edible.value == if healthy then BuildHealthyEdible() else BuildUnhealthyEdible()
      ensures exits == old(exits) && item == old(item)
    {
      if healthy {
        edible := Some(BuildHealthyEdible());
      } else {
        edible := Some(BuildUnhealthyEdible());
      }
    }

    predicate HasEdible()
      reads this
      ensures HasEdible() <==> edible != None
    {
      edible.Some?
    }

    /** Hands out the edible's effect once: afterwards the room has no edible; 0 when there was none. */
    method EatEdible() returns (effect: int)
      modifies this
      ensures old(edible).Some? ==> effect == old(edible).value.GetEffect()
      ensures old(edible).None? ==> effect == 0
      ensures !HasEdible()
      ensures exits == old(exits) && item == old(item)
    {
      if HasEdible() {
        effect := edible.value.GetEffect();
        edible := None;
        return;
      }
      return 0;
    }

    /** Names the room's item; does nothing when the room has none. */
    method SetItem(itemName: string)
      modifies item
      ensures item != null ==> item.name == itemName
    {
      if item != null {
        item.SetItemName(itemName);
      }
    }

    predicate HasItem()
      reads this
      ensures HasItem() <==> item != null
    {
      item != null
    }

    /** Removes the item once: 1 and no item afterwards when there was one, 0 and no change otherwise. */
    method PickUpItem() returns (picked: int)
      modifies this
      ensures picked == if old(item) != null then 1 else 0
      ensures !HasItem()
      ensures exits == old(exits) && edible == old(edible)
    {
      if HasItem() {
        item := null;
        return 1;
      }
      return 0;
    }

    function GetItem(): (r: Item?)
      reads this
      ensures r != null <==> HasItem()
    {
      item
    }

    /** The name of the room's item, which it must have. */
    function GetItemName(): (name: string)
      requires HasItem()
      reads this, item
      ensures name == item.GetName()
    {
      item.GetName()
    }

    /** The name of the room's item, None when it has none. */
    function ItemName(): (name: Option<string>)
      reads this, item
      ensures name.Some? <==> HasItem()
      ensures HasItem() ==> name.value == GetItemName()
    {
      if item == null then None else Some(item.name)
    }

    /** The line naming the item: only for an item that has been given a real name. */
    function ItemLine(): string
      reads this, item
    {
      if HasItem() && GetItemName() != BLANK_NAME then "The " + GetItemName() + " is here.\n" else ""
    }

    /** Everything the description shows before its exits. */
    function Header(): string
      reads this, item
    {
      description + "\n" + (if HasEdible() then EDIBLE_LINE else "") + ItemLine()
    }

    /** The description the room renders when its exits are enumerated in the given order. */
    function Describe(order: seq<string>): string
      reads this, item
    {
      Header() + ExitsLine(order)
    }

    /**
     * Renders the room. The exits come in the map's own iteration order,
     * which is not specified: each is taken once, in some order that the
     * second result records.
     */
    method ToString() returns (longDescription: string, order: seq<string>)
      ensures EnumeratesOnce(order, exits.Keys)
      ensures longDescription == Describe(order)
    {
      longDescription := description + "\n";
      if HasEdible() {
        longDescription := longDescription + EDIBLE_LINE;
      }
      if HasItem() && GetItemName() != BLANK_NAME {
        longDescription := longDescription + "The " + GetItemName() + " is here.\n";
      }
      longDescription := longDescription + "Exits:";
      ghost var head := longDescription;
      assert head == Header() + "Exits:";
      var remaining := exits.Keys;
      order := [];
      while remaining != {}
        invariant forall d :: d in exits.Keys <==> d in order || d in remaining
        invariant forall d :: d in order ==> d !in remaining
        invariant forall i, j :: 0 <= i < j < |order| ==> order[i] != order[j]
        invariant longDescription == head + ExitList(order)
        decreases remaining
      {
        var direction :| direction in remaining;
        ExitListAppend(order, direction);
        AppendAssoc(head, ExitList(order), " " + direction);
        longDescription := longDescription + (" " + direction);
        order := order + [direction];
        remaining := remaining - {direction};
      }
      AppendAssoc(Header(), "Exits:", ExitList(order));
    }
  }

  lemma PrefixOfAppend(a: string, b: string)
    ensures |a + b| >= |a| && (a + b)[..|a|] == a
  {
  }

  /** The part of the description after the edible line never starts like that line. */
  lemma RestDiffersFromEdibleLine(room: Room, order: seq<string>)
    ensures var rest := room.ItemLine() + ExitsLine(order);
            |rest| > 3 && rest[3] != EDIBLE_LINE[3]
  {
    var exitsLine := ExitsLine(order);
    assert exitsLine[3] == 't';
    if room.ItemLine() != "" {
      var named := "The " + room.GetItemName();
      AppendAssoc(named, " is here.\n", exitsLine);
      assert (room.ItemLine() + exitsLine)[3] == named[3] == ' ';
    }
  }

  /** The description as its three parts: the room's own line, the optional edible line and the rest. */
  lemma DescribeParts(room: Room, order: seq<string>)
    ensures room.Describe(order) ==
            (room.description + "\n") + ((if room.HasEdible() then EDIBLE_LINE else "") + (room.ItemLine() + ExitsLine(order)))
  {
    var head := room.description + "\n";
    var edibleLine := if room.HasEdible() then EDIBLE_LINE else "";
    AppendAssoc(head + edibleLine, room.ItemLine(), ExitsLine(order));
    AppendAssoc(head, edibleLine, room.ItemLine() + ExitsLine(order));
  }

  /** The "something to eat" line follows the room's own description exactly while the room has an edible. */
  lemma EdibleLineIffEdible(room: Room, order: seq<string>)
    ensures var prefix := room.description + "\n" + EDIBLE_LINE;
            var text := room.Describe(order);
            room.HasEdible() <==> |text| >= |prefix| && text[..|prefix|] == prefix
  {
    var head := room.description + "\n";
    var prefix := head + EDIBLE_LINE;
    var rest := room.ItemLine() + ExitsLine(order);
    DescribeParts(room, order);
    if room.HasEdible() {
      AppendAssoc(head, EDIBLE_LINE, rest);
      PrefixOfAppend(prefix, rest);
    } else {
      RestDiffersFromEdibleLine(room, order);
      assert (head + rest)[|head| + 3] == rest[3] != prefix[|head| + 3];
    }
  }

  /**
   * The item line follows the description and the edible line exactly while
   * the room holds an item with a real name, and then it names that item.
   */
  lemma ItemLineIffNamedItem(room: Room, order: seq<string>)
    ensures var head := room.description + "\n" + (if room.HasEdible() then EDIBLE_LINE else "");
            var text := room.Describe(order);
            |text| > |head| &&
            (text[|head|] == 'T' <==> room.HasItem() && room.GetItemName() != BLANK_NAME) &&
            (room.HasItem() && room.GetItemName() != BLANK_NAME ==>
               var line := "The " + room.GetItemName() + " is here.\n";
               |text| >= |head| + |line| && text[|head|..|head| + |line|] == line)
  {
    var head := room.description + "\n" + (if room.HasEdible() then EDIBLE_LINE else "");
    var text := room.Describe(order);
    var exitsLine := ExitsLine(order);
    DescribeParts(room, order);
    AppendAssoc(room.description + "\n", if room.HasEdible() then EDIBLE_LINE else "", room.ItemLine() + exitsLine);
    assert text == head + (room.ItemLine() + exitsLine);
    if room.HasItem() && room.GetItemName() != BLANK_NAME {
      var line := "The " + room.GetItemName() + " is here.\n";
      AppendAssoc(head, line, exitsLine);
      PrefixOfAppend(head + line, exitsLine);
      assert text[|head|..|head| + |line|] == (head + line)[|head|..];
    } else {
      assert text == head + exitsLine;
      assert text[|head|] == exitsLine[0] == 'E';
    }
  }
}
