/**
 * Item (src/model/Item.java): a named object a player can pick up. Its name
 * starts as a placeholder and is overwritten in place, so an item is an
 * object.
 */
module Items {

  import opened Chance

  /** The probability that the factory builds an item at all. */
  const CREATION_PROB: real := 0.6
  /** The placeholder name of an item nobody has named yet. */
  const BLANK_NAME: string := "blankItem"

  class Item {
    var name: string

    /** The private constructor: a fresh item carries the placeholder name. */
    constructor ()
      ensures name == BLANK_NAME
    {
      name := BLANK_NAME;
    }

    /** The factory: a blank item when the creation draw is at most CREATION_PROB, null otherwise. */
    static method BuildItem(creationDraw: UnitDraw) returns (r: Item?)
      ensures r != null <==> creationDraw <= CREATION_PROB
      ensures r != null ==> fresh(r) && r.name == BLANK_NAME
    {
      if creationDraw <= CREATION_PROB {
        r := new Item();
        return;
      }
      return null;
    }

    /** The factory scenarios use: always a blank item. */
    static method BuildTestItem() returns (r: Item)
      ensures fresh(r) && r.name == BLANK_NAME
    {
      r := new Item();
    }

    method SetItemName(itemName: string)
      modifies this
      ensures GetName() == itemName
    {
      name := itemName;
    }

    function GetName(): (r: string)
      reads this
      ensures r == name
    {
      name
    }
  }
}
