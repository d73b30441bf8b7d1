/**
 * The two deterministic scenarios of src/model/PlayerTest.java. Each
 * returns the values the JUnit assertions inspect, and its postconditions
 * state the values those assertions expect.
 */
module PlayerTests {

  import opened Wrappers
  import opened Edibles
  import opened Items
  import opened Rooms
  import opened Commands
  import opened Players

  /** The five rooms of the inventory scenario, each with its test item named. */
  method InventoryRooms() returns (outside: Room, theater: Room, pub: Room, lab: Room, office: Room)
    ensures fresh(outside) && fresh(theater) && fresh(pub) && fresh(lab) && fresh(office)
    ensures outside != theater && outside != pub && outside != lab && outside != office
    ensures theater != pub && theater != lab && theater != office && pub != lab && pub != office && lab != office
    ensures outside.ItemName() == Some(BLANK_NAME) && theater.ItemName() == Some("notebook")
    ensures pub.ItemName() == Some("drink") && lab.ItemName() == Some("laptop")
    ensures office.ItemName() == Some("printer")
    ensures fresh(outside.item) && fresh(theater.item) && fresh(pub.item) && fresh(lab.item) && fresh(office.item)
  {
    outside := new Room.Testing("outside the main entrance of the university", true);
    theater := new Room.Testing("in a lecture theater", true);
    pub := new Room.Testing("in the campus pub", true);
    lab := new Room.Testing("in a computing lab", true);
    office := new Room.Testing("in the computing admin office", true);

    theater.SetItem("notebook");
    pub.SetItem("drink");
    lab.SetItem("laptop");
    office.SetItem("printer");
  }

  /**
   * Picking up only works for an item that is there under the requested
   * name, and the inventory grows by one per success. Returns the results
   * of the five pick-up requests, the outcomes of the two that fail (a
   * name that does not match the blank item outside; a lab already
   * emptied) and the final inventory size.
   */
  method TestInventory() returns (results: seq<bool>, mismatch: PickUpOutcome, emptied: PickUpOutcome,
                                   inventorySize: nat)
    ensures results == [false, true, true, true, false]
    ensures mismatch == NotRecognised && emptied == NothingToPickUp
    ensures inventorySize == 3
  {
    var outside, theater, pub, lab, office := InventoryRooms();
    var p := new Player(outside);
    // outside holds a blank item, so "testObject" does not match it
    var c := Command("get", Some("testObject"));
    var outcome;
    var got1;
    got1, mismatch := p.GetItem(c);

    p.SetCurrentLocation(pub);
    c := Command("get", Some("drink"));
    var got2;
    got2, outcome := p.GetItem(c);

    p.SetCurrentLocation(theater);
    c := Command("get", Some("notebook"));
    var got3;
    got3, outcome := p.GetItem(c);

    p.SetCurrentLocation(lab);
    c := Command("get", Some("laptop"));
    var got4;
    got4, outcome := p.GetItem(c);
    // the laptop is gone, so the lab has nothing left to pick up
    c := Command("get", Some("printer"));
    var got5;
    got5, emptied := p.GetItem(c);

    results := [got1, got2, got3, got4, got5];
    inventorySize := |p.inventory|;
  }

  /** The four rooms of the health scenario: two with a healthy edible, then two with an unhealthy one. */
  method EdibleRooms() returns (theater: Room, pub: Room, lab: Room, office: Room)
    ensures fresh(theater) && fresh(pub) && fresh(lab) && fresh(office)
    ensures theater != pub && theater != lab && theater != office && pub != lab && pub != office && lab != office
    ensures theater.edible == Some(BuildHealthyEdible()) && pub.edible == Some(BuildHealthyEdible())
    ensures lab.edible == Some(BuildUnhealthyEdible()) && office.edible == Some(BuildUnhealthyEdible())
  {
    theater := new Room.Testing("in a lecture theater", true);
    pub := new Room.Testing("in the campus pub", true);
    lab := new Room.Testing("in a computing lab", true);
    office := new Room.Testing("in the computing admin office", true);

    theater.SetTestEdible(true);
    pub.SetTestEdible(true);
    lab.SetTestEdible(false);
    office.SetTestEdible(false);
  }

  /**
   * Healthy test edibles raise health by one and unhealthy ones lower it by
   * one; an eaten edible is gone. Returns health before and after each of the
   * five eat() calls, and the message of the second call in the theater.
   */
  method TestEdibles() returns (healths: seq<int>, secondMessage: string)
    ensures healths == [10, 11, 11, 12, 11, 10]
    ensures secondMessage == NOTHING_TO_EAT
  {
    var theater, pub, lab, office := EdibleRooms();
    var p := new Player(theater);
    assert p.health == 10;
    var h0 := p.health;
    var message := p.Eat();
    assert p.health == 11;
    var h1 := p.health;

    secondMessage := p.Eat();
    assert secondMessage == NOTHING_TO_EAT && p.health == 11;
    var h2 := p.health;

    p.SetCurrentLocation(pub);
    message := p.Eat();
    assert p.health == 12;
    var h3 := p.health;

    p.SetCurrentLocation(lab);
    message := p.Eat();
    assert p.health == 11;
    var h4 := p.health;

    p.SetCurrentLocation(office);
    message := p.Eat();
    assert p.health == 10;
    healths := [h0, h1, h2, h3, h4, p.health];
  }
}
