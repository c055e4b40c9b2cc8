/**
 * The player (text_adventure_game/src/player.py): a pointer to the current
 * room and an ordered inventory, both updated in place.
 */
module Players {
  import opened Wrappers
  import opened Strings
  import opened Dicts
  import opened Messages
  import opened Items
  import opened Rooms

  /** What `move` finds when it follows an exit. */
  datatype Route = Arrive(target: string) | NoExit | MissingRoom(target: string)

  /** The exit for `direction.lower()`: none (or an empty target name), a room
      the registry knows, or a dangling name. */
  function RouteFor(exits: Dict<string>, direction: string, known: seq<string>): Route {
    match exits.Get(Lower(direction))
    case None => NoExit
    case Some(target) =>
      if target == "" then NoExit
      else if target in known then Arrive(target)
      else MissingRoom(target)
  }

  /** What `move` prints for each route: nothing on success, the dangling
      exit reported before the usual refusal. */
  function RouteMessages(route: Route, direction: string): seq<Message> {
    match route
    case Arrive(_) => []
    case NoExit => [CantGoThatWay]
    case MissingRoom(target) => [RoomNotFound(target, direction), CantGoThatWay]
  }

  /** `show_inventory`. */
  function InventoryReport(inventory: seq<Item>): (m: Message)
    ensures m == InventoryEmpty <==> inventory == []
    ensures inventory != [] ==> Text(m) == "Inventory: " + Join(Names(inventory), ", ")
  {
    if inventory == [] then InventoryEmpty else InventoryList(Names(inventory))
  }

  class Player {
    var currentRoom: Room
    var inventory: seq<Item>

    constructor (startingRoom: Room)
      ensures currentRoom == startingRoom && inventory == []
    {
      currentRoom := startingRoom;
      inventory := [];
    }

    /** `move`: follows the exit when its target is a registered room, and
        otherwise stays put and reports why. */
    method Move(direction: string, gameRooms: Dict<Room>) returns (moved: bool, out: seq<Message>)
      modifies this`currentRoom
      ensures var route := RouteFor(old(currentRoom.exits), direction, gameRooms.Keys());
        && moved == route.Arrive?
        && out == RouteMessages(route, Lower(direction))
        && (moved ==> gameRooms.Get(route.target) == Some(currentRoom))
        && (!moved ==> currentRoom == old(currentRoom))
    {
      var d := Lower(direction);
      var next := currentRoom.exits.Get(d);
      if next.Some? && next.value != "" {
        var target := gameRooms.Get(next.value);
        if target.Some? {
          currentRoom := target.value;
          moved, out := true, [];
        } else {
          moved, out := false, [RoomNotFound(next.value, d), CantGoThatWay];
        }
      } else {
        moved, out := false, [CantGoThatWay];
      }
    }

    /** `take_item`: the first match leaves the room and goes to the end of the
        inventory; with no match neither list changes. */
    method TakeItem(itemName: string) returns (taken: bool, out: Message)
      modifies this`inventory, currentRoom`items
      ensures taken == Lookup(old(currentRoom.items), itemName).Some?
      ensures currentRoom.items == Remove(old(currentRoom.items), itemName)
      ensures inventory == old(inventory) + (if taken then [Lookup(old(currentRoom.items), itemName).value] else [])
      ensures out == (if taken then PickedUp(Lookup(old(currentRoom.items), itemName).value.name) else NotFoundHere(itemName))
      ensures multiset(currentRoom.items) + multiset(inventory)
        == old(multiset(currentRoom.items) + multiset(inventory))
    {
      RemoveSplits(currentRoom.items, itemName);
      var item := currentRoom.RemoveItem(itemName);
      if item.Some? {
        inventory := inventory + [item.value];
        taken, out := true, PickedUp(item.value.name);
      } else {
        taken, out := false, NotFoundHere(itemName);
      }
    }

    /** `drop_item`: the first match leaves the inventory and goes to the end
        of the room's items; with no match neither list changes. */
    method DropItem(itemName: string) returns (dropped: bool, out: Message)
      modifies this`inventory, currentRoom`items
      ensures dropped == Lookup(old(inventory), itemName).Some?
      ensures inventory == Remove(old(inventory), itemName)
      ensures currentRoom.items == old(currentRoom.items) + (if dropped then [Lookup(old(inventory), itemName).value] else [])
      ensures out == (if dropped then Dropped(Lookup(old(inventory), itemName).value.name) else DontHave(itemName))
      ensures multiset(currentRoom.items) + multiset(inventory)
        == old(multiset(currentRoom.items) + multiset(inventory))
    {
      RemoveSplits(inventory, itemName);
      ghost var here, held := currentRoom.items, inventory;
      var i := IndexOfName(inventory, itemName);
      match i {
        case None =>
          dropped, out := false, DontHave(itemName);
        case Some(k) =>
          var item := inventory[k];
          assert Lookup(held, itemName) == Some(item);
          assert multiset(held) == multiset(Remove(held, itemName)) + multiset{item};
          inventory := inventory[..k] + inventory[k + 1..];
          currentRoom.AddItem(item);
          assert multiset(currentRoom.items) == multiset(here) + multiset{item};
          dropped, out := true, Dropped(item.name);
      }
    }

    function ShowInventory(): Message
      reads this
    {
      InventoryReport(inventory)
    }

    /** `use_item`: the first case-insensitive inventory match, announced;
        the inventory is not touched. */
    method UseItem(itemName: string) returns (r: Option<Item>, out: Message)
      ensures r == Lookup(inventory, itemName)
      ensures out == (if r.Some? then AttemptUse(r.value.name) else NoSuchItem(itemName))
    {
      var i := IndexOfName(inventory, itemName);
      match i {
        case None =>
          r, out := None, NoSuchItem(itemName);
        case Some(k) =>
          r, out := Some(inventory[k]), AttemptUse(inventory[k].name);
      }
    }

    /** `inventory_get_item`: the same match, silently. */
    method InventoryGetItem(itemName: string) returns (r: Option<Item>)
      ensures r == Lookup(inventory, itemName)
    {
      var i := IndexOfName(inventory, itemName);
      r := match i case None => None case Some(k) => Some(inventory[k]);
    }
  }
}
