/**
 * Rooms (text_adventure_game/src/room.py). A `Room` is an object whose item
 * list and exit dict are updated in place; `RoomState` is the value of its
 * fields at one moment, which the specification of the game works with.
 */
module Rooms {
  import opened Wrappers
  import opened Strings
  import opened Dicts
  import opened Items

  datatype RoomState = RoomState(
    name: string,
    description: string,
    items: seq<Item>,
    exits: Dict<string>,
    doorLocked: bool)
  {
    /** `describe()`: name, description, items line and exits line. */
    function Describe(): string {
      Join([name, description, ItemsLine(items), ExitsLine(exits.Keys())], "\n")
    }
  }

  function ItemsLine(items: seq<Item>): string {
    if items == [] then "No items here." else "Items here: " + Join(Names(items), ", ")
  }

  function ExitsLine(directions: seq<string>): string {
    if directions == [] then "No obvious exits." else "Exits: " + Join(directions, ", ")
  }

  /** The description is exactly four lines: the name, the description, the
      item names in list order or "No items here.", and the exit directions in
      insertion order or "No obvious exits." (given that none of the texts
      holds a line break of its own). */
  lemma DescribeLines(r: RoomState)
    requires '\n' !in r.name && '\n' !in r.description
    requires forall x :: x in r.items ==> '\n' !in x.name
    requires forall k :: k in r.exits.Keys() ==> '\n' !in k
    ensures Split(r.Describe(), '\n') == [r.name, r.description, ItemsLine(r.items), ExitsLine(r.exits.Keys())]
    ensures ItemsLine(r.items) == "No items here." <==> r.items == []
    ensures ExitsLine(r.exits.Keys()) == "No obvious exits." <==> r.exits.Keys() == []
  {
    var names := Names(r.items);
    forall k | 0 <= k < |names| ensures '\n' !in names[k] {
      assert r.items[k] in r.items;
    }
    JoinFree(names, ", ", '\n');
    JoinFree(r.exits.Keys(), ", ", '\n');
    var lines := [r.name, r.description, ItemsLine(r.items), ExitsLine(r.exits.Keys())];
    assert "\n" == ['\n'];
    SplitJoin(lines, '\n');
    if r.items != [] {
      assert ItemsLine(r.items)[0] == 'I';
    }
    if r.exits.Keys() != [] {
      assert ExitsLine(r.exits.Keys())[0] == 'E';
    }
  }

  class Room {
    const name: string
    const description: string
    var items: seq<Item>
    var exits: Dict<string>
    /** `is_treasure_door_locked`: the source attaches it to the hallway only and
        tests it with `hasattr`, so a room without it reads as unlocked. */
    var treasureDoorLocked: bool

    function State(): RoomState
      reads this
    {
      RoomState(name, description, items, exits, treasureDoorLocked)
    }

    constructor (name: string, description: string)
      ensures this.name == name && this.description == description
      ensures items == [] && exits == Empty() && !treasureDoorLocked
    {
      this.name := name;
      this.description := description;
      items := [];
      exits := Empty();
      treasureDoorLocked := false;
    }

    /** `add_item`: appended at the end, no duplicate check. */
    method AddItem(item: Item)
      modifies this`items
      ensures items == old(items) + [item]
      ensures exits == old(exits) && treasureDoorLocked == old(treasureDoorLocked)
    {
      items := items + [item];
    }

    /** `remove_item`: takes out and returns the first case-insensitive match;
        the list is unchanged when there is none. */
    method RemoveItem(itemName: string) returns (r: Option<Item>)
      modifies this`items
      ensures r == Lookup(old(items), itemName)
      ensures items == Remove(old(items), itemName)
    {
      var i := IndexOfName(items, itemName);
      match i {
        case None =>
          r := None;
        case Some(k) =>
          r := Some(items[k]);
          items := items[..k] + items[k + 1..];
      }
    }

    /** `get_item`: the same match as `remove_item`, nothing removed. */
    method GetItem(itemName: string) returns (r: Option<Item>)
      ensures r == Lookup(items, itemName)
    {
      var i := IndexOfName(items, itemName);
      r := match i case None => None case Some(k) => Some(items[k]);
    }

    /** `add_exit`: `exits[direction.lower()] = room_name`. */
    method AddExit(direction: string, roomName: string)
      modifies this`exits
      ensures exits == old(exits).Put(Lower(direction), roomName)
      ensures old(exits).Valid() ==> exits.Valid()
      ensures items == old(items) && treasureDoorLocked == old(treasureDoorLocked)
    {
      PutKeys(exits, Lower(direction), roomName);
      exits := exits.Put(Lower(direction), roomName);
    }

    function Describe(): string
      reads this
    {
      State().Describe()
    }
  }
}
