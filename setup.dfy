/**
 * The world `initialize_world` (text_adventure_game/src/game.py) builds, as
 * a value: five rooms keyed by name, four items, the exits, and the hallway
 * door locked.
 */
module Setup {
  import opened Wrappers
  import opened Strings
  import opened Dicts
  import opened Items
  import opened Rooms
  import opened Game
  import opened GameFacts

  const Library := "Dusty Library"
  const Lab := "Alchemy Lab"
  const Chamber := "Hidden Chamber"

  const LibraryText := "Shelves line the walls, covered in cobwebs and ancient tomes. A large, ornate desk sits in the center."
  const LabText := "Bubbling concoctions and strange instruments fill the tables. A faint smell of sulfur hangs in the air."
  const HallwayText := "A long, echoing hallway with high ceilings and portraits of stern-looking figures. Doors lead off in several directions."
  const ChamberText := "A small, dark chamber, seemingly untouched for centuries. The air is heavy with dust."
  const TreasureText := "Piles of gold coins, sparkling jewels, and ancient artifacts fill this magnificent room. It's an adventurer's dream!"

  const OldScroll := Item("Old Scroll", "An ancient, brittle scroll, covered in faded script.")
  const GlowingPotion := Item("Glowing Potion", "A potion that emits a soft, ethereal glow.")
  const RustyKey := Item("Rusty Key", "A small, very rusty key.")
  const TreasureChest := Item("Treasure Chest", "A magnificent chest overflowing with gold and jewels!")

  function LibraryRoom(): RoomState {
    RoomState(Library, LibraryText, [OldScroll], Dict([("north", Lab), ("east", Hallway)]), false)
  }

  function LabRoom(): RoomState {
    RoomState(Lab, LabText, [GlowingPotion], Dict([("south", Library)]), false)
  }

  function HallwayRoom(): RoomState {
    RoomState(Hallway, HallwayText, [],
      Dict([("west", Library), ("south", Chamber), ("east", TreasureRoom)]), true)
  }

  function ChamberRoom(): RoomState {
    RoomState(Chamber, ChamberText, [RustyKey], Dict([("north", Hallway)]), false)
  }

  function TreasureRoomState(): RoomState {
    RoomState(TreasureRoom, TreasureText, [TreasureChest], Dict([("west", Hallway)]), false)
  }

  /** `game_rooms`, in the order of its dict literal. */
  function InitialRooms(): Dict<RoomState> {
    Dict([(Library, LibraryRoom()), (Lab, LabRoom()), (Hallway, HallwayRoom()),
          (Chamber, ChamberRoom()), (TreasureRoom, TreasureRoomState())])
  }

  /** The player starts in the library with nothing. */
  function InitialWorld(): (w: World)
    ensures Inv(w)
  {
    assert InitialRooms().Keys() == [Library, Lab, Hallway, Chamber, TreasureRoom];
    World(InitialRooms(), Library, [])
  }

  /** The starting world has five rooms keyed by their names, the player
      in the library with nothing. */
  lemma InitialWorldInv()
    ensures InitialWorld().rooms.Keys() == [Library, Lab, Hallway, Chamber, TreasureRoom]
    ensures Current(InitialWorld()) == LibraryRoom() && InitialWorld().inventory == []
  {
    assert InitialWorld().rooms.Keys() == [Library, Lab, Hallway, Chamber, TreasureRoom];
  }

  /** The game starts with the hallway door locked, and that door is the
      only way into the treasure room. */
  lemma InitialWorldLocked()
    ensures Guarded(InitialWorld()) && Locked(InitialWorld())
  {
    var es := InitialRooms().entries;
    forall i, j | 0 <= i < |es| && 0 <= j < |es[i].1.exits.entries| && es[i].1.exits.entries[j].1 == TreasureRoom
      ensures es[i].0 == Hallway && es[i].1.exits.entries[j].0 == "east"
    {
      RoomNamesDistinct();
    }
    assert InitialWorld().rooms.Keys() == [Library, Lab, Hallway, Chamber, TreasureRoom];
    GetAt(InitialRooms(), 2);
  }

  /** The world holds exactly the four items. */
  lemma InitialWorldItems()
    ensures Holdings(InitialWorld()) == multiset{OldScroll, GlowingPotion, RustyKey, TreasureChest}
  {
    var es := InitialRooms().entries;
    PoolOfFive(es[0], es[1], es[2], es[3], es[4]);
    assert es == [es[0], es[1], es[2], es[3], es[4]];
  }

  /** The items of five rooms, room by room. */
  lemma PoolOfFive(a: (string, RoomState), b: (string, RoomState), c: (string, RoomState),
                   d: (string, RoomState), e: (string, RoomState))
    ensures Pool([a, b, c, d, e])
         == multiset(a.1.items) + multiset(b.1.items) + multiset(c.1.items) + multiset(d.1.items) + multiset(e.1.items)
  {
    assert Pool([e]) == multiset(e.1.items) by {
      assert [e][1..] == [];
    }
    assert Pool([d, e]) == multiset(d.1.items) + Pool([e]) by {
      assert [d, e][1..] == [e];
    }
    assert Pool([c, d, e]) == multiset(c.1.items) + Pool([d, e]) by {
      assert [c, d, e][1..] == [d, e];
    }
    assert Pool([b, c, d, e]) == multiset(b.1.items) + Pool([c, d, e]) by {
      assert [b, c, d, e][1..] == [c, d, e];
    }
    assert [a, b, c, d, e][1..] == [b, c, d, e];
  }

  /** The directions `initialize_world` writes are already lower case. */
  lemma DirectionsLower()
    ensures Lower("north") == "north" && Lower("east") == "east"
    ensures Lower("south") == "south" && Lower("west") == "west"
  {
    assert IsLowerCase("north") && IsLowerCase("east") && IsLowerCase("south") && IsLowerCase("west");
    LowerFacts("north");
    LowerFacts("east");
    LowerFacts("south");
    LowerFacts("west");
  }

  /** Exits written one by one into an empty table, under distinct
      directions, sit in the order they were written. */
  lemma OneExit(a: string, x: string)
    ensures Empty<string>().Put(a, x) == Dict([(a, x)])
  {
  }

  lemma TwoExits(a: string, x: string, b: string, y: string)
    requires a != b
    ensures Empty<string>().Put(a, x).Put(b, y) == Dict([(a, x), (b, y)])
  {
    OneExit(a, x);
    assert Dict([(a, x)]).Keys() == [a];
  }

  lemma ThreeExits(a: string, x: string, b: string, y: string, c: string, z: string)
    requires a != b && a != c && b != c
    ensures Empty<string>().Put(a, x).Put(b, y).Put(c, z) == Dict([(a, x), (b, y), (c, z)])
  {
    TwoExits(a, x, b, y);
    assert Dict([(a, x), (b, y)]).Keys() == [a, b];
  }

  /** The five room names differ from one another. */
  lemma RoomNamesDistinct()
    ensures Library != Lab && Library != Hallway && Library != Chamber && Library != TreasureRoom
    ensures Lab != Hallway && Lab != Chamber && Lab != TreasureRoom
    ensures Hallway != Chamber && Hallway != TreasureRoom && Chamber != TreasureRoom
  {
    assert Hallway[0] != TreasureRoom[0];
  }

  /** Each room's exit table is what `add_exit` calls build from an empty
      table, in the order `initialize_world` makes them. */
  lemma LibraryExits()
    ensures LibraryRoom().exits == Empty<string>().Put(Lower("north"), Lab).Put(Lower("east"), Hallway)
  {
    DirectionsLower();
    TwoExits("north", Lab, "east", Hallway);
  }

  lemma LabExits()
    ensures LabRoom().exits == Empty<string>().Put(Lower("south"), Library)
  {
    DirectionsLower();
    OneExit("south", Library);
  }

  lemma HallwayExits()
    ensures HallwayRoom().exits
      == Empty<string>().Put(Lower("west"), Library).Put(Lower("south"), Chamber).Put(Lower("east"), TreasureRoom)
  {
    DirectionsLower();
    ThreeExits("west", Library, "south", Chamber, "east", TreasureRoom);
  }

  lemma ChamberExits()
    ensures ChamberRoom().exits == Empty<string>().Put(Lower("north"), Hallway)
  {
    DirectionsLower();
    OneExit("north", Hallway);
  }

  lemma TreasureRoomExits()
    ensures TreasureRoomState().exits == Empty<string>().Put(Lower("west"), Hallway)
  {
    DirectionsLower();
    OneExit("west", Hallway);
  }
}
