/**
 * `initialize_world` and `game_loop` (text_adventure_game/src/game.py) on
 * the objects themselves: `Room`s in a registry keyed by name and a `Player`
 * pointing into it. Every command, and the loop as a whole, is proved to do
 * to the objects what `Game.Step` and `Game.Run` do to their `View`.
 */
module Session {
  import opened Wrappers
  import opened Strings
  import opened Dicts
  import opened Messages
  import opened Items
  import opened Rooms
  import opened Players
  import opened Commands
  import opened Game
  import opened Setup

  /** The rooms of the registry `game_rooms`. */
  function Objects(rooms: Dict<Room>): set<Room> {
    set i | 0 <= i < |rooms.entries| :: rooms.entries[i].1
  }

  /** The fields of every registered room, in registry order. */
  function RoomsView(rooms: Dict<Room>): (d: Dict<RoomState>)
    reads Objects(rooms)
    ensures |d.entries| == |rooms.entries|
    ensures forall i :: 0 <= i < |rooms.entries| ==>
      d.entries[i] == (rooms.entries[i].0, rooms.entries[i].1.State())
  {
    Dict(seq(|rooms.entries|, i requires 0 <= i < |rooms.entries| reads Objects(rooms) =>
      (rooms.entries[i].0, rooms.entries[i].1.State())))
  }

  /** What the game loop can observe of the objects. */
  function View(player: Player, rooms: Dict<Room>): World
    reads player, Objects(rooms)
  {
    World(RoomsView(rooms), player.currentRoom.name, player.inventory)
  }

  /** The registry is keyed by room name without repeats. */
  predicate Keyed(rooms: Dict<Room>) {
    && rooms.Valid()
    && (forall i :: 0 <= i < |rooms.entries| ==> rooms.entries[i].1.name == rooms.entries[i].0)
  }

  /** The registry is keyed by room name, the player's room is the one
      registered under its name, and so the objects show a well-formed
      world. */
  predicate Linked(rooms: Dict<Room>, player: Player)
    reads player, Objects(rooms)
  {
    && Keyed(rooms)
    && rooms.Get(player.currentRoom.name) == Some(player.currentRoom)
    && Inv(View(player, rooms))
  }

  /** Distinct keys name distinct rooms, so no two entries share an object. */
  lemma NoAliasing(rooms: Dict<Room>, i: nat, j: nat)
    requires Keyed(rooms)
    requires i < |rooms.entries| && j < |rooms.entries| && i != j
    ensures rooms.entries[i].1 != rooms.entries[j].1
  {
  }

  /** The index of the player's room in the registry. */
  lemma CurrentIndex(rooms: Dict<Room>, player: Player) returns (k: nat)
    requires Keyed(rooms) && rooms.Get(player.currentRoom.name) == Some(player.currentRoom)
    ensures k < |rooms.entries| && rooms.entries[k] == (player.currentRoom.name, player.currentRoom)
    ensures Position(rooms.Keys(), player.currentRoom.name) == Some(k)
  {
    k :| 0 <= k < |rooms.entries| && rooms.entries[k] == (player.currentRoom.name, player.currentRoom);
    GetAt(rooms, k);
  }

  /** Linked objects show a well-formed world whose current room is the
      player's room. */
  lemma LinkedView(rooms: Dict<Room>, player: Player)
    requires Keyed(rooms) && rooms.Get(player.currentRoom.name) == Some(player.currentRoom)
    ensures Inv(View(player, rooms))
    ensures Current(View(player, rooms)) == player.currentRoom.State()
    ensures player.currentRoom in Objects(rooms)
  {
    var v := View(player, rooms);
    var k := CurrentIndex(rooms, player);
    assert v.rooms.Keys() == rooms.Keys();
    forall i, j | 0 <= i < j < |v.rooms.entries| ensures v.rooms.entries[i].0 != v.rooms.entries[j].0 {
      assert v.rooms.entries[i].0 == rooms.entries[i].0;
    }
    GetAt(v.rooms, k);
  }

  /** A registry view in which only entry `k` changed, keeping its key, is
      the old view with that key written. */
  lemma ViewAfterRoom(before: Dict<RoomState>, after: Dict<RoomState>, k: nat)
    requires before.Valid() && k < |before.entries| && |after.entries| == |before.entries|
    requires forall i :: 0 <= i < |before.entries| && i != k ==> after.entries[i] == before.entries[i]
    requires after.entries[k].0 == before.entries[k].0
    ensures after == before.Put(before.entries[k].0, after.entries[k].1)
  {
    GetAt(before, k);
    assert after.entries == before.entries[k := after.entries[k]];
  }

  /** `go <noun>`: the locked-door check, then `player.move`. */
  method DoGo(player: Player, rooms: Dict<Room>, n: string) returns (out: seq<Message>)
    requires Linked(rooms, player)
    modifies player
    ensures Linked(rooms, player)
    ensures StepResult(View(player, rooms), Playing, out) == Go(old(View(player, rooms)), n)
  {
    LinkedView(rooms, player);
    ghost var w := View(player, rooms);
    ghost var room := player.currentRoom.State();
    if player.currentRoom.name == Hallway && n == "east" && rooms.Get(Hallway).value.treasureDoorLocked {
      out := [DoorLocked];
    } else {
      var moved;
      moved, out := player.Move(n, rooms);
      forall i | 0 <= i < |rooms.entries| ensures RoomsView(rooms).entries[i] == w.rooms.entries[i] {
        assert rooms.entries[i].1.State() == old(rooms.entries[i].1.State());
      }
      assert RoomsView(rooms).entries == w.rooms.entries;
      assert rooms.Keys() == w.rooms.Keys();
      if moved {
        var k := CurrentIndex(rooms, player);
      }
      GoMatches(w, n, room, player.currentRoom.name, out);
      assert View(player, rooms) == w.(here := player.currentRoom.name);
    }
  }

  /** Where `move` leaves the player, and what it prints, is what `Game.Go`
      describes once the locked door is out of the way. */
  lemma GoMatches(w: World, n: string, room: RoomState, here: string, out: seq<Message>)
    requires Inv(w) && room == Current(w)
    requires !(w.here == Hallway && n == "east" && room.doorLocked)
    requires var route := RouteFor(room.exits, n, w.rooms.Keys());
      && out == RouteMessages(route, Lower(n))
      && here == (if route.Arrive? then route.target else w.here)
    ensures Inv(w.(here := here))
    ensures Go(w, n) == StepResult(w.(here := here), Playing, out)
  {
  }

  /** `take <noun>`: `player.take_item`. */
  method DoTake(player: Player, rooms: Dict<Room>, n: string) returns (out: seq<Message>)
    requires Linked(rooms, player)
    modifies player, Objects(rooms)
    ensures Linked(rooms, player)
    ensures StepResult(View(player, rooms), Playing, out) == Take(old(View(player, rooms)), n)
  {
    LinkedView(rooms, player);
    var k := CurrentIndex(rooms, player);
    ghost var before := RoomsView(rooms);
    ghost var w := View(player, rooms);
    forall i | 0 <= i < |rooms.entries| && i != k ensures rooms.entries[i].1 != player.currentRoom {
      NoAliasing(rooms, i, k);
    }
    ghost var room := player.currentRoom.State();
    var taken, m := player.TakeItem(n);
    out := [m];
    forall i | 0 <= i < |rooms.entries| && i != k ensures RoomsView(rooms).entries[i] == before.entries[i] {
      assert rooms.entries[i].1.State() == old(rooms.entries[i].1.State());
    }
    ViewAfterRoom(before, RoomsView(rooms), k);
    LinkedView(rooms, player);
    TakeMatches(w, n, room, player.currentRoom.State(), player.inventory, taken, m);
  }

  /** What `take_item` leaves behind is what `Game.Take` describes. */
  lemma TakeMatches(w: World, n: string, room: RoomState, s: RoomState, inventory: seq<Item>, taken: bool, m: Message)
    requires Inv(w) && room == Current(w) && taken == Lookup(room.items, n).Some?
    requires s == room.(items := Remove(room.items, n))
    requires inventory == w.inventory + (if taken then [Lookup(room.items, n).value] else [])
    requires m == (if taken then PickedUp(Lookup(room.items, n).value.name) else NotFoundHere(n))
    ensures Take(w, n) == StepResult(World(w.rooms.Put(w.here, s), w.here, inventory), Playing, [m])
  {
    RemoveSplits(Current(w).items, n);
    if !taken {
      assert s == Current(w);
      assert inventory == w.inventory;
      PutSame(w.rooms, w.here, s);
    }
  }

  /** `drop <noun>`: `player.drop_item`. */
  method DoDrop(player: Player, rooms: Dict<Room>, n: string) returns (out: seq<Message>)
    requires Linked(rooms, player)
    modifies player, Objects(rooms)
    ensures Linked(rooms, player)
    ensures StepResult(View(player, rooms), Playing, out) == Drop(old(View(player, rooms)), n)
  {
    LinkedView(rooms, player);
    var k := CurrentIndex(rooms, player);
    ghost var before := RoomsView(rooms);
    ghost var w := View(player, rooms);
    forall i | 0 <= i < |rooms.entries| && i != k ensures rooms.entries[i].1 != player.currentRoom {
      NoAliasing(rooms, i, k);
    }
    ghost var room := player.currentRoom.State();
    var dropped, m := player.DropItem(n);
    out := [m];
    forall i | 0 <= i < |rooms.entries| && i != k ensures RoomsView(rooms).entries[i] == before.entries[i] {
      assert rooms.entries[i].1.State() == old(rooms.entries[i].1.State());
    }
    ViewAfterRoom(before, RoomsView(rooms), k);
    LinkedView(rooms, player);
    DropMatches(w, n, room, player.currentRoom.State(), dropped, m);
  }

  /** What `drop_item` leaves behind is what `Game.Drop` describes. */
  lemma DropMatches(w: World, n: string, room: RoomState, s: RoomState, dropped: bool, m: Message)
    requires Inv(w) && room == Current(w) && dropped == Lookup(w.inventory, n).Some?
    requires s == room.(items := room.items + (if dropped then [Lookup(w.inventory, n).value] else []))
    requires m == (if dropped then Dropped(Lookup(w.inventory, n).value.name) else DontHave(n))
    ensures Drop(w, n) == StepResult(World(w.rooms.Put(w.here, s), w.here, Remove(w.inventory, n)), Playing, [m])
  {
    RemoveSplits(w.inventory, n);
    if !dropped {
      assert s == room;
      PutSame(w.rooms, w.here, s);
    }
  }

  /** `use <noun>`: the item effects of the loop body. */
  method DoUse(player: Player, rooms: Dict<Room>, n: string) returns (out: seq<Message>)
    requires Linked(rooms, player)
    modifies Objects(rooms)
    ensures Linked(rooms, player)
    ensures StepResult(View(player, rooms), Playing, out) == Use(old(View(player, rooms)), n)
  {
    var item := player.InventoryGetItem(n);
    match item {
      case None =>
        out := [NotInInventory(n)];
      case Some(x) =>
        if x.name == "Old Scroll" {
          out := [ScrollHint];
        } else if x.name == "Glowing Potion" {
          if player.currentRoom.name == Hallway {
            out := [PassageRevealed];
          } else {
            out := [x.Use()];
          }
        } else if x.name == "Rusty Key" {
          out := UseKey(player, rooms, n, x);
        } else {
          out := [x.Use()];
        }
    }
  }

  /** The rusty key: it unlocks the hallway door when that door is locked,
      and otherwise only says why nothing happens. */
  method UseKey(player: Player, rooms: Dict<Room>, n: string, x: Item) returns (out: seq<Message>)
    requires Linked(rooms, player)
    requires Lookup(player.inventory, n) == Some(x) && x.name == "Rusty Key"
    modifies Objects(rooms)
    ensures Linked(rooms, player)
    ensures StepResult(View(player, rooms), Playing, out) == Use(old(View(player, rooms)), n)
  {
    LinkedView(rooms, player);
    ghost var w := View(player, rooms);
    if player.currentRoom.name == Hallway {
      var hallway := rooms.Get(Hallway).value;
      if hallway.treasureDoorLocked {
        var k := CurrentIndex(rooms, player);
        ghost var before := RoomsView(rooms);
        ghost var room := hallway.State();
        forall i | 0 <= i < |rooms.entries| && i != k ensures rooms.entries[i].1 != hallway {
          NoAliasing(rooms, i, k);
        }
        hallway.treasureDoorLocked := false;
        out := [TryKey, Unlocked];
        forall i | 0 <= i < |rooms.entries| && i != k ensures RoomsView(rooms).entries[i] == before.entries[i] {
          assert rooms.entries[i].1.State() == old(rooms.entries[i].1.State());
        }
        ViewAfterRoom(before, RoomsView(rooms), k);
        LinkedView(rooms, player);
        UnlockMatches(w, n, x, room);
      } else {
        out := [TryKey, AlreadyUnlocked];
      }
    } else {
      out := [KeyDoesNotFit];
    }
  }

  /** Turning the rusty key in the locked hallway door leaves the world
      that `Game.Use` describes: the hallway unlocked, nothing else changed. */
  lemma UnlockMatches(w: World, n: string, x: Item, room: RoomState)
    requires Inv(w) && room == Current(w) && w.here == Hallway && room.doorLocked
    requires Lookup(w.inventory, n) == Some(x) && x.name == "Rusty Key"
    ensures Use(w, n) == StepResult(World(w.rooms.Put(w.here, room.(doorLocked := false)), w.here, w.inventory), Playing, [TryKey, Unlocked])
  {
  }

  /** The command dispatch of the loop body. */
  method DoCommand(player: Player, rooms: Dict<Room>, verb: string, noun: Option<string>)
    returns (status: Status, out: seq<Message>)
    requires Linked(rooms, player)
    modifies player, Objects(rooms)
    ensures Linked(rooms, player)
    ensures StepResult(View(player, rooms), status, out) == Dispatch(old(View(player, rooms)), verb, noun)
  {
    DispatchCases(View(player, rooms), verb, noun);
    status := Playing;
    if verb == "quit" || verb == "exit" {
      status, out := Quit, [Goodbye];
    } else if verb == "look" {
      out := [LookAgain];
    } else if verb == "go" {
      if noun.None? {
        out := [GoWhere];
      } else {
        out := DoGo(player, rooms, noun.value);
      }
    } else if verb == "take" {
      if noun.None? {
        out := [TakeWhat];
      } else {
        out := DoTake(player, rooms, noun.value);
      }
    } else if verb == "drop" {
      if noun.None? {
        out := [DropWhat];
      } else {
        out := DoDrop(player, rooms, noun.value);
      }
    } else if verb == "inventory" || verb == "i" {
      out := [player.ShowInventory()];
    } else if verb == "use" {
      if noun.None? {
        out := [UseWhat];
      } else {
        out := DoUse(player, rooms, noun.value);
      }
    } else {
      out := [NotUnderstood];
    }
  }

  /** One pass of the loop body after the scene: strip the line, skip it
      when blank, otherwise parse and dispatch it. */
  method PlayTurn(player: Player, rooms: Dict<Room>, line: string) returns (status: Status, out: seq<Message>)
    requires Linked(rooms, player)
    modifies player, Objects(rooms)
    ensures Linked(rooms, player)
    ensures StepResult(View(player, rooms), status, out) == Step(old(View(player, rooms)), line)
  {
    StepIsDispatch(View(player, rooms), line);
    var raw := Strip(line);
    if raw == [] {
      return Playing, [];
    }
    var c := ParseCommand(raw);
    if c.verb.None? {
      return Playing, [];
    }
    status, out := DoCommand(player, rooms, c.verb.value, c.noun);
  }

  /** `game_loop`: the welcome, then for each pass the scene, the win
      check, one line of input and its command; the game ends on reaching
      the treasure room, on `quit`/`exit`, or when the input runs out. */
  method GameLoop(player: Player, rooms: Dict<Room>, inputs: seq<string>) returns (status: Status, out: seq<Message>)
    requires Linked(rooms, player)
    modifies player, Objects(rooms)
    ensures Linked(rooms, player)
    ensures out == [Welcome] + Run(old(View(player, rooms)), inputs).out
    ensures StepResult(View(player, rooms), status, out[1..]) == Run(old(View(player, rooms)), inputs)
  {
    ghost var w0 := View(player, rooms);
    out := [Welcome];
    var rest := inputs;
    while true
      invariant Linked(rooms, player)
      invariant Tracks(w0, inputs, View(player, rooms), rest, out)
      decreases |rest|
    {
      ghost var v := View(player, rooms);
      LinkedView(rooms, player);
      TracksEnd(w0, inputs, v, rest, out);
      var scene := [Scene(player.currentRoom.Describe())];
      if player.currentRoom.name == TreasureRoom {
        out := out + scene + [Victory];
        return Won, out;
      }
      if rest == [] {
        out := out + scene;
        return InputExhausted, out;
      }
      var s, o := PlayTurn(player, rooms, rest[0]);
      if s == Quit {
        out := out + scene + o;
        return Quit, out;
      }
      TracksStep(w0, inputs, v, rest, out);
      out := out + scene + o;
      rest := rest[1..];
    }
  }

  /** After welcome-and-`out`, running the rest of the input from `w`
      finishes what running all of it from `w0` does. */
  ghost predicate Tracks(w0: World, inputs: seq<string>, w: World, rest: seq<string>, out: seq<Message>) {
    && Inv(w0) && Inv(w)
    && |rest| <= |inputs|
    && Run(w0, inputs).next == Run(w, rest).next
    && Run(w0, inputs).status == Run(w, rest).status
    && [Welcome] + Run(w0, inputs).out == out + Run(w, rest).out
  }

  /** A pass that neither wins nor quits keeps the loop on track. */
  lemma TracksStep(w0: World, inputs: seq<string>, w: World, rest: seq<string>, out: seq<Message>)
    requires Tracks(w0, inputs, w, rest, out)
    requires w.here != TreasureRoom && rest != [] && Step(w, rest[0]).status != Quit
    ensures Tracks(w0, inputs, Step(w, rest[0]).next, rest[1..],
                   out + [Scene(Current(w).Describe())] + Step(w, rest[0]).out)
  {
    RunUnfold(w, rest);
    var s := Step(w, rest[0]);
    var tail := Run(s.next, rest[1..]);
    Regroup3(out, [Scene(Current(w).Describe())], s.out, tail.out);
  }

  /** Associativity in the shapes the loop needs. */
  lemma Regroup2(a: seq<Message>, b: seq<Message>, c: seq<Message>)
    ensures a + b + c == a + (b + c)
  {
  }

  lemma Regroup3(a: seq<Message>, b: seq<Message>, c: seq<Message>, d: seq<Message>)
    ensures a + (b + c + d) == (a + b + c) + d
  {
  }

  /** The three ways the loop ends each finish the run. */
  lemma TracksEnd(w0: World, inputs: seq<string>, w: World, rest: seq<string>, out: seq<Message>)
    requires Tracks(w0, inputs, w, rest, out)
    ensures w.here == TreasureRoom ==>
      var o := out + [Scene(Current(w).Describe())] + [Victory];
      o == [Welcome] + Run(w0, inputs).out && StepResult(w, Won, o[1..]) == Run(w0, inputs)
    ensures w.here != TreasureRoom && rest == [] ==>
      var o := out + [Scene(Current(w).Describe())];
      o == [Welcome] + Run(w0, inputs).out && StepResult(w, InputExhausted, o[1..]) == Run(w0, inputs)
    ensures w.here != TreasureRoom && rest != [] && Step(w, rest[0]).status == Quit ==>
      var o := out + [Scene(Current(w).Describe())] + Step(w, rest[0]).out;
      o == [Welcome] + Run(w0, inputs).out && StepResult(Step(w, rest[0]).next, Quit, o[1..]) == Run(w0, inputs)
  {
    RunUnfold(w, rest);
    var scene := [Scene(Current(w).Describe())];
    if w.here == TreasureRoom {
      Regroup2(out, scene, [Victory]);
    } else if rest != [] && Step(w, rest[0]).status == Quit {
      Regroup2(out, scene, Step(w, rest[0]).out);
    }
  }

  /** `initialize_world`: five fresh rooms with their items and exits,
      registered under their names, and the hallway door locked; the game
      starts in the library. */
  method InitializeWorld() returns (rooms: Dict<Room>, start: Room)
    ensures fresh(Objects(rooms))
    ensures Keyed(rooms) && RoomsView(rooms) == InitialRooms()
    ensures rooms.Get(Library) == Some(start)
  {
    var library, lab, hallway, chamber, treasure := FurnishedRooms();
    rooms := Dict([(library.name, library), (lab.name, lab), (hallway.name, hallway),
                   (chamber.name, chamber), (treasure.name, treasure)]);
    RegistryObjects(rooms, library, lab, hallway, chamber, treasure);
    assert fresh(Objects(rooms));
    RoomNamesDistinct();
    hallway.treasureDoorLocked := true;
    start := library;
    Registry(rooms, library, lab, hallway, chamber, treasure);
  }

  /** The "Create Rooms", "Add Items" and "Define Exits" blocks of
      `initialize_world`: five new rooms holding their starting items and
      exits, the hallway door not yet locked. */
  method FurnishedRooms() returns (library: Room, lab: Room, hallway: Room, chamber: Room, treasure: Room)
    ensures fresh(library) && fresh(lab) && fresh(hallway) && fresh(chamber) && fresh(treasure)
    ensures library.State() == LibraryRoom() && lab.State() == LabRoom()
    ensures hallway.State() == HallwayRoom().(doorLocked := false)
    ensures chamber.State() == ChamberRoom() && treasure.State() == TreasureRoomState()
  {
    library := new Room(Library, LibraryText);
    lab := new Room(Lab, LabText);
    hallway := new Room(Hallway, HallwayText);
    chamber := new Room(Chamber, ChamberText);
    treasure := new Room(TreasureRoom, TreasureText);

    library.AddItem(OldScroll);
    lab.AddItem(GlowingPotion);
    chamber.AddItem(RustyKey);
    treasure.AddItem(TreasureChest);

    DefineExits(library, lab, hallway, chamber, treasure);
  }

  /** The "Define Exits" block of `initialize_world`: every exit added in
      its order, giving each room the exit table of the starting world. */
  method DefineExits(library: Room, lab: Room, hallway: Room, chamber: Room, treasure: Room)
    requires library.name == Library && lab.name == Lab && hallway.name == Hallway
    requires chamber.name == Chamber && treasure.name == TreasureRoom
    requires library.exits == Empty() && lab.exits == Empty() && hallway.exits == Empty()
    requires chamber.exits == Empty() && treasure.exits == Empty()
    modifies library`exits, lab`exits, hallway`exits, chamber`exits, treasure`exits
    ensures library.exits == LibraryRoom().exits && lab.exits == LabRoom().exits
    ensures hallway.exits == HallwayRoom().exits && chamber.exits == ChamberRoom().exits
    ensures treasure.exits == TreasureRoomState().exits
  {
    RoomNamesDistinct();
    LibraryExitsAdded(library, lab, hallway);
    lab.AddExit("south", library.name);
    LabExits();
    HallwayExitsAdded(hallway, library, chamber, treasure);
    chamber.AddExit("north", hallway.name);
    ChamberExits();
    treasure.AddExit("west", hallway.name);
    TreasureRoomExits();
  }

  /** The library's two exits, north to the lab and east to the hallway. */
  method LibraryExitsAdded(library: Room, lab: Room, hallway: Room)
    requires library.exits == Empty() && lab.name == Lab && hallway.name == Hallway
    modifies library`exits
    ensures library.exits == LibraryRoom().exits
  {
    library.AddExit("north", lab.name);
    library.AddExit("east", hallway.name);
    LibraryExits();
  }

  /** The hallway's three exits: west to the library, south to the hidden
      chamber and east to the treasure room. */
  method HallwayExitsAdded(hallway: Room, library: Room, chamber: Room, treasure: Room)
    requires hallway.exits == Empty() && library.name == Library && chamber.name == Chamber
    requires treasure.name == TreasureRoom
    modifies hallway`exits
    ensures hallway.exits == HallwayRoom().exits
  {
    hallway.AddExit("west", library.name);
    hallway.AddExit("south", chamber.name);
    hallway.AddExit("east", treasure.name);
    HallwayExits();
  }

  /** The five rooms, registered under their names and holding the
      starting states, show the starting registry. */
  lemma Registry(rooms: Dict<Room>, library: Room, lab: Room, hallway: Room, chamber: Room, treasure: Room)
    requires rooms == Dict([(library.name, library), (lab.name, lab), (hallway.name, hallway),
                            (chamber.name, chamber), (treasure.name, treasure)])
    requires library.State() == LibraryRoom() && lab.State() == LabRoom() && hallway.State() == HallwayRoom()
    requires chamber.State() == ChamberRoom() && treasure.State() == TreasureRoomState()
    ensures Keyed(rooms) && RoomsView(rooms) == InitialRooms()
  {
    assert rooms.Keys() == [Library, Lab, Hallway, Chamber, TreasureRoom];
    assert RoomsView(rooms).entries == InitialRooms().entries;
  }

  lemma RegistryObjects(rooms: Dict<Room>, library: Room, lab: Room, hallway: Room, chamber: Room, treasure: Room)
    requires rooms == Dict([(library.name, library), (lab.name, lab), (hallway.name, hallway),
                            (chamber.name, chamber), (treasure.name, treasure)])
    ensures Objects(rooms) == {library, lab, hallway, chamber, treasure}
  {
    assert rooms.entries[0].1 == library && rooms.entries[1].1 == lab && rooms.entries[2].1 == hallway;
    assert rooms.entries[3].1 == chamber && rooms.entries[4].1 == treasure;
  }

  /** A whole session: build the world, put the player in the starting
      room and run the loop. What it prints and how it ends are exactly
      what `Game.Run` gives for the starting world. */
  method Play(inputs: seq<string>) returns (status: Status, out: seq<Message>)
    ensures status == Run(InitialWorld(), inputs).status
    ensures out == [Welcome] + Run(InitialWorld(), inputs).out
  {
    var rooms, start := InitializeWorld();
    var player := new Player(start);
    LinkedView(rooms, player);
    assert View(player, rooms) == InitialWorld();
    status, out := GameLoop(player, rooms, inputs);
  }
}
