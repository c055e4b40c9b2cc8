/**
 * The game `initialize_world` (text_adventure_game/src/game.py) sets up can
 * be won: east into the hallway, south to the chamber for the Rusty Key,
 * back north, unlock the door and go east into the treasure room.
 */
module Walkthrough {
  import opened Wrappers
  import opened Strings
  import opened Dicts
  import opened Items
  import opened Rooms
  import opened Commands
  import opened Game
  import opened GameFacts
  import opened Setup

  /** The lines of the walk that the parser examples do not already cover. */
  lemma ParseGoEast()
    ensures ParseCommand("go east") == Command(Some("go"), Some("east"))
  {
    assert NoSpace("go") && IsLowerCase("go");
    assert Trimmed("east") && IsLowerCase("east");
    assert "" + "go" + " " + "east" + "" == "go east";
    ParseLowerVerbNoun("", "go", " ", "east", "");
  }

  lemma ParseGoSouth()
    ensures ParseCommand("go south") == Command(Some("go"), Some("south"))
  {
    assert NoSpace("go") && IsLowerCase("go");
    assert Trimmed("south") && IsLowerCase("south");
    assert "" + "go" + " " + "south" + "" == "go south";
    ParseLowerVerbNoun("", "go", " ", "south", "");
  }

  lemma ParseTakeRustyKey()
    ensures ParseCommand("take rusty key") == Command(Some("take"), Some("rusty key"))
  {
    assert NoSpace("take") && IsLowerCase("take");
    assert Trimmed("rusty key") && IsLowerCase("rusty key");
    assert "" + "take" + " " + "rusty key" + "" == "take rusty key";
    ParseLowerVerbNoun("", "take", " ", "rusty key", "");
  }

  /** The Rusty Key answers to "rusty key". */
  lemma RustyKeyMatches()
    ensures Matches(RustyKey, "rusty key")
  {
    var s, t := RustyKey.name, "rusty key";
    assert forall i :: 0 <= i < |s| ==> LowerChar(s[i]) == LowerChar(t[i]);
  }

  /** In a list of one item, a name that item answers to finds it, and
      removing it leaves nothing. */
  lemma LookupOnly(items: seq<Item>, x: Item, n: string)
    requires items == [x] && Matches(x, n)
    ensures Lookup(items, n) == Some(x) && Remove(items, n) == []
  {
  }

  /** A trimmed line that parses to a verb is dispatched on it. */
  lemma LineDispatch(w: World, line: string, verb: string, noun: Option<string>)
    requires Inv(w) && Trimmed(line) && ParseCommand(line) == Command(Some(verb), noun)
    ensures Step(w, line) == Dispatch(w, verb, noun)
  {
    StripTrimmed(line);
    StepIsDispatch(w, line);
  }

  /** A line that does not end the game hands the rest of the input on to
      the world it leaves. */
  lemma RunOn(w: World, lines: seq<string>)
    requires Inv(w) && w.here != TreasureRoom && lines != [] && Step(w, lines[0]).status == Playing
    ensures Inv(Step(w, lines[0]).next)
    ensures Run(w, lines).status == Run(Step(w, lines[0]).next, lines[1..]).status
  {
    StepEvolves(w, lines[0]);
    RunUnfold(w, lines);
  }

  /** `go d` along an exit of the current room into a registered room,
      other than through the locked door. */
  lemma GoLine(w: World, line: string, d: string, t: string)
    requires Inv(w) && Trimmed(line) && ParseCommand(line) == Command(Some("go"), Some(d))
    requires IsLowerCase(d) && Current(w).exits.Get(d) == Some(t) && t != "" && t in w.rooms.Keys()
    requires !(w.here == Hallway && d == "east" && Locked(w))
    ensures Step(w, line) == StepResult(w.(here := t), Playing, [])
  {
    LineDispatch(w, line, "go", Some(d));
    DispatchCases(w, "go", Some(d));
    GoArrives(w, d, t);
  }

  /** The layout the walk relies on: from the library east to the hallway,
      south to the chamber where the Rusty Key lies, north back to the
      hallway, and east from there to the treasure room behind the locked
      door. */
  predicate Layout(w: World)
    requires Inv(w)
  {
    && Library in w.rooms.Keys() && Hallway in w.rooms.Keys()
    && Chamber in w.rooms.Keys() && TreasureRoom in w.rooms.Keys()
    && w.rooms.Get(Library).value.exits.Get("east") == Some(Hallway)
    && w.rooms.Get(Hallway).value.exits.Get("south") == Some(Chamber)
    && w.rooms.Get(Hallway).value.exits.Get("east") == Some(TreasureRoom)
    && w.rooms.Get(Chamber).value.exits.Get("north") == Some(Hallway)
    && w.rooms.Get(Chamber).value.items == [RustyKey]
    && Locked(w)
  }

  /** `line` is already stripped and parses to `verb` and `noun`. */
  predicate Reads(line: string, verb: string, noun: string) {
    Trimmed(line) && ParseCommand(line) == Command(Some(verb), Some(noun))
  }

  /** East to the hallway, then south to the chamber. */
  lemma WalkToChamber(w: World, east: string, south: string)
    requires Inv(w) && Layout(w) && w.here == Library
    requires Reads(east, "go", "east") && Reads(south, "go", "south")
    ensures Step(w, east) == StepResult(w.(here := Hallway), Playing, [])
    ensures Inv(w.(here := Hallway))
    ensures Step(w.(here := Hallway), south) == StepResult(w.(here := Chamber), Playing, [])
  {
    RoomNamesDistinct();
    assert IsLowerCase("east") && IsLowerCase("south");
    GoLine(w, east, "east", Hallway);
    GoLine(w.(here := Hallway), south, "south", Chamber);
  }

  /** `take` of the only item in the room, with nothing carried: the room
      is left empty and that item is the only thing carried. */
  lemma TakeOnlyItem(w: World, n: string, x: Item)
    requires Inv(w) && Current(w).items == [x] && Matches(x, n) && w.inventory == []
    ensures Take(w, n).next == SetCurrent(w, Current(w).(items := [])).(inventory := [x])
  {
    LookupOnly(Current(w).items, x, n);
  }

  /** Taking the key in the chamber of a world with the layout of the walk
      reaches the halfway state. */
  lemma KeyTaken(w: World)
    requires Inv(w) && Layout(w) && w.here == Chamber && w.inventory == []
    ensures KeyInHand(Take(w, "rusty key").next)
  {
    RoomNamesDistinct();
    RustyKeyMatches();
    TakeOnlyItem(w, "rusty key", RustyKey);
    var r := Current(w).(items := []);
    SetCurrentLocked(w, r);
    PutGet(w.rooms, w.here, r, Hallway);
  }

  /** Halfway: the key in hand, back in the chamber, the door still locked,
      and the way back north and through the hallway's east door ahead. */
  predicate KeyInHand(v: World) {
    && Inv(v) && v.here == Chamber && v.inventory == [RustyKey] && Locked(v)
    && Current(v).exits.Get("north") == Some(Hallway)
    && Hallway in v.rooms.Keys() && TreasureRoom in v.rooms.Keys()
    && v.rooms.Get(Hallway).value.exits.Get("east") == Some(TreasureRoom)
  }

  /** East, south, and `take rusty key`. */
  lemma ToTheKey(w: World, lines: seq<string>)
    requires Inv(w) && Layout(w) && w.here == Library && w.inventory == []
    requires |lines| >= 3 && Reads(lines[0], "go", "east") && Reads(lines[1], "go", "south")
    requires Reads(lines[2], "take", "rusty key")
    ensures Inv(w.(here := Chamber))
    ensures KeyInHand(Step(w.(here := Chamber), lines[2]).next)
    ensures Run(w, lines).status == Run(Step(w.(here := Chamber), lines[2]).next, lines[3..]).status
  {
    RoomNamesDistinct();
    WalkToChamber(w, lines[0], lines[1]);
    var w2 := w.(here := Chamber);
    RunOn(w, lines);
    RunOn(w.(here := Hallway), lines[1..]);
    LineDispatch(w2, lines[2], "take", Some("rusty key"));
    DispatchCases(w2, "take", Some("rusty key"));
    KeyTaken(w2);
    RunOn(w2, lines[2..]);
  }

  /** North, `use rusty key`, and east into the treasure room. */
  lemma FromTheKey(v: World, rest: seq<string>)
    requires KeyInHand(v)
    requires |rest| >= 3 && Reads(rest[0], "go", "north") && Reads(rest[1], "use", "rusty key")
    requires Reads(rest[2], "go", "east")
    ensures Run(v, rest).status == Won
  {
    RoomNamesDistinct();
    assert IsLowerCase("north") && IsLowerCase("east");
    GoLine(v, rest[0], "north", Hallway);
    var v1 := v.(here := Hallway);
    RunOn(v, rest);
    LineDispatch(v1, rest[1], "use", Some("rusty key"));
    DispatchCases(v1, "use", Some("rusty key"));
    RustyKeyMatches();
    LookupOnly(v1.inventory, RustyKey, "rusty key");
    KeyRules(v1, "rusty key");
    var v2 := Step(v1, rest[1]).next;
    RunOn(v1, rest[1..]);
    GoLine(v2, rest[2], "east", TreasureRoom);
    RunOn(v2, rest[2..]);
  }

  /** Any world with this layout, entered in the library with nothing
      carried, is won by input whose first six lines read as the walk's
      commands (`"GO  East"` does as well as `"go east"`), whatever
      follows them. */
  lemma WinningWalk(w: World, lines: seq<string>)
    requires Inv(w) && Layout(w) && w.here == Library && w.inventory == []
    requires |lines| >= 6
    requires Reads(lines[0], "go", "east") && Reads(lines[1], "go", "south")
    requires Reads(lines[2], "take", "rusty key") && Reads(lines[3], "go", "north")
    requires Reads(lines[4], "use", "rusty key") && Reads(lines[5], "go", "east")
    ensures Run(w, lines).status == Won
  {
    ToTheKey(w, lines);
    FromTheKey(Step(w.(here := Chamber), lines[2]).next, lines[3..]);
  }

  /** The starting position of the walk: the layout, the player in the
      library, nothing carried. */
  predicate ReadyToWalk(w: World) {
    Inv(w) && Layout(w) && w.here == Library && w.inventory == []
  }

  /** Six lines that read as the walk's commands, in order. */
  predicate WalkLines(a: string, b: string, c: string, d: string, e: string, f: string) {
    && Reads(a, "go", "east") && Reads(b, "go", "south") && Reads(c, "take", "rusty key")
    && Reads(d, "go", "north") && Reads(e, "use", "rusty key") && Reads(f, "go", "east")
  }

  /** The same for exactly six lines. */
  lemma WinningSix(w: World, a: string, b: string, c: string, d: string, e: string, f: string)
    requires ReadyToWalk(w) && WalkLines(a, b, c, d, e, f)
    ensures Run(w, [a, b, c, d, e, f]).status == Won
  {
    SixLines(a, b, c, d, e, f);
    WinningWalk(w, [a, b, c, d, e, f]);
  }

  lemma SixLines(a: string, b: string, c: string, d: string, e: string, f: string)
    ensures var lines := [a, b, c, d, e, f];
      && |lines| == 6 && lines[0] == a && lines[1] == b && lines[2] == c
      && lines[3] == d && lines[4] == e && lines[5] == f
  {
  }

  /** The game `initialize_world` builds can be won: these six lines take
      the player from the library to the treasure room, through the door
      the Rusty Key opens. */
  lemma WinningGame()
    ensures Run(InitialWorld(), ["go east", "go south", "take rusty key", "go north", "use rusty key", "go east"]).status == Won
  {
    StartReady();
    WalkLinesRead();
    WinningSix(InitialWorld(), "go east", "go south", "take rusty key", "go north", "use rusty key", "go east");
  }

  /** The player starts where the walk begins. */
  lemma StartReady()
    ensures ReadyToWalk(InitialWorld())
  {
    StartLayout();
  }

  /** The walk's commands, as written, read as themselves. */
  lemma WalkLinesRead()
    ensures WalkLines("go east", "go south", "take rusty key", "go north", "use rusty key", "go east")
  {
    ReadGoEast();
    ReadGoSouth();
    ReadTakeRustyKey();
    ReadGoNorth();
    ReadUseRustyKey();
  }

  lemma ReadGoEast()
    ensures Reads("go east", "go", "east")
  {
    ParseGoEast();
  }

  lemma ReadGoSouth()
    ensures Reads("go south", "go", "south")
  {
    ParseGoSouth();
  }

  lemma ReadTakeRustyKey()
    ensures Reads("take rusty key", "take", "rusty key")
  {
    ParseTakeRustyKey();
  }

  lemma ReadGoNorth()
    ensures Reads("go north", "go", "north")
  {
    ParseGoNorth();
  }

  lemma ReadUseRustyKey()
    ensures Reads("use rusty key", "use", "rusty key")
  {
    ParseUseRustyKey();
  }

  /** The world `initialize_world` builds has the layout of the walk. */
  lemma StartLayout()
    ensures Layout(InitialWorld())
  {
    InitialWorldInv();
    InitialWorldLocked();
    StartRooms();
    WalkExits();
  }

  /** With the door open, `go east` in the hallway enters the treasure room
      in any world evolved from a start with the walk's layout (the game's
      own start has it: `StartLayout`); `LockedDoorHolds` is the other
      half. */
  lemma OpenDoorLeadsToTreasure(start: World, w: World)
    requires Inv(start) && Layout(start) && Inv(w) && Evolves(start, w)
    requires w.here == Hallway && !Locked(w)
    ensures Go(w, "east") == StepResult(w.(here := TreasureRoom), Playing, [])
  {
    EvolvesExits(start, w, Hallway);
    EastIsLower();
    GoArrives(w, "east", TreasureRoom);
  }

  lemma EastIsLower()
    ensures IsLowerCase("east")
  {
  }

  /** The rooms on the route, as the starting registry holds them. */
  lemma StartRooms()
    ensures InitialRooms().Get(Library) == Some(LibraryRoom())
    ensures InitialRooms().Get(Hallway) == Some(HallwayRoom())
    ensures InitialRooms().Get(Chamber) == Some(ChamberRoom())
  {
    InitialWorldInv();
    GetAt(InitialRooms(), 0);
    GetAt(InitialRooms(), 2);
    GetAt(InitialRooms(), 3);
  }

  /** The exits the route takes. */
  lemma WalkExits()
    ensures LibraryRoom().exits.Get("east") == Some(Hallway)
    ensures HallwayRoom().exits.Get("south") == Some(Chamber)
    ensures HallwayRoom().exits.Get("east") == Some(TreasureRoom)
    ensures ChamberRoom().exits.Get("north") == Some(Hallway)
  {
    GetAt(LibraryRoom().exits, 1);
    GetAt(HallwayRoom().exits, 1);
    GetAt(HallwayRoom().exits, 2);
    GetAt(ChamberRoom().exits, 0);
  }
}
