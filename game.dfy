/**
 * The rules of `game_loop` (text_adventure_game/src/game.py) stated on values.
 * A `World` is what the loop can observe: every registered room's fields, the
 * name of the room the player stands in, and the inventory. `Step` is one
 * pass of the loop body after the scene has been printed, `Run` the whole
 * loop over a sequence of input lines.
 */
module Game {
  import opened Wrappers
  import opened Strings
  import opened Dicts
  import opened Messages
  import opened Items
  import opened Rooms
  import opened Players
  import opened Commands

  /** How the loop stands after a line: still playing, or ended by reaching
      the treasure, by `quit`/`exit`, or by running out of input (where the
      source's `input()` would raise `EOFError`). */
  datatype Status = Playing | Won | Quit | InputExhausted

  datatype World = World(rooms: Dict<RoomState>, here: string, inventory: seq<Item>)

  datatype StepResult = StepResult(next: World, status: Status, out: seq<Message>)

  const Hallway := "Grand Hallway"
  const TreasureRoom := "Treasure Room"

  /** The registry is keyed by room name without repeats, and the player
      stands in a registered room. */
  predicate Inv(w: World) {
    && w.rooms.Valid()
    && (forall i :: 0 <= i < |w.rooms.entries| ==> w.rooms.entries[i].1.name == w.rooms.entries[i].0)
    && w.here in w.rooms.Keys()
  }

  /** `player.current_room`. */
  function Current(w: World): (r: RoomState)
    requires Inv(w)
    ensures r.name == w.here
    ensures exists i :: 0 <= i < |w.rooms.entries| && w.rooms.entries[i] == (w.here, r)
  {
    w.rooms.Get(w.here).value
  }

  /** The current room's fields replaced by `r`, which keeps its name. */
  function SetCurrent(w: World, r: RoomState): (v: World)
    requires Inv(w) && r.name == w.here
    ensures Inv(v) && v.here == w.here && v.inventory == w.inventory
    ensures v.rooms.Keys() == w.rooms.Keys()
    ensures Current(v) == r
  {
    var v := w.(rooms := w.rooms.Put(w.here, r));
    PutKeys(w.rooms, w.here, r);
    PutGet(w.rooms, w.here, r, w.here);
    assert forall i :: 0 <= i < |v.rooms.entries| ==> v.rooms.entries[i].1.name == v.rooms.entries[i].0 by {
      var k :| 0 <= k < |w.rooms.entries| && w.rooms.entries[k].0 == w.here;
      GetAt(w.rooms, k);
    }
    v
  }

  /** `game_rooms["Grand Hallway"].is_treasure_door_locked`, read through
      `hasattr`: absent means unlocked. */
  predicate Locked(w: World) {
    match w.rooms.Get(Hallway)
    case None => false
    case Some(r) => r.doorLocked
  }

  function Same(w: World, out: seq<Message>): StepResult {
    StepResult(w, Playing, out)
  }

  /** `go <noun>`: the hallway's east door refuses while locked; otherwise
      `player.move`. */
  function Go(w: World, n: string): (s: StepResult)
    requires Inv(w)
    ensures s.status == Playing
  {
    if w.here == Hallway && n == "east" && Current(w).doorLocked then Same(w, [DoorLocked])
    else
      var route := RouteFor(Current(w).exits, n, w.rooms.Keys());
      Same(if route.Arrive? then w.(here := route.target) else w, RouteMessages(route, Lower(n)))
  }

  /** `take <noun>`: `player.take_item`. */
  function Take(w: World, n: string): (s: StepResult)
    requires Inv(w)
    ensures s.status == Playing
  {
    var room := Current(w);
    match Lookup(room.items, n)
    case None => Same(w, [NotFoundHere(n)])
    case Some(x) =>
      var v := SetCurrent(w, room.(items := Remove(room.items, n)));
      Same(v.(inventory := w.inventory + [x]), [PickedUp(x.name)])
  }

  /** `drop <noun>`: `player.drop_item`. */
  function Drop(w: World, n: string): (s: StepResult)
    requires Inv(w)
    ensures s.status == Playing
  {
    var room := Current(w);
    match Lookup(w.inventory, n)
    case None => Same(w, [DontHave(n)])
    case Some(x) =>
      var v := SetCurrent(w, room.(items := room.items + [x]));
      Same(v.(inventory := Remove(w.inventory, n)), [Dropped(x.name)])
  }

  /** `use <noun>`: the scroll, the potion and the key have effects of their
      own; any other item falls back to `Item.use`. Only the key in the
      hallway changes anything, and only while the door is locked. In the
      hallway `game_rooms["Grand Hallway"]` is the current room. */
  function Use(w: World, n: string): (s: StepResult)
    requires Inv(w)
    ensures s.status == Playing
  {
    match Lookup(w.inventory, n)
    case None => Same(w, [NotInInventory(n)])
    case Some(x) =>
      if x.name == "Old Scroll" then Same(w, [ScrollHint])
      else if x.name == "Glowing Potion" then
        if w.here == Hallway then Same(w, [PassageRevealed]) else Same(w, [x.Use()])
      else if x.name == "Rusty Key" then
        if w.here == Hallway then
          if Current(w).doorLocked then
            Same(SetCurrent(w, Current(w).(doorLocked := false)), [TryKey, Unlocked])
          else Same(w, [TryKey, AlreadyUnlocked])
        else Same(w, [KeyDoesNotFit])
      else Same(w, [x.Use()])
  }

  /** The command dispatch of the loop body. */
  function Dispatch(w: World, verb: string, noun: Option<string>): StepResult
    requires Inv(w)
  {
    if verb == "quit" || verb == "exit" then StepResult(w, Quit, [Goodbye])
    else if verb == "look" then Same(w, [LookAgain])
    else if verb == "go" then
      if noun.None? then Same(w, [GoWhere]) else Go(w, noun.value)
    else if verb == "take" then
      if noun.None? then Same(w, [TakeWhat]) else Take(w, noun.value)
    else if verb == "drop" then
      if noun.None? then Same(w, [DropWhat]) else Drop(w, noun.value)
    else if verb == "inventory" || verb == "i" then Same(w, [InventoryReport(w.inventory)])
    else if verb == "use" then
      if noun.None? then Same(w, [UseWhat]) else Use(w, noun.value)
    else Same(w, [NotUnderstood])
  }

  /** One input line: stripped, blank lines skipped, then parsed and
      dispatched. */
  function Step(w: World, line: string): StepResult
    requires Inv(w)
  {
    var raw := Strip(line);
    if raw == [] then Same(w, [])
    else
      var c := ParseCommand(raw);
      if c.verb.None? then Same(w, []) else Dispatch(w, c.verb.value, c.noun)
  }

  /** A line is parsed once: blank input does nothing, anything else is
      dispatched on its verb and noun. */
  lemma StepIsDispatch(w: World, line: string)
    requires Inv(w)
    ensures var c := ParseCommand(Strip(line));
      && (c.verb.None? ==> Step(w, line) == Same(w, []))
      && (c.verb.Some? ==> Step(w, line) == Dispatch(w, c.verb.value, c.noun))
  {
  }

  /** Only `go`, `take`, `drop` and `use` with a noun can change the world;
      every other command leaves it as it was. */
  lemma DispatchCases(w: World, verb: string, noun: Option<string>)
    requires Inv(w)
    ensures verb == "go" && noun.Some? ==> Dispatch(w, verb, noun) == Go(w, noun.value)
    ensures verb == "take" && noun.Some? ==> Dispatch(w, verb, noun) == Take(w, noun.value)
    ensures verb == "drop" && noun.Some? ==> Dispatch(w, verb, noun) == Drop(w, noun.value)
    ensures verb == "use" && noun.Some? ==> Dispatch(w, verb, noun) == Use(w, noun.value)
    ensures !(verb in {"go", "take", "drop", "use"} && noun.Some?) ==> Dispatch(w, verb, noun).next == w
  {
  }

  /** What one step may change: the registry keeps its keys, every room its
      name, description and exits, the player stays in a registered room,
      and a door lock can only open. */
  predicate Evolves(a: World, b: World) {
    && |b.rooms.entries| == |a.rooms.entries|
    && forall i :: 0 <= i < |a.rooms.entries| ==>
      var (k, r), (k', r') := a.rooms.entries[i], b.rooms.entries[i];
      && k' == k && r'.name == r.name && r'.description == r.description
      && r'.exits == r.exits && (r'.doorLocked ==> r.doorLocked)
  }

  lemma EvolvesTrans(a: World, b: World, c: World)
    requires Evolves(a, b) && Evolves(b, c)
    ensures Evolves(a, c)
  {
  }

  /** Replacing the current room by one with the same name, description and
      exits and no newly closed lock is an evolution. */
  lemma SetCurrentEvolves(w: World, r: RoomState)
    requires Inv(w) && r.name == w.here
    requires r.description == Current(w).description && r.exits == Current(w).exits
    requires r.doorLocked ==> Current(w).doorLocked
    ensures Evolves(w, SetCurrent(w, r))
  {
    var k :| 0 <= k < |w.rooms.entries| && w.rooms.entries[k] == (w.here, Current(w));
    GetAt(w.rooms, k);
  }

  /** Every step keeps the invariant, changes nothing but item lists, the
      player's position and the hallway lock, and ends `Playing` unless the
      command was `quit` or `exit`. */
  lemma StepEvolves(w: World, line: string)
    requires Inv(w)
    ensures Inv(Step(w, line).next)
    ensures Evolves(w, Step(w, line).next)
    ensures Step(w, line).status in {Playing, Quit}
  {
    var raw := Strip(line);
    if raw != [] {
      var c := ParseCommand(raw);
      if c.verb.Some? {
        DispatchEvolves(w, c.verb.value, c.noun);
      }
    }
  }

  lemma DispatchEvolves(w: World, verb: string, noun: Option<string>)
    requires Inv(w)
    ensures Inv(Dispatch(w, verb, noun).next)
    ensures Evolves(w, Dispatch(w, verb, noun).next)
    ensures Dispatch(w, verb, noun).status in {Playing, Quit}
  {
    DispatchCases(w, verb, noun);
    if verb in {"go", "take", "drop", "use"} && noun.Some? {
      var n := noun.value;
      if verb == "go" {
        GoEvolves(w, n);
      } else if verb == "take" {
        TakeEvolves(w, n);
      } else if verb == "drop" {
        DropEvolves(w, n);
      } else {
        UseEvolves(w, n);
      }
    } else {
      EvolvesRefl(w);
    }
  }

  lemma GoEvolves(w: World, n: string)
    requires Inv(w)
    ensures Inv(Go(w, n).next) && Evolves(w, Go(w, n).next)
  {
    var route := RouteFor(Current(w).exits, n, w.rooms.Keys());
    if route.Arrive? {
      assert route.target in w.rooms.Keys();
    }
  }

  lemma TakeEvolves(w: World, n: string)
    requires Inv(w)
    ensures Inv(Take(w, n).next) && Evolves(w, Take(w, n).next)
  {
    var room := Current(w);
    SetCurrentEvolves(w, room.(items := Remove(room.items, n)));
  }

  lemma DropEvolves(w: World, n: string)
    requires Inv(w)
    ensures Inv(Drop(w, n).next) && Evolves(w, Drop(w, n).next)
  {
    var room := Current(w);
    match Lookup(w.inventory, n) {
      case None =>
      case Some(x) => SetCurrentEvolves(w, room.(items := room.items + [x]));
    }
  }

  lemma UseEvolves(w: World, n: string)
    requires Inv(w)
    ensures Inv(Use(w, n).next) && Evolves(w, Use(w, n).next)
  {
    if Use(w, n).next == w {
      EvolvesRefl(w);
    } else {
      SetCurrentEvolves(w, Current(w).(doorLocked := false));
    }
  }

  lemma EvolvesRefl(w: World)
    ensures Evolves(w, w)
  {
  }

  /** `game_loop`: print the scene, stop on reaching the treasure room, read
      a line, run it; `quit` ends the loop, as does the end of the input. */
  function Run(w: World, inputs: seq<string>): (r: StepResult)
    requires Inv(w)
    ensures Inv(r.next) && Evolves(w, r.next)
    ensures r.status in {Won, Quit, InputExhausted}
    ensures r.status == Won <==> r.next.here == TreasureRoom
    decreases |inputs|
  {
    var scene := [Scene(Current(w).Describe())];
    if w.here == TreasureRoom then StepResult(w, Won, scene + [Victory])
    else if inputs == [] then StepResult(w, InputExhausted, scene)
    else
      var s := Step(w, inputs[0]);
      StepEvolves(w, inputs[0]);
      if s.status == Quit then
        StepQuit(w, inputs[0]);
        StepResult(s.next, Quit, scene + s.out)
      else
        var rest := Run(s.next, inputs[1..]);
        EvolvesTrans(w, s.next, rest.next);
        StepResult(rest.next, rest.status, scene + s.out + rest.out)
  }

  /** One pass of `Run`, spelled out case by case. */
  lemma RunUnfold(w: World, inputs: seq<string>)
    requires Inv(w)
    ensures w.here == TreasureRoom ==>
      Run(w, inputs) == StepResult(w, Won, [Scene(Current(w).Describe()), Victory])
    ensures w.here != TreasureRoom && inputs == [] ==>
      Run(w, inputs) == StepResult(w, InputExhausted, [Scene(Current(w).Describe())])
    ensures w.here != TreasureRoom && inputs != [] && Step(w, inputs[0]).status == Quit ==>
      Run(w, inputs) == StepResult(Step(w, inputs[0]).next, Quit, [Scene(Current(w).Describe())] + Step(w, inputs[0]).out)
    ensures w.here != TreasureRoom && inputs != [] && Step(w, inputs[0]).status != Quit ==>
      && Inv(Step(w, inputs[0]).next)
      && Run(w, inputs) == StepResult(Run(Step(w, inputs[0]).next, inputs[1..]).next,
                                      Run(Step(w, inputs[0]).next, inputs[1..]).status,
                                      [Scene(Current(w).Describe())] + Step(w, inputs[0]).out
                                        + Run(Step(w, inputs[0]).next, inputs[1..]).out)
  {
    if w.here != TreasureRoom && inputs != [] {
      StepEvolves(w, inputs[0]);
    }
  }

  /** `quit` and `exit` end the game and change nothing; no other line
      ends it. */
  lemma StepQuit(w: World, line: string)
    requires Inv(w)
    ensures Step(w, line).status == Quit ==> Step(w, line).next == w
    ensures var c := ParseCommand(Strip(line));
      Step(w, line).status == Quit <==> c.verb == Some("quit") || c.verb == Some("exit")
  {
    var raw := Strip(line);
    if raw != [] {
      var c := ParseCommand(raw);
      if c.verb.Some? {
        DispatchQuit(w, c.verb.value, c.noun);
      }
    }
  }

  lemma DispatchQuit(w: World, verb: string, noun: Option<string>)
    requires Inv(w)
    ensures Dispatch(w, verb, noun).status == Quit ==> Dispatch(w, verb, noun).next == w
    ensures Dispatch(w, verb, noun).status == Quit <==> verb == "quit" || verb == "exit"
  {
  }
}
