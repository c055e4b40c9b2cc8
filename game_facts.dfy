/**
 * What the rules of `game_loop` guarantee over any input: items are never
 * created or destroyed, the treasure door opens only with the Rusty Key and
 * never closes again, and the locked door is the only way into the treasure
 * room.
 */
module GameFacts {
  import opened Wrappers
  import opened Strings
  import opened Dicts
  import opened Messages
  import opened Items
  import opened Rooms
  import opened Players
  import opened Commands
  import opened Game

  /** The items lying in the registered rooms. */
  function Pool(entries: seq<(string, RoomState)>): multiset<Item> {
    if entries == [] then multiset{} else multiset(entries[0].1.items) + Pool(entries[1..])
  }

  /** Every item in the world: in some room or carried. */
  function Holdings(w: World): multiset<Item> {
    Pool(w.rooms.entries) + multiset(w.inventory)
  }

  /** Replacing one room swaps its items for the new room's items. */
  lemma {:induction false} PoolUpdate(entries: seq<(string, RoomState)>, i: nat, e: (string, RoomState))
    requires i < |entries|
    ensures Pool(entries[i := e]) + multiset(entries[i].1.items) == Pool(entries) + multiset(e.1.items)
  {
    if i == 0 {
      assert entries[i := e][0] == e;
      assert entries[i := e][1..] == entries[1..];
      assert Pool(entries[i := e]) == multiset(e.1.items) + Pool(entries[1..]);
      assert Pool(entries) == multiset(entries[0].1.items) + Pool(entries[1..]);
    } else {
      var t := entries[1..];
      assert entries[i := e][0] == entries[0];
      assert entries[i := e][1..] == t[i - 1 := e];
      assert t[i - 1] == entries[i];
      assert Pool(entries) == multiset(entries[0].1.items) + Pool(t);
      assert Pool(entries[i := e]) == multiset(entries[0].1.items) + Pool(t[i - 1 := e]);
      PoolUpdate(t, i - 1, e);
      AddLeft(multiset(entries[0].1.items), Pool(t[i - 1 := e]), multiset(entries[i].1.items), Pool(t), multiset(e.1.items));
    }
  }

  lemma AddLeft(x: multiset<Item>, a: multiset<Item>, m: multiset<Item>, b: multiset<Item>, n: multiset<Item>)
    requires a + m == b + n
    ensures x + a + m == x + b + n
  {
    assert forall o :: (x + a + m)[o] == x[o] + (a + m)[o];
    assert forall o :: (x + b + n)[o] == x[o] + (b + n)[o];
  }

  lemma SetCurrentPool(w: World, r: RoomState)
    requires Inv(w) && r.name == w.here
    ensures Pool(SetCurrent(w, r).rooms.entries) + multiset(Current(w).items)
      == Pool(w.rooms.entries) + multiset(r.items)
  {
    var k :| 0 <= k < |w.rooms.entries| && w.rooms.entries[k] == (w.here, Current(w));
    GetAt(w.rooms, k);
    PoolUpdate(w.rooms.entries, k, (w.here, r));
  }

  /** Which of the hallway's lock the current room's replacement touches. */
  lemma SetCurrentLocked(w: World, r: RoomState)
    requires Inv(w) && r.name == w.here
    ensures Locked(SetCurrent(w, r)) == (if w.here == Hallway then r.doorLocked else Locked(w))
  {
    PutGet(w.rooms, w.here, r, Hallway);
  }

  /** In the hallway, the registry's hallway is the current room. */
  lemma HallwayIsCurrent(w: World)
    requires Inv(w) && w.here == Hallway
    ensures Locked(w) == Current(w).doorLocked
  {
  }

  lemma Cancel(a: multiset<Item>, b: multiset<Item>, c: multiset<Item>)
    requires a + c == b + c
    ensures a == b
  {
    assert forall x :: a[x] == (a + c)[x] - c[x];
  }

  /** `take` moves the found item from the room to the inventory. */
  lemma TakeConserves(w: World, n: string)
    requires Inv(w)
    ensures Holdings(Take(w, n).next) == Holdings(w)
  {
    var room := Current(w);
    RemoveSplits(room.items, n);
    match Lookup(room.items, n) {
      case None =>
      case Some(x) =>
        var r := room.(items := Remove(room.items, n));
        var v := SetCurrent(w, r);
        SetCurrentPool(w, r);
        assert Take(w, n).next == v.(inventory := w.inventory + [x]);
        assert multiset(room.items) == multiset(r.items) + multiset{x};
        Cancel(Pool(v.rooms.entries) + multiset{x}, Pool(w.rooms.entries), multiset(r.items));
    }
  }

  /** `drop` moves the found item from the inventory to the room. */
  lemma DropConserves(w: World, n: string)
    requires Inv(w)
    ensures Holdings(Drop(w, n).next) == Holdings(w)
  {
    var room := Current(w);
    RemoveSplits(w.inventory, n);
    match Lookup(w.inventory, n) {
      case None =>
      case Some(x) =>
        var r := room.(items := room.items + [x]);
        var v := SetCurrent(w, r);
        SetCurrentPool(w, r);
        assert Drop(w, n).next == v.(inventory := Remove(w.inventory, n));
        assert multiset(r.items) == multiset(room.items) + multiset{x};
        Cancel(Pool(v.rooms.entries), Pool(w.rooms.entries) + multiset{x}, multiset(room.items));
    }
  }

  /** `use` never consumes an item or moves the player. */
  lemma UseConserves(w: World, n: string)
    requires Inv(w)
    ensures Holdings(Use(w, n).next) == Holdings(w)
    ensures Use(w, n).next.inventory == w.inventory && Use(w, n).next.here == w.here
  {
    var r := Current(w).(doorLocked := false);
    if Use(w, n).next != w {
      SetCurrentPool(w, r);
      assert Use(w, n).next == SetCurrent(w, r);
      Cancel(Pool(SetCurrent(w, r).rooms.entries), Pool(w.rooms.entries), multiset(r.items));
    }
  }

  /** No line creates, destroys or duplicates an item. */
  lemma StepConserves(w: World, line: string)
    requires Inv(w)
    ensures Holdings(Step(w, line).next) == Holdings(w)
  {
    var c := ParseCommand(Strip(line));
    StepIsDispatch(w, line);
    if c.verb.Some? {
      DispatchConserves(w, c.verb.value, c.noun);
    }
  }

  lemma DispatchConserves(w: World, verb: string, noun: Option<string>)
    requires Inv(w)
    ensures Holdings(Dispatch(w, verb, noun).next) == Holdings(w)
  {
    DispatchCases(w, verb, noun);
    if noun.Some? {
      var n := noun.value;
      if verb == "take" {
        TakeConserves(w, n);
      } else if verb == "drop" {
        DropConserves(w, n);
      } else if verb == "use" {
        UseConserves(w, n);
      }
    }
  }

  /** Over a whole game the items present at the start are exactly the
      items present at the end. */
  lemma {:induction false} RunConserves(w: World, inputs: seq<string>)
    requires Inv(w)
    ensures Holdings(Run(w, inputs).next) == Holdings(w)
    decreases |inputs|
  {
    if w.here != TreasureRoom && inputs != [] {
      var s := Step(w, inputs[0]);
      StepConserves(w, inputs[0]);
      StepEvolves(w, inputs[0]);
      if s.status != Quit {
        RunConserves(s.next, inputs[1..]);
      }
    }
  }

  /** A lock never closes again: what `Evolves` allows is read at the
      hallway. */
  lemma EvolvesLocked(a: World, b: World)
    requires Evolves(a, b) && Locked(b)
    ensures Locked(a)
  {
    assert b.rooms.Keys() == a.rooms.Keys();
    var i := Position(a.rooms.Keys(), Hallway).value;
    assert b.rooms.entries[i].1.doorLocked;
  }

  /** Only the Rusty Key, used in the hallway, opens the locked door, and
      doing so prints that it fits. */
  lemma UnlockNeedsKey(w: World, line: string)
    requires Inv(w) && Locked(w) && !Locked(Step(w, line).next)
    ensures w.here == Hallway
    ensures var c := ParseCommand(Strip(line));
      && c.verb == Some("use") && c.noun.Some?
      && Lookup(w.inventory, c.noun.value).Some?
      && Lookup(w.inventory, c.noun.value).value.name == "Rusty Key"
    ensures Step(w, line).out == [TryKey, Unlocked]
  {
    var c := ParseCommand(Strip(line));
    StepIsDispatch(w, line);
    assert c.verb.Some?;
    DispatchUnlock(w, c.verb.value, c.noun);
  }

  lemma DispatchUnlock(w: World, verb: string, noun: Option<string>)
    requires Inv(w) && Locked(w) && !Locked(Dispatch(w, verb, noun).next)
    ensures w.here == Hallway && verb == "use" && noun.Some?
    ensures Lookup(w.inventory, noun.value).Some? && Lookup(w.inventory, noun.value).value.name == "Rusty Key"
    ensures Dispatch(w, verb, noun).out == [TryKey, Unlocked]
  {
    DispatchCases(w, verb, noun);
    var n := noun.value;
    if verb == "take" {
      TakeKeepsLock(w, n);
    } else if verb == "drop" {
      DropKeepsLock(w, n);
    } else if verb == "use" {
      UseUnlock(w, n);
    }
  }

  lemma UseUnlock(w: World, n: string)
    requires Inv(w) && Locked(w) && !Locked(Use(w, n).next)
    ensures w.here == Hallway
    ensures Lookup(w.inventory, n).Some? && Lookup(w.inventory, n).value.name == "Rusty Key"
    ensures Use(w, n).out == [TryKey, Unlocked]
  {
    SetCurrentLocked(w, Current(w).(doorLocked := false));
    if w.here == Hallway {
      HallwayIsCurrent(w);
    }
  }

  lemma TakeKeepsLock(w: World, n: string)
    requires Inv(w)
    ensures Locked(Take(w, n).next) == Locked(w)
  {
    var room := Current(w);
    SetCurrentLocked(w, room.(items := Remove(room.items, n)));
    if w.here == Hallway {
      HallwayIsCurrent(w);
    }
  }

  lemma DropKeepsLock(w: World, n: string)
    requires Inv(w)
    ensures Locked(Drop(w, n).next) == Locked(w)
  {
    var room := Current(w);
    match Lookup(w.inventory, n) {
      case None =>
      case Some(x) =>
        SetCurrentLocked(w, room.(items := room.items + [x]));
        if w.here == Hallway {
          HallwayIsCurrent(w);
        }
    }
  }

  /** With the door locked, `go east` in the hallway is refused and changes
      nothing. */
  lemma LockedDoorHolds(w: World, line: string)
    requires Inv(w) && w.here == Hallway && Locked(w)
    requires ParseCommand(Strip(line)) == Command(Some("go"), Some("east"))
    ensures Step(w, line) == StepResult(w, Playing, [DoorLocked])
  {
    StepIsDispatch(w, line);
    DispatchCases(w, "go", Some("east"));
    GoLocked(w);
  }

  /** The hallway's locked east door refuses `go east`. */
  lemma GoLocked(w: World)
    requires Inv(w) && w.here == Hallway && Locked(w)
    ensures Go(w, "east") == StepResult(w, Playing, [DoorLocked])
  {
    HallwayIsCurrent(w);
  }

  /** Any other `go` along an exit of the current room into a registered
      room moves the player there and prints nothing. */
  lemma GoArrives(w: World, d: string, t: string)
    requires Inv(w) && IsLowerCase(d) && Current(w).exits.Get(d) == Some(t)
    requires t != "" && t in w.rooms.Keys()
    requires !(w.here == Hallway && d == "east" && Locked(w))
    ensures Go(w, d) == StepResult(w.(here := t), Playing, [])
  {
    LowerFacts(d);
    if w.here == Hallway {
      HallwayIsCurrent(w);
    }
  }

  /** Exits never change: along an evolution every registered room keeps
      its exit table. */
  lemma EvolvesExits(a: World, b: World, k: string)
    requires Inv(a) && Evolves(a, b) && k in a.rooms.Keys()
    ensures b.rooms.Keys() == a.rooms.Keys()
    ensures b.rooms.Get(k).value.exits == a.rooms.Get(k).value.exits
  {
    assert b.rooms.Keys() == a.rooms.Keys() by {
      forall i | 0 <= i < |a.rooms.entries|
        ensures b.rooms.Keys()[i] == a.rooms.Keys()[i]
      {
      }
    }
    var i := Position(a.rooms.Keys(), k).value;
    assert b.rooms.Keys()[i] == k;
  }

  /** Every exit that leads to the treasure room is the hallway's east exit. */
  predicate Guarded(w: World) {
    forall i, j ::
      (0 <= i < |w.rooms.entries| && 0 <= j < |w.rooms.entries[i].1.exits.entries| &&
       w.rooms.entries[i].1.exits.entries[j].1 == TreasureRoom) ==>
      w.rooms.entries[i].0 == Hallway && w.rooms.entries[i].1.exits.entries[j].0 == "east"
  }

  lemma EvolvesGuarded(a: World, b: World)
    requires Evolves(a, b) && Guarded(a)
    ensures Guarded(b)
  {
    forall i | 0 <= i < |b.rooms.entries|
      ensures a.rooms.entries[i].1.exits == b.rooms.entries[i].1.exits
    {
    }
  }

  /** Only `go` moves the player. */
  lemma StaysUnlessGo(w: World, verb: string, noun: Option<string>)
    requires Inv(w) && !(verb == "go" && noun.Some?)
    ensures Dispatch(w, verb, noun).next.here == w.here
  {
    if verb == "use" && noun.Some? {
      UseConserves(w, noun.value);
    }
  }

  /** Walking into the treasure room needs the hallway door open. */
  lemma GoEntering(w: World, n: string)
    requires Inv(w) && Guarded(w) && w.here != TreasureRoom && IsLowerCase(n)
    requires Go(w, n).next.here == TreasureRoom
    ensures w.here == Hallway && !Locked(w)
  {
    var room := Current(w);
    var k :| 0 <= k < |w.rooms.entries| && w.rooms.entries[k] == (w.here, room);
    var route := RouteFor(room.exits, n, w.rooms.Keys());
    assert route == Arrive(TreasureRoom);
    assert room.exits.Get(Lower(n)) == Some(TreasureRoom);
    var j :| 0 <= j < |room.exits.entries| && room.exits.entries[j] == (Lower(n), TreasureRoom);
    assert w.rooms.entries[k].1.exits.entries[j].1 == TreasureRoom;
    LowerFacts(n);
    HallwayIsCurrent(w);
  }

  /** A line that takes the player into the treasure room finds the door
      open, and leaves it open. */
  lemma EnterNeedsUnlocked(w: World, line: string)
    requires Inv(w) && Guarded(w) && w.here != TreasureRoom
    requires Step(w, line).next.here == TreasureRoom
    ensures w.here == Hallway && !Locked(w) && !Locked(Step(w, line).next)
  {
    var c := ParseCommand(Strip(line));
    StepIsDispatch(w, line);
    StepEvolves(w, line);
    if c.verb.Some? {
      DispatchCases(w, c.verb.value, c.noun);
      if c.verb.value == "go" && c.noun.Some? {
        GoEntering(w, c.noun.value);
      } else {
        StaysUnlessGo(w, c.verb.value, c.noun);
      }
    }
    if Locked(Step(w, line).next) {
      EvolvesLocked(w, Step(w, line).next);
    }
  }

  /** Every game that starts outside the treasure room with every way in
      guarded by the hallway door, and is won, ends with that door open:
      winning needs the Rusty Key (`UnlockNeedsKey`). */
  lemma {:induction false} WinNeedsUnlock(w: World, inputs: seq<string>)
    requires Inv(w) && Guarded(w) && w.here != TreasureRoom
    requires Run(w, inputs).status == Won
    ensures !Locked(Run(w, inputs).next)
    decreases |inputs|
  {
    var s := Step(w, inputs[0]);
    StepEvolves(w, inputs[0]);
    StepQuit(w, inputs[0]);
    if s.next.here == TreasureRoom {
      EnterNeedsUnlocked(w, inputs[0]);
    } else {
      EvolvesGuarded(w, s.next);
      WinNeedsUnlock(s.next, inputs[1..]);
    }
  }

  /** Taking an item that is not yet carried and dropping it again gives the
      inventory back unchanged and leaves the item at the end of the room's
      list. */
  lemma TakeThenDrop(w: World, n: string, x: Item)
    requires Inv(w) && Lookup(Current(w).items, n) == Some(x) && Lookup(w.inventory, n).None?
    ensures var w1 := Take(w, n).next;
      && Drop(w1, n).next.inventory == w.inventory
      && Drop(w1, n).next.here == w.here
      && Current(Drop(w1, n).next).items == Remove(Current(w).items, n) + [x]
      && Drop(w1, n).out == [Dropped(x.name)]
  {
    assert Matches(x, n) by {
      RemoveSplits(Current(w).items, n);
      var i := Find(Current(w).items, n).value;
    }
    LookupAppended(w.inventory, x, n);
  }

  /** The Rusty Key: in the hallway it opens a locked door and otherwise
      reports the door already open; elsewhere it fits nothing. Only the
      first case changes the world, and it only clears the hallway lock: the
      key stays in the inventory and the player stays put. */
  lemma KeyRules(w: World, n: string)
    requires Inv(w) && Lookup(w.inventory, n).Some? && Lookup(w.inventory, n).value.name == "Rusty Key"
    ensures w.here == Hallway && Locked(w) ==>
      Use(w, n) == StepResult(SetCurrent(w, Current(w).(doorLocked := false)), Playing, [TryKey, Unlocked])
      && !Locked(Use(w, n).next)
    ensures w.here == Hallway && !Locked(w) ==> Use(w, n) == StepResult(w, Playing, [TryKey, AlreadyUnlocked])
    ensures w.here != Hallway ==> Use(w, n) == StepResult(w, Playing, [KeyDoesNotFit])
    ensures Use(w, n).next.inventory == w.inventory && Use(w, n).next.here == w.here
  {
    UseConserves(w, n);
    if w.here == Hallway {
      HallwayIsCurrent(w);
      SetCurrentLocked(w, Current(w).(doorLocked := false));
    }
  }

  /** The scroll and the potion only print: the world is left as it was,
      the potion's "passage" in the hallway included. */
  lemma ScrollAndPotionOnlyPrint(w: World, n: string)
    requires Inv(w) && Lookup(w.inventory, n).Some?
    requires Lookup(w.inventory, n).value.name in {"Old Scroll", "Glowing Potion"}
    ensures Use(w, n).next == w
    ensures Lookup(w.inventory, n).value.name == "Old Scroll" ==> Use(w, n).out == [ScrollHint]
    ensures Lookup(w.inventory, n).value.name == "Glowing Potion" ==>
      Use(w, n).out == (if w.here == Hallway then [PassageRevealed] else [NothingHappens])
  {
  }

  /** Using something not carried, or an item without an effect of its own,
      changes nothing. */
  lemma UseWithoutEffect(w: World, n: string)
    requires Inv(w)
    requires Lookup(w.inventory, n).Some? ==>
      Lookup(w.inventory, n).value.name !in {"Old Scroll", "Glowing Potion", "Rusty Key"}
    ensures Use(w, n).next == w
    ensures Use(w, n).out == if Lookup(w.inventory, n).None? then [NotInInventory(n)] else [NothingHappens]
  {
  }

  /** An unknown verb, or `go`, `take`, `drop` or `use` without a noun, only
      prints a message. */
  lemma IncompleteCommandsChangeNothing(w: World, line: string)
    requires Inv(w)
    requires var c := ParseCommand(Strip(line));
      c.verb.Some? && (c.verb.value !in {"quit", "exit", "look", "go", "take", "drop", "inventory", "i", "use"} ||
        (c.verb.value in {"go", "take", "drop", "use"} && c.noun.None?))
    ensures Step(w, line).next == w && Step(w, line).status == Playing && |Step(w, line).out| == 1
    ensures var c := ParseCommand(Strip(line));
      c.verb.value !in {"quit", "exit", "look", "go", "take", "drop", "inventory", "i", "use"} ==>
        Step(w, line).out == [NotUnderstood]
  {
    var c := ParseCommand(Strip(line));
    StepIsDispatch(w, line);
    DispatchIncomplete(w, c.verb.value, c.noun);
  }

  lemma DispatchIncomplete(w: World, verb: string, noun: Option<string>)
    requires Inv(w)
    requires verb !in {"quit", "exit", "look", "go", "take", "drop", "inventory", "i", "use"} ||
      (verb in {"go", "take", "drop", "use"} && noun.None?)
    ensures Dispatch(w, verb, noun).next == w && Dispatch(w, verb, noun).status == Playing
    ensures |Dispatch(w, verb, noun).out| == 1
    ensures verb !in {"quit", "exit", "look", "go", "take", "drop", "inventory", "i", "use"} ==>
      Dispatch(w, verb, noun).out == [NotUnderstood]
  {
  }

  /** The win check comes before any input is read: standing in the
      treasure room ends the game whatever input remains. */
  lemma WinBeforeInput(w: World, inputs: seq<string>)
    requires Inv(w) && w.here == TreasureRoom
    ensures Run(w, inputs) == StepResult(w, Won, [Scene(Current(w).Describe()), Victory])
  {
  }
}
