# Text adventure engine and lifecycle calculator, in Dafny

This project models two small Python programs and proves properties of them.

**The text adventure.** The player walks through five rooms, picks up and drops items, and must find the Rusty Key to open the locked east door of the Grand Hallway and reach the Treasure Room. The model covers:

- `Item`, a name and a description with a default `use`;
- `Room`, an ordered item list, an insertion-ordered exit table and the hallway's door lock;
- `Player`, a pointer to the current room and an ordered inventory;
- the command parser `parse_command`;
- the world built by `initialize_world`;
- the command loop `game_loop`.

It has two layers:

- **Values.** Modules `Game` and `GameFacts` state the rules on values. A `World` holds the rooms' fields, the player's room and the inventory. `Step` is one input line and `Run` a whole game over a sequence of lines. The properties are proved about these: item conservation, the lock, the guard on the treasure room, and which commands change nothing.
- **Objects.** Module `Session` runs the game on `Room` and `Player` objects, updating them in place. Each of its methods is proved to leave the objects showing (through `View`) exactly the world that `Step` or `Run` computes.

**The lifecycle planner.** `calculate_annual_impact` works out how many items a year of use consumes, the energy it costs to make and use them, and the waste they leave. `compare_products` does this for every product of a category. Module `Lifecycle` models both over exact reals.

Module layout:

- `Wrappers`: `Option`.
- `Strings`: ASCII `lower`, `strip`, `split` and `join`.
- `Dicts`: an insertion-ordered dictionary.
- `Messages`: every line the game prints.
- `Items`, `Rooms` and `Players`: the three classes.
- `Commands`: `parse_command`.
- `Game` and `GameFacts`: the rules and their properties.
- `Setup`: the initial world as a value.
- `Session`: the object-level game.
- `Walkthrough`: the game can be won, and how.
- `Lifecycle`: the planner.

## Model

| member | source | states |
|---|---|---|
| Strings.Lower | text_adventure_game/src/game.py:85 | `str.lower`: the same length, and every character is folded on its own |
| Strings.LowerFacts | text_adventure_game/src/game.py:85 | lowered text is lower case, lowering twice is lowering once, and lower-case text is left alone |
| Strings.Strip | text_adventure_game/src/game.py:85 | `str.strip`: the result has no whitespace at either end, is empty exactly when the input is all whitespace, and adds no character |
| Strings.StripPadded | text_adventure_game/src/game.py:143 | stripping removes exactly the whitespace around a trimmed text and nothing of it |
| Strings.SplitJoin | text_adventure_game/src/room.py:99 | splitting what `"\n".join` built, on `'\n'`, gives back the parts when none of them holds a newline |
| Dicts.Dict.Get | text_adventure_game/src/player.py:36 | `dict.get` is `None` exactly when the key is absent, and otherwise returns the value stored with the key |
| Dicts.PutGet | text_adventure_game/src/room.py:73 | after `d[k] = v`, `d[k]` reads `v` and every other key reads as before |
| Dicts.PutKeys | text_adventure_game/src/room.py:73 | an existing key keeps its place in the key order, a new key goes last, and keys stay distinct |
| Dicts.Empty | text_adventure_game/src/room.py:22 | the new exit table has no keys |
| Items.Item.ToString | text_adventure_game/src/item.py:16-20 | `str(item)` is the item's name |
| Items.Item.Use | text_adventure_game/src/item.py:22-30 | the default `use` prints exactly "Nothing interesting happens." and changes nothing |
| Items.Find | text_adventure_game/src/room.py:60-63 | the index found holds a case-insensitive match and no earlier entry matches; there is none exactly when no entry matches |
| Items.RemoveSplits | text_adventure_game/src/room.py:44-48 | removal takes out exactly the entry the lookup returns, keeping the others in order; with no match nothing changes; the multiset loses exactly that item |
| Items.LookupFindsPresent | text_adventure_game/src/room.py:60-63 | looking up the name of an item in the list always finds an item with that name up to case |
| Items.LookupAppended | text_adventure_game/src/player.py:87-89 | an appended match with no earlier match is what the lookup finds, and removing it restores the list |
| Items.Names | text_adventure_game/src/room.py:88 | the names in list order, one per item |
| Items.IndexOfName | text_adventure_game/src/player.py:142-146 | the scan loop that stops at the first case-insensitive match returns the index `Find` defines |
| Rooms.DescribeLines | text_adventure_game/src/room.py:82-99 | `describe` has exactly four lines: the name, the description, the items line and the exits line; the items line is "No items here." exactly when there are no items, and the exits line is "No obvious exits." exactly when there are no exits |
| Rooms.Room.constructor | text_adventure_game/src/room.py:20-23 | a new room has the given name and description, no items, no exits and no lock |
| Rooms.Room.AddItem | text_adventure_game/src/room.py:32 | the item is appended at the end, with no duplicate check, and the exits and the lock are untouched |
| Rooms.Room.RemoveItem | text_adventure_game/src/room.py:44-48 | returns the first case-insensitive match and removes exactly that entry; with no match it returns `None` and leaves the list as it was |
| Rooms.Room.GetItem | text_adventure_game/src/room.py:60-63 | the same first match as `remove_item`, with nothing modified |
| Rooms.Room.AddExit | text_adventure_game/src/room.py:73 | sets the lower-cased direction, overwriting any old target and leaving every other key alone; keeps the keys distinct, and the items and the lock untouched |
| Players.InventoryReport | text_adventure_game/src/player.py:100-104 | the empty message exactly for an empty inventory; otherwise "Inventory: " and the names joined by ", " |
| Players.Player.constructor | text_adventure_game/src/player.py:21-22 | the player starts in the given room with an empty inventory |
| Players.Player.Move | text_adventure_game/src/player.py:35-48 | moves exactly when the lower-cased direction has a non-empty target the registry knows, and then stands in that registered room; otherwise stays put and reports "can't go that way", preceded by the missing-room error for a dangling exit |
| Players.Player.TakeItem | text_adventure_game/src/player.py:60-69 | the first match leaves the room and is appended to the inventory; with no match both are unchanged and "not found here" is reported; the combined multiset of room items and inventory is kept |
| Players.Player.DropItem | text_adventure_game/src/player.py:81-94 | the first inventory match leaves the inventory and is appended to the room; with no match both are unchanged and "don't have" is reported; the combined multiset is kept |
| Players.Player.UseItem | text_adventure_game/src/player.py:117-130 | returns the first case-insensitive inventory match, announcing it, or `None` with the "don't have" message; the inventory is not modified |
| Players.Player.InventoryGetItem | text_adventure_game/src/player.py:142-146 | returns the first case-insensitive inventory match or `None`, with nothing modified |
| Commands.Words | text_adventure_game/src/game.py:89-91 | on stripped text: no verb exactly for empty text, and then no noun; lower-case text gives lower-case verb and noun |
| Commands.WordsShape | text_adventure_game/src/game.py:89-91 | the verb is the non-empty leading run without whitespace; with no noun the text is the verb alone; a noun is non-empty and trimmed, and the text is the verb, a whitespace run and the noun |
| Commands.ParseCommand | text_adventure_game/src/game.py:85-93 | no verb exactly for all-whitespace input, and then no noun; verb and noun are lower case |
| Commands.WordsOfPair | text_adventure_game/src/game.py:89-91 | a word, a whitespace run and a trimmed rest split into that word and that rest |
| Commands.ParseVerb | text_adventure_game/src/game.py:85-93 | one padded word parses to that word lower-cased with no noun |
| Commands.ParseVerbNoun | text_adventure_game/src/game.py:85-93 | a padded word, a gap and a rest parse to both lower-cased, and the rest keeps its inner whitespace |
| Commands.ParseLowerVerbNoun | text_adventure_game/src/game.py:85-93 | lower-case text of that shape parses to its own word and rest |
| Commands.ParseLowerVerb | text_adventure_game/src/game.py:85-93 | one padded lower-case word parses to itself with no noun |
| Commands.ParseBlank | text_adventure_game/src/game.py:86-87 | blank input of any length gives no verb and no noun |
| Commands.ParseGoNorth | text_adventure_game/src/game.py:109 | "go north" parses to ("go", "north") |
| Commands.ParseTakeScroll | text_adventure_game/src/game.py:110 | "take scroll" parses to ("take", "scroll") |
| Commands.ParseUseKey | text_adventure_game/src/game.py:111 | "use key" parses to ("use", "key") |
| Commands.ParseInventory | text_adventure_game/src/game.py:113 | "inventory" parses to ("inventory", no noun) |
| Commands.ParseQuit | text_adventure_game/src/game.py:114 | "quit" parses to ("quit", no noun) |
| Commands.ParseTakeOldScroll | text_adventure_game/src/game.py:89-93 | "  take  old scroll  " parses to ("take", "old scroll") |
| Commands.ParseDropPotion | text_adventure_game/src/game.py:115 | "  drop  potion  " parses to ("drop", "potion") |
| Commands.ParseUseRustyKey | text_adventure_game/src/game.py:117 | "use rusty key" parses to ("use", "rusty key") |
| Commands.ParseLook | text_adventure_game/src/game.py:112 | "look" parses to ("look", no noun) |
| Commands.ParseLookUpper | text_adventure_game/src/game.py:85 | "LOOK" is folded to ("look", no noun) |
| Commands.ParseDropPadded | text_adventure_game/src/game.py:89-93 | "   drop   " parses to ("drop", no noun) |
| Game.Current | text_adventure_game/src/game.py:134 | the player's room is the registered room under the player's room name |
| Game.SetCurrent | text_adventure_game/src/room.py:46 | updating the current room in place keeps the registry's keys, the player's position and the inventory, and makes the new fields current |
| Game.Go | text_adventure_game/src/game.py:159-170 | `go` never ends the game; its meaning is stated by `Session.GoMatches` (the move `player.move` makes), `GameFacts.LockedDoorHolds` (the locked door stops it), `GameFacts.GoArrives` (an open exit is taken) and `GameFacts.GoEntering` (the only way into the Treasure Room) |
| Game.Take | text_adventure_game/src/game.py:171-175 | `take` never ends the game; its meaning is stated by `Session.TakeMatches` (what `take_item` leaves behind), `GameFacts.TakeConserves` (no item gained or lost) and `GameFacts.TakeKeepsLock` (the lock untouched) |
| Game.Drop | text_adventure_game/src/game.py:176-180 | `drop` never ends the game; its meaning is stated by `Session.DropMatches` (what `drop_item` leaves behind), `GameFacts.DropConserves` (no item gained or lost) and `GameFacts.TakeThenDrop` (dropping undoes taking) |
| Game.Use | text_adventure_game/src/game.py:183-212 | `use` never ends the game; its meaning is stated by `Session.UnlockMatches` (the key opens the door), `GameFacts.KeyRules` (the three key cases), `GameFacts.ScrollAndPotionOnlyPrint` (the other two effects) and `GameFacts.UseWithoutEffect` (items not carried or without an effect) |
| Game.StepIsDispatch | text_adventure_game/src/game.py:143-150 | a blank line changes nothing and prints nothing; any other line is dispatched on its parsed verb and noun |
| Game.DispatchCases | text_adventure_game/src/game.py:152-214 | only `go`, `take`, `drop` and `use` with a noun reach the world-changing operations; every other command leaves the world as it was |
| Game.SetCurrentEvolves | text_adventure_game/src/game.py:200 | replacing the current room's items or opening its lock is an allowed evolution |
| Game.StepEvolves | text_adventure_game/src/game.py:143-214 | every line keeps the registry well formed, keeps every room's name, description and exits, can only open a lock, and ends `Playing` or `Quit` |
| Game.DispatchEvolves | text_adventure_game/src/game.py:152-214 | the same for each command |
| Game.GoEvolves | text_adventure_game/src/game.py:159-170 | moving keeps the player in a registered room and changes no room |
| Game.TakeEvolves | text_adventure_game/src/game.py:171-175 | `take` changes only item lists |
| Game.DropEvolves | text_adventure_game/src/game.py:176-180 | `drop` changes only item lists |
| Game.UseEvolves | text_adventure_game/src/game.py:183-212 | `use` changes at most the hallway lock, and only to open it |
| Game.EvolvesTrans | text_adventure_game/src/game.py:132 | allowed evolutions compose over loop passes |
| Game.Run | text_adventure_game/src/game.py:132-214 | the loop ends `Won`, `Quit` or `InputExhausted`, keeps the world well formed, and ends `Won` exactly when the player stands in the Treasure Room |
| Game.RunUnfold | text_adventure_game/src/game.py:132-154 | one pass: the scene, then the win check before any input, the end of the input, `quit`, or the next line and the rest of the game |
| Game.StepQuit | text_adventure_game/src/game.py:152-154 | a line ends the game exactly when its verb is `quit` or `exit`, and then the world is unchanged |
| Game.DispatchQuit | text_adventure_game/src/game.py:152-154 | the same for a parsed command |
| GameFacts.TakeConserves | text_adventure_game/src/player.py:60-62 | `take` neither creates nor loses an item: the multiset of all items in rooms and inventory is unchanged |
| GameFacts.DropConserves | text_adventure_game/src/player.py:87-89 | `drop` keeps the multiset of all items |
| GameFacts.UseConserves | text_adventure_game/src/game.py:183-212 | `use` keeps every item, the inventory and the player's position |
| GameFacts.StepConserves | text_adventure_game/src/game.py:143-214 | no line creates, destroys or duplicates an item |
| GameFacts.DispatchConserves | text_adventure_game/src/game.py:152-214 | the same for each command |
| GameFacts.RunConserves | text_adventure_game/src/game.py:132-214 | a whole game ends with exactly the items it started with |
| GameFacts.PoolUpdate | text_adventure_game/src/room.py:46 | replacing one room swaps exactly its items in the pool of room items |
| GameFacts.SetCurrentLocked | text_adventure_game/src/game.py:198-200 | updating the current room changes the lock only when the current room is the hallway |
| GameFacts.HallwayIsCurrent | text_adventure_game/src/game.py:198 | in the hallway, `game_rooms["Grand Hallway"]` is the player's room |
| GameFacts.EvolvesLocked | text_adventure_game/src/game.py:200 | a door that is locked after a run of steps was locked before: nothing locks it again |
| GameFacts.UnlockNeedsKey | text_adventure_game/src/game.py:195-201 | a line that opens the locked door is `use` of the Rusty Key in the Grand Hallway, and it prints the two key lines |
| GameFacts.DispatchUnlock | text_adventure_game/src/game.py:195-201 | the same for a parsed command |
| GameFacts.UseUnlock | text_adventure_game/src/game.py:195-201 | the same for `use` |
| GameFacts.TakeKeepsLock | text_adventure_game/src/game.py:171-175 | `take` never touches the lock |
| GameFacts.DropKeepsLock | text_adventure_game/src/game.py:176-180 | `drop` never touches the lock |
| GameFacts.LockedDoorHolds | text_adventure_game/src/game.py:162-166 | in the hallway with the door locked, `go east` reports the lock and changes nothing |
| GameFacts.EvolvesGuarded | text_adventure_game/src/game.py:159-214 | no step adds a way into the Treasure Room besides the hallway's east exit |
| GameFacts.StaysUnlessGo | text_adventure_game/src/game.py:152-214 | only `go` with a noun moves the player |
| GameFacts.GoEntering | text_adventure_game/src/game.py:159-168 | walking into the Treasure Room from outside needs the player in the hallway with the door open |
| GameFacts.EnterNeedsUnlocked | text_adventure_game/src/game.py:159-168 | a line that takes the player into the Treasure Room finds the door open and leaves it open |
| GameFacts.WinNeedsUnlock | text_adventure_game/src/game.py:137-141 | every won game that started outside the Treasure Room, with the hallway the only way in, ends with the door open |
| GameFacts.TakeThenDrop | text_adventure_game/src/game.py:171-180 | taking an item not already carried and dropping it again restores the inventory and puts the item at the end of the room's list |
| GameFacts.KeyRules | text_adventure_game/src/game.py:195-205 | the Rusty Key: in the hallway it opens a locked door, reports "already unlocked" for an open one, and elsewhere "doesn't fit"; the key stays in the inventory and the player stays put |
| GameFacts.ScrollAndPotionOnlyPrint | text_adventure_game/src/game.py:188-194 | the scroll and the potion only print, the potion's "passage" in the hallway included; the world is unchanged |
| GameFacts.UseWithoutEffect | text_adventure_game/src/game.py:207-210 | using something not carried, or an item without an effect of its own, prints one line and changes nothing |
| GameFacts.IncompleteCommandsChangeNothing | text_adventure_game/src/game.py:169-214 | an unknown verb, and `go`, `take`, `drop` or `use` without a noun, print exactly one line and leave the world unchanged |
| GameFacts.DispatchIncomplete | text_adventure_game/src/game.py:169-214 | the same for a parsed command |
| GameFacts.GoArrives | text_adventure_game/src/game.py:159-168 | `go` along an exit of the current room to a registered room, other than the locked east door of the hallway, moves the player there, prints nothing and changes no room |
| GameFacts.EvolvesExits | text_adventure_game/src/game.py:143-214 | no line adds or removes a room, and every room keeps its exit table |
| GameFacts.WinBeforeInput | text_adventure_game/src/game.py:137-141 | standing in the Treasure Room ends the game `Won` before any input is read, whatever input remains |
| Setup.InitialWorld | text_adventure_game/src/game.py:14-72 | the starting world is well formed |
| Setup.InitialWorldInv | text_adventure_game/src/game.py:60-71 | five rooms keyed by name in the dict's order; the player starts in the Dusty Library with nothing |
| Setup.InitialWorldLocked | text_adventure_game/src/game.py:49-69 | the hallway door starts locked, and the hallway's east exit is the only way into the Treasure Room |
| Setup.InitialWorldItems | text_adventure_game/src/game.py:29-38 | the world holds exactly the four items |
| Setup.LibraryExits | text_adventure_game/src/game.py:42-43 | the library's exits are the two `add_exit` calls on an empty table |
| Setup.LabExits | text_adventure_game/src/game.py:46 | the lab's exit is its `add_exit` call |
| Setup.HallwayExits | text_adventure_game/src/game.py:49-51 | the hallway's exits are its three `add_exit` calls, in order |
| Setup.ChamberExits | text_adventure_game/src/game.py:54 | the chamber's exit is its `add_exit` call |
| Setup.TreasureRoomExits | text_adventure_game/src/game.py:57 | the Treasure Room's exit is its `add_exit` call |
| Setup.DirectionsLower | text_adventure_game/src/game.py:42-57 | the directions written are already lower case |
| Setup.RoomNamesDistinct | text_adventure_game/src/game.py:22-26 | the five room names differ from one another |
| Walkthrough.StartLayout | text_adventure_game/src/game.py:37-69 | the starting world has the route to the treasure: library east to the hallway, hallway south to the chamber and east to the Treasure Room, chamber north to the hallway, the Rusty Key alone in the chamber, and the door locked |
| Walkthrough.WalkToChamber | text_adventure_game/src/game.py:159-168 | from the library, `go east` and then `go south` reach the Hidden Chamber, printing nothing and changing no room |
| Walkthrough.TakeOnlyItem | text_adventure_game/src/game.py:171-175 | taking the only item of the room into an empty inventory empties the room and leaves exactly that item carried |
| Walkthrough.KeyTaken | text_adventure_game/src/game.py:171-175 | `take rusty key` in the chamber leaves the player carrying only the key, the door still locked and the way back north intact |
| Walkthrough.FromTheKey | text_adventure_game/src/game.py:132-214 | with the key in hand, `go north`, `use rusty key` and `go east` win the game |
| Walkthrough.WinningWalk | text_adventure_game/src/game.py:132-214 | from the library of any world with that layout and an empty inventory, the six lines `go east`, `go south`, `take rusty key`, `go north`, `use rusty key`, `go east` (or any lines without surrounding whitespace that parse to the same verbs and nouns) end the game `Won` |
| Walkthrough.WinningGame | text_adventure_game/src/game.py:216-219 | the game started as the program starts it is won by those six lines: the treasure can be reached |
| Walkthrough.OpenDoorLeadsToTreasure | text_adventure_game/src/game.py:159-168 | once the door is open, `go east` in the hallway enters the Treasure Room, in every world the game can reach from a start with that layout; with `GameFacts.LockedDoorHolds` the door decides both ways |
| Session.RoomsView | text_adventure_game/src/game.py:60-66 | one entry per registered room, with its key and its fields |
| Session.NoAliasing | text_adventure_game/src/game.py:60-66 | rooms registered under distinct names are distinct objects |
| Session.LinkedView | text_adventure_game/src/game.py:134 | linked objects show a well-formed world whose current room is the player's room object |
| Session.ViewAfterRoom | text_adventure_game/src/room.py:46 | when one room object changed, the view is the old view with that room's entry written |
| Session.DoGo | text_adventure_game/src/game.py:159-170 | `go` on the objects does what `Game.Go` does to their view |
| Session.GoMatches | text_adventure_game/src/player.py:35-48 | where `move` leaves the player, and what it prints, is what `Game.Go` gives once the locked door is out of the way, and the world stays well formed |
| Session.DoTake | text_adventure_game/src/game.py:171-175 | `take` on the objects does what `Game.Take` does |
| Session.TakeMatches | text_adventure_game/src/player.py:60-69 | what `take_item` leaves behind, in the room, the inventory and the message, is the world `Game.Take` describes |
| Session.DoDrop | text_adventure_game/src/game.py:176-180 | `drop` on the objects does what `Game.Drop` does |
| Session.DropMatches | text_adventure_game/src/player.py:81-94 | what `drop_item` leaves behind is the world `Game.Drop` describes |
| Session.DoUse | text_adventure_game/src/game.py:183-212 | `use` on the objects does what `Game.Use` does |
| Session.UseKey | text_adventure_game/src/game.py:195-205 | the rusty key on the objects does what `Game.Use` does, opening the lock on the hallway object when it is locked |
| Session.UnlockMatches | text_adventure_game/src/game.py:196-201 | turning the key in the locked hallway door gives the world `Game.Use` describes: that room unlocked, nothing else changed |
| Session.DoCommand | text_adventure_game/src/game.py:152-214 | the dispatch on the objects does what `Game.Dispatch` does |
| Session.PlayTurn | text_adventure_game/src/game.py:143-214 | one pass after the scene does what `Game.Step` does |
| Session.GameLoop | text_adventure_game/src/game.py:123-214 | the loop prints the welcome and then exactly what `Game.Run` prints, and ends with the objects showing `Run`'s final world and status |
| Session.TracksStep | text_adventure_game/src/game.py:132-214 | a pass that neither wins nor quits keeps the output and the state on track with `Run` |
| Session.TracksEnd | text_adventure_game/src/game.py:137-154 | each of the three ways out of the loop completes `Run` |
| Session.InitializeWorld | text_adventure_game/src/game.py:14-72 | five fresh rooms, registered under their names, whose fields are the initial rooms, with the library as the start |
| Session.FurnishedRooms | text_adventure_game/src/game.py:21-57 | five new rooms hold their starting items and exits, the hallway door not yet locked |
| Session.DefineExits | text_adventure_game/src/game.py:42-57 | the eight `add_exit` calls give each room its exit table |
| Session.LibraryExitsAdded | text_adventure_game/src/game.py:42-43 | the library's two `add_exit` calls give it its starting exit table |
| Session.HallwayExitsAdded | text_adventure_game/src/game.py:49-51 | the hallway's three `add_exit` calls give it its starting exit table |
| Session.Registry | text_adventure_game/src/game.py:60-66 | the dict literal is keyed by room name and shows the initial rooms |
| Session.RegistryObjects | text_adventure_game/src/game.py:60-66 | the registry holds exactly the five rooms |
| Session.Play | text_adventure_game/src/game.py:216-219 | a whole session prints the welcome and then what `Game.Run` prints from the initial world, and ends with `Run`'s status |
| Lifecycle.CeilDiv | lifecycle_planner/src/comparison_logic.py:46 | `ceil(a / b)`: the least `q` with `a <= q * b` |
| Lifecycle.CeilDivRange | lifecycle_planner/src/comparison_logic.py:46 | for `a >= 0` and `b >= 1` the ceiling lies between 0 and `a`, and is 0 only for 0 |
| Lifecycle.EffectiveLifespan | lifecycle_planner/src/comparison_logic.py:42-44 | a positive lifespan is kept, and one of zero or less is clamped to exactly 1 |
| Lifecycle.AnnualImpact | lifecycle_planner/src/comparison_logic.py:23-71 | the empty result exactly for an unknown type; the name is kept; total energy is manufacturing plus use energy; manufacturing energy is items times energy per item; waste is items times weight times the share not recycled, reported twice |
| Lifecycle.DisposableCounts | lifecycle_planner/src/comparison_logic.py:32-35 | a disposable product needs one item per use, and pays use energy per item |
| Lifecycle.ReusableCounts | lifecycle_planner/src/comparison_logic.py:41-49 | a reusable product needs `n` items with `(n-1)*L < total <= n*L`, and pays use energy per use |
| Lifecycle.ReusableWithoutLifespan | lifecycle_planner/src/comparison_logic.py:43-46 | a lifespan of zero or less counts as one use per item |
| Lifecycle.ReusableAtMostDisposable | lifecycle_planner/src/comparison_logic.py:46 | for a non-negative number of uses, a reusable product needs no more items than uses, and none only when there are no uses |
| Lifecycle.FullyRecycledLeavesNoWaste | lifecycle_planner/src/comparison_logic.py:38-39 | a recycle rate of 100 leaves no waste |
| Lifecycle.MissingRateIsZero | lifecycle_planner/src/comparison_logic.py:30 | a record without a recycle rate gives the same result as one with rate 0 |
| Lifecycle.SameFractionSameImpact | lifecycle_planner/src/comparison_logic.py:30-71 | two records that agree on every figure and on the recycle fraction have the same impact |
| Lifecycle.Impacts | lifecycle_planner/src/comparison_logic.py:93-99 | never more results than products |
| Lifecycle.ImpactsAppend | lifecycle_planner/src/comparison_logic.py:93-99 | the results of two runs of products are each run's results, in order |
| Lifecycle.ImpactsMembers | lifecycle_planner/src/comparison_logic.py:93-99 | every result is the impact of a product of the category, and every product of known type contributes its impact |
| Lifecycle.ImpactsAllKnown | lifecycle_planner/src/comparison_logic.py:93-99 | when every type is known, there is one result per product and result `i` belongs to product `i` |
| Lifecycle.Comparison | lifecycle_planner/src/comparison_logic.py:86-91 | a category missing from the table gives the empty list |
| Lifecycle.CompareProducts | lifecycle_planner/src/comparison_logic.py:73-99 | the loop that appends each non-empty impact returns exactly `Comparison` |

## Left out

- **Console I/O.**
  - `input()`, `print` and `sys.exit` are not modelled. Input is a sequence of lines, and output is a sequence of `Message` values whose `Text` gives the printed words.
  - The end of the input becomes the status `InputExhausted`, where `input()` would raise `EOFError`.
  - `quit` returns the status `Quit` instead of exiting the process.
- **Unicode.** `str.lower`, `str.strip` and `str.split` are modelled on ASCII: case folding of `A`-`Z`, and the ten ASCII characters Python treats as whitespace: tab to carriage return, 0x1C–0x1F, and space.
- **Object identity.** Items are values. `list.remove(item)` removes the first entry equal to the found item, which is the entry the search found.
- **Player.ShowInventory.** It is the printed `InventoryReport`; it carries no contract of its own.
- **Items.Item.Use.** It does not take the player argument, which the source ignores.
- **Lifecycle.AnnualImpact:**
  - it does not model `round(..., 2)` or IEEE floating point: energies and weights are exact reals;
  - `math.ceil(total / lifespan)` is the exact integer ceiling, where the source divides in floating point, which can differ for very large totals;
  - a record missing one of the fields the source reads, which raises `KeyError` there, cannot be expressed, because `Product` always has every field.
- **Lifecycle.Comparison.** The product table `get_product_data()` is a parameter, not the constant table.
- **Demo blocks.** game.py has two `__main__` blocks. The second (game.py:216-219) starts the game and is `Session.Play`. The first (game.py:97-121) prints the initial world room by room and then each of nine sample commands with its parse; that printing is not modelled, and the nine parses are stated as the lemmas `Commands.ParseGoNorth`, `ParseTakeScroll`, `ParseUseKey`, `ParseLook`, `ParseInventory`, `ParseQuit`, `ParseDropPotion`, `ParseBlank` and `ParseUseRustyKey`. The demonstration blocks of the other files, such as the one at comparison_logic.py:101 onward, are not modelled.
- **Messages.** The lifecycle planner's printed diagnostics are not modelled:
  - the warning about an unknown product type (comparison_logic.py:56);
  - the `Error: Category '...' not found.` line (comparison_logic.py:90), where `Lifecycle.Comparison` returns `[]` without it.
- **Default arguments.** `days_per_year` defaults to 365 in `calculate_annual_impact` and `compare_products` (comparison_logic.py:9, 73); `AnnualImpact`, `Comparison` and `CompareProducts` take `daysPerYear` as a required parameter.
