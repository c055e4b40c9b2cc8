/**
 * What the game prints. Each line the source prints becomes one constructor;
 * `Text` gives the exact words.
 */
module Messages {
  import opened Strings

  datatype Message =
    // game loop
    | Welcome
    | Scene(description: string)
    | Victory
    | Goodbye
    | LookAgain
    | DoorLocked
    | GoWhere
    | TakeWhat
    | DropWhat
    | UseWhat
    | NotUnderstood
    | NotInInventory(noun: string)
    | ScrollHint
    | PassageRevealed
    | TryKey
    | Unlocked
    | AlreadyUnlocked
    | KeyDoesNotFit
    // player
    | CantGoThatWay
    | RoomNotFound(target: string, direction: string)
    | PickedUp(name: string)
    | NotFoundHere(noun: string)
    | Dropped(name: string)
    | DontHave(noun: string)
    | InventoryEmpty
    | InventoryList(names: seq<string>)
    | AttemptUse(name: string)
    | NoSuchItem(noun: string)
    // item
    | NothingHappens

  function Text(m: Message): string {
    match m
    case Welcome =>
      "\nWelcome to the Text Adventure Game!\nType 'quit' to exit at any time.\n"
      + "Common commands: go [direction], take [item], use [item], inventory, look."
    case Scene(d) => "\n==============================\n" + d
    case Victory => "\nCongratulations, you've found the treasure!\nThe adventure is complete!"
    case Goodbye => "Thanks for playing!"
    case LookAgain => "(You look around the room again.)"
    case DoorLocked => "The grand door to the east is locked. It needs a key."
    case GoWhere => "Go where? (e.g., 'go north')"
    case TakeWhat => "Take what?"
    case DropWhat => "Drop what?"
    case UseWhat => "Use what?"
    case NotUnderstood =>
      "I don't understand that command. Try 'go', 'take', 'use', 'drop', 'look', 'inventory', or 'quit'."
    case NotInInventory(n) => "You don't have '" + n + "' in your inventory."
    case ScrollHint =>
      "The scroll reads: 'Where shadows play and secrets stay, a southern path will light the way.'"
    case PassageRevealed =>
      "The potion illuminates a faint crack on the south wall, revealing it as a passage! Perhaps you can 'go south' now."
    case TryKey => "You try the rusty key on the grand door to the east..."
    case Unlocked => "It fits! The lock clicks open. The way to the Treasure Room is clear!"
    case AlreadyUnlocked => "The door is already unlocked."
    case KeyDoesNotFit => "This key doesn't seem to fit any locks here."
    case CantGoThatWay => "You can't go that way."
    case RoomNotFound(t, d) => "Error: Room '" + t + "' (linked from exit '" + d + "') not found in game_rooms."
    case PickedUp(n) => "You picked up the " + n + "."
    case NotFoundHere(n) => "'" + n + "' not found here."
    case Dropped(n) => "You dropped the " + n + "."
    case DontHave(n) => "You don't have '" + n + "'."
    case InventoryEmpty => "Your inventory is empty."
    case InventoryList(ns) => "Inventory: " + Join(ns, ", ")
    case AttemptUse(n) => "You attempt to use the " + n + "."
    case NoSuchItem(n) => "You don't have '" + n + "' in your inventory."
    case NothingHappens => "Nothing interesting happens."
  }
}
