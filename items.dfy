/**
 * Items (text_adventure_game/src/item.py) and the case-insensitive,
 * first-match lookup that rooms and the inventory share.
 */
module Items {
  import opened Wrappers
  import opened Strings
  import opened Messages

  /** An item is its name and description; both are fixed at construction. */
  datatype Item = Item(name: string, description: string) {

    /** `str(item)`. */
    function ToString(): (s: string)
      ensures s == name
    {
      name
    }

    /** The default `use`: it needs nothing from the player and changes
        nothing; all it does is print one line. */
    function Use(): (m: Message)
      ensures Text(m) == "Nothing interesting happens."
    {
      NothingHappens
    }
  }

  /** `item.name.lower() == item_name.lower()`. */
  predicate Matches(item: Item, itemName: string) {
    Lower(item.name) == Lower(itemName)
  }

  /** Index of the first item whose name matches, ignoring case. */
  function Find(items: seq<Item>, itemName: string): (r: Option<nat>)
    ensures r.Some? ==> r.value < |items| && Matches(items[r.value], itemName)
    ensures r.Some? ==> forall j :: 0 <= j < r.value ==> !Matches(items[j], itemName)
    ensures r.None? <==> forall j :: 0 <= j < |items| ==> !Matches(items[j], itemName)
  {
    if items == [] then None
    else if Matches(items[0], itemName) then Some(0)
    else match Find(items[1..], itemName)
      case None => None
      case Some(i) => Some(i + 1)
  }

  /** The item `Find` selects, or None. */
  function Lookup(items: seq<Item>, itemName: string): Option<Item> {
    match Find(items, itemName)
    case None => None
    case Some(i) => Some(items[i])
  }

  /** The list with the entry `Find` selects taken out (`list.remove`). */
  function Remove(items: seq<Item>, itemName: string): seq<Item> {
    match Find(items, itemName)
    case None => items
    case Some(i) => items[..i] + items[i + 1..]
  }

  /** Removal takes out exactly one entry, the one `Lookup` returns, and keeps
      the order of the others; when nothing matches nothing is removed. */
  lemma RemoveSplits(items: seq<Item>, itemName: string)
    ensures Lookup(items, itemName).None? ==> Remove(items, itemName) == items
    ensures Lookup(items, itemName).Some? ==>
      exists i :: 0 <= i < |items| && items[i] == Lookup(items, itemName).value
        && Remove(items, itemName) == items[..i] + items[i + 1..]
    ensures multiset(items) == multiset(Remove(items, itemName)) +
      (match Lookup(items, itemName) case None => multiset{} case Some(x) => multiset{x})
  {
    match Find(items, itemName) {
      case None =>
      case Some(i) =>
        assert items == items[..i] + [items[i]] + items[i + 1..];
    }
  }

  /** A lookup by the name of an item that is present always succeeds, and
      what it finds carries that name up to case. */
  lemma LookupFindsPresent(items: seq<Item>, x: Item)
    requires x in items
    ensures Lookup(items, x.name).Some?
    ensures Lower(Lookup(items, x.name).value.name) == Lower(x.name)
  {
    var k :| 0 <= k < |items| && items[k] == x;
    assert Matches(items[k], x.name);
  }

  /** With no earlier match, an appended matching item is the one found,
      and removing it gives back the original list. */
  lemma LookupAppended(items: seq<Item>, x: Item, itemName: string)
    requires Lookup(items, itemName).None? && Matches(x, itemName)
    ensures Lookup(items + [x], itemName) == Some(x)
    ensures Remove(items + [x], itemName) == items
  {
    var s := items + [x];
    assert s[|items|] == x;
    assert forall j :: 0 <= j < |items| ==> s[j] == items[j];
    match Find(s, itemName) {
      case None =>
      case Some(j) =>
        assert j == |items|;
        assert s[..j] == items;
    }
  }

  /** The names, in list order (`[item.name for item in items]`). */
  function Names(items: seq<Item>): (ns: seq<string>)
    ensures |ns| == |items|
    ensures forall i :: 0 <= i < |items| ==> ns[i] == items[i].name
  {
    if items == [] then [] else [items[0].name] + Names(items[1..])
  }

  /** The search loop of `remove_item`, `get_item`, `drop_item`, `use_item`
      and `inventory_get_item`: scan in order, stop at the first match. */
  method IndexOfName(items: seq<Item>, itemName: string) returns (r: Option<nat>)
    ensures r == Find(items, itemName)
  {
    var key := Lower(itemName);
    var i := 0;
    while i < |items|
      invariant 0 <= i <= |items|
      invariant forall j :: 0 <= j < i ==> !Matches(items[j], itemName)
    {
      if Lower(items[i].name) == key {
        return Some(i);
      }
      i := i + 1;
    }
    return None;
  }
}
