/**
 * Python's `dict` with string keys: insertion ordered, a new key goes to the
 * end, assigning to an existing key replaces its value in place. Used for a
 * room's exits and for the registry of rooms.
 */
module Dicts {
  import opened Wrappers

  /** Position of the first occurrence of `k` in `keys`. */
  function Position(keys: seq<string>, k: string): (r: Option<nat>)
    ensures r.Some? ==> r.value < |keys| && keys[r.value] == k
    ensures r.Some? ==> forall j :: 0 <= j < r.value ==> keys[j] != k
    ensures r.None? <==> k !in keys
  {
    if keys == [] then None
    else if keys[0] == k then Some(0)
    else match Position(keys[1..], k)
      case None => None
      case Some(i) => Some(i + 1)
  }

  datatype Dict<V> = Dict(entries: seq<(string, V)>) {

    /** The keys in insertion order, as `list(d.keys())`. */
    function Keys(): seq<string> {
      seq(|entries|, i requires 0 <= i < |entries| => entries[i].0)
    }

    /** No key occurs twice. */
    predicate Valid() {
      forall i, j :: 0 <= i < j < |entries| ==> entries[i].0 != entries[j].0
    }

    /** `d.get(k)`. */
    function Get(k: string): (r: Option<V>)
      ensures r.None? <==> k !in Keys()
      ensures r.Some? ==> exists i :: 0 <= i < |entries| && entries[i] == (k, r.value)
    {
      match Position(Keys(), k)
      case None => None
      case Some(i) => Some(entries[i].1)
    }

    /** `d[k] = v`. */
    function Put(k: string, v: V): Dict<V> {
      match Position(Keys(), k)
      case None => Dict(entries + [(k, v)])
      case Some(i) => Dict(entries[i := (k, v)])
    }
  }

  function Empty<V>(): (d: Dict<V>)
    ensures d.Valid() && d.Keys() == []
  {
    Dict([])
  }

  /** After `d[k] = v`, `d[k]` is `v` and every other key reads as before. */
  lemma PutGet<V>(d: Dict<V>, k: string, v: V, k': string)
    ensures d.Put(k, v).Get(k) == Some(v)
    ensures k' != k ==> d.Put(k, v).Get(k') == d.Get(k')
  {
    var e := d.Put(k, v);
    match Position(d.Keys(), k) {
      case None =>
        assert e.Keys() == d.Keys() + [k];
        match Position(d.Keys(), k') {
          case None =>
          case Some(j) => assert e.Keys()[j] == k';
        }
      case Some(i) =>
        assert e.Keys() == d.Keys();
        match Position(d.Keys(), k') {
          case None =>
          case Some(j) => assert k' != k ==> j != i;
        }
    }
  }

  /** `d[k] = v` keeps the key order: an existing key keeps its position and a
      new one goes last; the keys stay distinct. */
  lemma PutKeys<V>(d: Dict<V>, k: string, v: V)
    ensures k in d.Keys() ==> d.Put(k, v).Keys() == d.Keys()
    ensures k !in d.Keys() ==> d.Put(k, v).Keys() == d.Keys() + [k]
    ensures d.Valid() ==> d.Put(k, v).Valid()
  {
    var e := d.Put(k, v);
    match Position(d.Keys(), k)
    case None =>
      assert e.Keys() == d.Keys() + [k];
      if d.Valid() {
        forall i, j | 0 <= i < j < |e.entries| ensures e.entries[i].0 != e.entries[j].0 {
          if j == |d.entries| {
            assert d.Keys()[i] == e.entries[i].0;
          }
        }
      }
    case Some(i) =>
      assert e.Keys() == d.Keys()[i := k];
  }

  /** In a valid dict the entry holding a key is the one `Get` finds. */
  lemma GetAt<V>(d: Dict<V>, i: nat)
    requires d.Valid() && i < |d.entries|
    ensures d.Get(d.entries[i].0) == Some(d.entries[i].1)
    ensures Position(d.Keys(), d.entries[i].0) == Some(i)
  {
    assert d.Keys()[i] == d.entries[i].0;
  }

  /** Writing back the value a key already has changes nothing. */
  lemma PutSame<V>(d: Dict<V>, k: string, v: V)
    requires d.Get(k) == Some(v)
    ensures d.Put(k, v) == d
  {
    var i := Position(d.Keys(), k).value;
    assert d.entries[i] == (k, v);
  }
}
