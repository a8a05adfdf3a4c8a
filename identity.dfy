/** The identity store: the script's `emailMap`, a JavaScript `Map` from
    normalised email to `{name, count}`. A `Map` iterates in first-insertion
    order, and `set` on a key already present keeps that key's position, so
    the store is a key sequence in insertion order plus a map. */
module Identity {

  datatype Entry = Entry(name: string, count: int)

  datatype Store = Store(keys: seq<string>, entries: map<string, Entry>) {
    /** The keys are distinct and are exactly the keys of the map. */
    predicate Valid() {
      && (forall i, j :: 0 <= i < j < |keys| ==> keys[i] != keys[j])
      && (forall k :: k in keys ==> k in entries)
      && (forall k :: k in entries ==> k in keys)
    }
  }

  const Empty := Store([], map[])

  /** `Map.prototype.set`: a new key goes last, a present key keeps its place. */
  function Put(s: Store, key: string, e: Entry): (r: Store)
    ensures s.Valid() ==> r.Valid()
    ensures r.entries == s.entries[key := e]
    ensures key in s.entries ==> r.keys == s.keys
    ensures key !in s.entries ==> r.keys == s.keys + [key]
  {
    if key in s.entries then Store(s.keys, s.entries[key := e])
    else Store(s.keys + [key], s.entries[key := e])
  }

  /** One merge of a response into the store: a present key counts one more
      and takes the new name only when it is strictly longer; an absent key is
      added last with count 1. No other entry changes. */
  function Merge(s: Store, key: string, name: string): (r: Store)
    ensures s.Valid() ==> r.Valid()
    ensures key in r.entries
    ensures forall k :: k != key ==> (k in r.entries <==> k in s.entries)
    ensures forall k :: k != key && k in s.entries ==> r.entries[k] == s.entries[k]
    ensures key in s.entries ==> r.keys == s.keys
    ensures key in s.entries ==> r.entries[key].count == s.entries[key].count + 1
    ensures key in s.entries ==> r.entries[key].name == (if |name| > |s.entries[key].name| then name else s.entries[key].name)
    ensures key !in s.entries ==> r.keys == s.keys + [key] && r.entries[key] == Entry(name, 1)
  {
    if key in s.entries then
      var existing := s.entries[key];
      Put(s, key, Entry(if |name| > |existing.name| then name else existing.name, existing.count + 1))
    else
      Put(s, key, Entry(name, 1))
  }

  /** The count the store holds for `key`, 0 when the key is absent. */
  function CountOf(s: Store, key: string): int {
    if key in s.entries then s.entries[key].count else 0
  }

  /** The length of the name the store holds for `key`, 0 when absent. */
  function NameLength(s: Store, key: string): nat {
    if key in s.entries then |s.entries[key].name| else 0
  }

  /** One merge adds exactly one to the merged key's count (an absent key
      counts as 0), leaves every other count alone, and never shortens a
      name: the merged key's name length becomes the larger of the old length
      and the candidate's. */
  lemma MergeCounts(s: Store, key: string, name: string, k: string)
    ensures CountOf(Merge(s, key, name), k) == CountOf(s, k) + (if k == key then 1 else 0)
    ensures NameLength(Merge(s, key, name), k) == (if k == key then Max(NameLength(s, k), |name|) else NameLength(s, k))
  {
  }

  function Max(a: nat, b: nat): nat {
    if a < b then b else a
  }

  /** The script's `emailMap`. */
  class IdentityMap {
    var keys: seq<string>
    var entries: map<string, Entry>

    function Value(): Store
      reads this
    {
      Store(keys, entries)
    }

    ghost predicate Valid()
      reads this
    {
      Value().Valid()
    }

    /** `new Map()`. */
    constructor ()
      ensures Valid() && Value() == Empty
    {
      keys, entries := [], map[];
    }

    /** `emailMap.has(key)`. */
    predicate Has(key: string)
      reads this
    {
      key in entries
    }

    /** `emailMap.get(key)` on a present key. */
    function Get(key: string): Entry
      reads this
      requires key in entries
    {
      entries[key]
    }

    /** `emailMap.size`. */
    function Size(): nat
      reads this
    {
      |keys|
    }

    /** `emailMap.set(key, e)`. */
    method Set(key: string, e: Entry)
      requires Valid()
      modifies this
      ensures Valid()
      ensures Value() == Put(old(Value()), key, e)
    {
      if key !in entries {
        keys := keys + [key];
      }
      entries := entries[key := e];
    }
  }
}
