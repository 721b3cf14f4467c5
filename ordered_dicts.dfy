/** Python dicts with string keys: a table of entries plus the order in which
    keys were first inserted (a Python dict iterates in insertion order). */
module OrderedDicts {

  datatype DictRep<V> = DictRep(order: seq<string>, entries: map<string, V>)

  ghost predicate NoDuplicates(s: seq<string>)
  {
    forall k :: multiset(s)[k] <= 1
  }

  /** Every key is listed once in the order, and the order lists exactly the stored keys. */
  ghost predicate WellFormed<V>(d: DictRep<V>)
  {
    NoDuplicates(d.order) && forall k :: k in d.entries <==> k in d.order
  }

  type Dict<V> = d: DictRep<V> | WellFormed(d) witness DictRep([], map[])

  /** `{}` */
  function Empty<V>(): Dict<V>
  {
    DictRep([], map[])
  }

  /** `d.get(key, default)` */
  function Get<V>(d: Dict<V>, key: string, default: V): V
  {
    if key in d.entries then d.entries[key] else default
  }

  /** `d[key] = value`: a new key goes to the end of the order, an existing key keeps its place. */
  function Insert<V>(d: Dict<V>, key: string, value: V): Dict<V>
  {
    if key in d.entries then DictRep(d.order, d.entries[key := value])
    else DictRep(d.order + [key], d.entries[key := value])
  }

  /** `d.update(other)`: other's entries are written into `d` one at a time, in other's order. */
  function Overlay<V>(d: Dict<V>, other: Dict<V>): Dict<V>
  {
    InsertAll(d, other.order, other.entries)
  }

  function InsertAll<V>(d: Dict<V>, keys: seq<string>, src: map<string, V>): Dict<V>
    requires forall k :: k in keys ==> k in src
    decreases |keys|
  {
    if keys == [] then d else InsertAll(Insert(d, keys[0], src[keys[0]]), keys[1..], src)
  }

  /** Updating with one more key is one more assignment after the rest of the update. */
  lemma {:induction false} InsertAllAppend<V>(d: Dict<V>, keys: seq<string>, key: string, src: map<string, V>)
    requires key in src && forall k :: k in keys ==> k in src
    ensures InsertAll(d, keys + [key], src) == Insert(InsertAll(d, keys, src), key, src[key])
    decreases |keys|
  {
    if keys == [] {
      assert ([] + [key])[1..] == [];
    } else {
      assert (keys + [key])[1..] == keys[1..] + [key];
      InsertAllAppend(Insert(d, keys[0], src[keys[0]]), keys[1..], key, src);
    }
  }

  /** The keys of `keys`, in their order, that `m` does not hold yet. */
  function NewKeys<V>(keys: seq<string>, m: map<string, V>): seq<string>
  {
    if keys == [] then []
    else (if keys[0] in m then [] else [keys[0]]) + NewKeys(keys[1..], m)
  }

  /** Reading back a key after `d[key] = value` gives `value`; every other key reads as before. */
  lemma InsertGet<V>(d: Dict<V>, key: string, value: V, k: string, default: V)
    ensures Get(Insert(d, key, value), k, default) == if k == key then value else Get(d, k, default)
    ensures k in Insert(d, key, value).entries <==> k == key || k in d.entries
  {
  }

  /** After `d[key] = value` the key is listed exactly once among the dict's keys. */
  lemma InsertListsKeyOnce<V>(d: Dict<V>, key: string, value: V)
    ensures multiset(Insert(d, key, value).order)[key] == 1
  {
  }

  /** A dict has as many keys in its order as entries in its table. */
  lemma KeyCount<V>(d: Dict<V>)
    ensures |d.order| == |d.entries|
  {
    DistinctCount(d.order);
    assert d.entries.Keys == set k | k in d.order;
  }

  lemma {:induction false} DistinctCount(s: seq<string>)
    requires NoDuplicates(s)
    ensures |set k | k in s| == |s|
  {
    if s != [] {
      var init := s[..|s| - 1];
      var last := s[|s| - 1];
      assert s == init + [last];
      assert multiset(s) == multiset(init) + multiset{last};
      forall k ensures multiset(init)[k] <= 1 {
        assert multiset(init)[k] <= multiset(s)[k];
      }
      assert multiset(s)[last] == multiset(init)[last] + 1 <= 1;
      DistinctCount(init);
      assert (set k | k in s) == (set k | k in init) + {last};
    }
  }

  /** `d.update(other)`: a key is present afterwards iff it was in `d` or in `other`;
      other's value wins where both hold the key. */
  lemma OverlayEntries<V>(d: Dict<V>, other: Dict<V>)
    ensures forall k :: k in Overlay(d, other).entries <==> k in d.entries || k in other.entries
    ensures forall k :: k in other.entries ==> Overlay(d, other).entries[k] == other.entries[k]
    ensures forall k :: k in d.entries && k !in other.entries ==> Overlay(d, other).entries[k] == d.entries[k]
  {
    forall k
      ensures k in Overlay(d, other).entries <==> k in d.entries || k in other.entries
      ensures k in other.entries ==> Overlay(d, other).entries[k] == other.entries[k]
      ensures k in d.entries && k !in other.entries ==> Overlay(d, other).entries[k] == d.entries[k]
    {
      InsertAllEntries(d, other.order, other.entries, k);
      assert k in other.entries <==> k in other.order;
    }
  }

  ghost predicate InsertAllGet<V>(d: Dict<V>, keys: seq<string>, src: map<string, V>, k: string)
    requires forall k :: k in keys ==> k in src
  {
    var r := InsertAll(d, keys, src);
    && (k in r.entries <==> k in d.entries || k in keys)
    && (k in keys ==> r.entries[k] == src[k])
    && (k in d.entries && k !in keys ==> r.entries[k] == d.entries[k])
  }

  lemma {:induction false} InsertAllEntries<V>(d: Dict<V>, keys: seq<string>, src: map<string, V>, k: string)
    requires forall k :: k in keys ==> k in src
    ensures InsertAllGet(d, keys, src, k)
    decreases |keys|
  {
    if keys != [] {
      InsertAllEntries(Insert(d, keys[0], src[keys[0]]), keys[1..], src, k);
      assert k in keys <==> k == keys[0] || k in keys[1..];
    }
  }

  /** `d.update(other)` keeps d's keys in place and appends other's new keys in other's order. */
  lemma OverlayOrder<V>(d: Dict<V>, other: Dict<V>)
    ensures Overlay(d, other).order == d.order + NewKeys(other.order, d.entries)
  {
    InsertAllOrder(d, other.order, other.entries);
  }

  lemma {:induction false} InsertAllOrder<V>(d: Dict<V>, keys: seq<string>, src: map<string, V>)
    requires forall k :: k in keys ==> k in src
    requires NoDuplicates(keys)
    ensures InsertAll(d, keys, src).order == d.order + NewKeys(keys, d.entries)
    decreases |keys|
  {
    if keys != [] {
      var k := keys[0];
      TailDistinct(keys);
      InsertAllOrder(Insert(d, k, src[k]), keys[1..], src);
      assert keys == [k] + keys[1..];
      InsertThenNewKeys(d, k, src[k], keys[1..]);
    }
  }

  /** Inserting `key` and then appending the new ones among `rest` orders the keys as
      appending the new ones among `[key] + rest` directly. */
  lemma InsertThenNewKeys<V>(d: Dict<V>, key: string, value: V, rest: seq<string>)
    requires key !in rest
    ensures Insert(d, key, value).order + NewKeys(rest, Insert(d, key, value).entries)
         == d.order + NewKeys([key] + rest, d.entries)
  {
    var added := if key in d.entries then [] else [key];
    NewKeysIgnores(rest, d.entries, key, value);
    assert ([key] + rest)[1..] == rest;
    assert NewKeys([key] + rest, d.entries) == added + NewKeys(rest, d.entries);
    assert (d.order + added) + NewKeys(rest, d.entries) == d.order + (added + NewKeys(rest, d.entries));
  }

  lemma TailDistinct(keys: seq<string>)
    requires keys != [] && NoDuplicates(keys)
    ensures NoDuplicates(keys[1..]) && keys[0] !in keys[1..]
  {
    assert keys == [keys[0]] + keys[1..];
    assert multiset(keys) == multiset{keys[0]} + multiset(keys[1..]);
    forall k ensures multiset(keys[1..])[k] <= 1 {
      assert multiset(keys[1..])[k] <= multiset(keys)[k];
    }
    assert multiset(keys)[keys[0]] == multiset(keys[1..])[keys[0]] + 1 <= 1;
  }

  lemma {:induction false} NewKeysIgnores<V>(keys: seq<string>, m: map<string, V>, key: string, value: V)
    requires key !in keys
    ensures NewKeys(keys, m[key := value]) == NewKeys(keys, m)
    decreases |keys|
  {
    if keys != [] {
      assert keys[0] != key;
      NewKeysIgnores(keys[1..], m, key, value);
    }
  }

  /** A dict object that the source mutates in place while other code holds it too. */
  class DictObject<V> {
    var value: Dict<V>

    constructor ()
      ensures value == Empty()
    {
      value := Empty();
    }

    method SetItem(key: string, v: V)
      modifies this
      ensures value == Insert(old(value), key, v)
    {
      value := Insert(value, key, v);
    }

    method Update(other: Dict<V>)
      modifies this
      ensures value == Overlay(old(value), other)
    {
      value := Overlay(value, other);
    }
  }
}
