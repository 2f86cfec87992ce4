/**
 * Objects and dictionaries as their entries in insertion order, the order
 * in which Python `dict`s keep and serialise their keys. JavaScript objects
 * do the same for string keys, but list integer-like keys first in
 * ascending order; no key used in this model is integer-like.
 */
module Dicts {
  import opened Wrappers

  type Dict<V> = seq<(string, V)>

  /** The value stored under `key`, if any. */
  function Lookup<V>(obj: Dict<V>, key: string): Option<V> {
    if obj == [] then None
    else if obj[0].0 == key then Some(obj[0].1)
    else Lookup(obj[1..], key)
  }

  /** `obj[key] = value`: an existing key keeps its place, a new key goes last. */
  function Assign<V>(obj: Dict<V>, key: string, value: V): Dict<V> {
    if obj == [] then [(key, value)]
    else if obj[0].0 == key then [(key, value)] + obj[1..]
    else [obj[0]] + Assign(obj[1..], key, value)
  }

  /** `{ ...obj, ...extra }` in JavaScript, `obj.update(extra)` in Python. */
  function Spread<V>(obj: Dict<V>, extra: Dict<V>): Dict<V>
    decreases |extra|
  {
    if extra == [] then obj else Spread(Assign(obj, extra[0].0, extra[0].1), extra[1..])
  }

  /** After an assignment the key holds the new value and every other key is unchanged. */
  lemma {:induction false} AssignLookup<V>(obj: Dict<V>, key: string, value: V, k: string)
    ensures Lookup(Assign(obj, key, value), k) == if k == key then Some(value) else Lookup(obj, k)
  {
    if obj != [] && obj[0].0 != key {
      AssignLookup(obj[1..], key, value, k);
    }
  }

  /** No key occurs twice, as in any JavaScript object or Python `dict`. */
  predicate DistinctKeys<V>(obj: Dict<V>) {
    forall i, j :: 0 <= i < j < |obj| ==> obj[i].0 != obj[j].0
  }

  /** After the spread a key takes its value from `extra` when it has one there. */
  lemma {:induction false} SpreadLookup<V>(obj: Dict<V>, extra: Dict<V>, k: string)
    requires DistinctKeys(extra)
    ensures Lookup(Spread(obj, extra), k) == if Lookup(extra, k).Some? then Lookup(extra, k) else Lookup(obj, k)
    decreases |extra|
  {
    if extra != [] {
      var (key, value) := extra[0];
      AssignLookup(obj, key, value, k);
      assert DistinctKeys(extra[1..]);
      SpreadLookup(Assign(obj, key, value), extra[1..], k);
      if k == key {
        assert Lookup(extra[1..], k).None? by {
          LookupAbsent(extra[1..], k);
        }
      }
    }
  }

  /** A key that no entry carries has no value. */
  lemma {:induction false} LookupAbsent<V>(obj: Dict<V>, k: string)
    requires forall i :: 0 <= i < |obj| ==> obj[i].0 != k
    ensures Lookup(obj, k).None?
  {
    if obj != [] {
      LookupAbsent(obj[1..], k);
    }
  }

  /** In a dictionary without repeated keys, each entry's key finds that entry's value. */
  lemma {:induction false} LookupAt<V>(obj: Dict<V>, i: nat)
    requires DistinctKeys(obj) && i < |obj|
    ensures Lookup(obj, obj[i].0) == Some(obj[i].1)
  {
    if i > 0 {
      assert obj[0].0 != obj[i].0;
      assert DistinctKeys(obj[1..]);
      LookupAt(obj[1..], i - 1);
    }
  }

  /** An assignment keeps every existing key in its place. */
  lemma {:induction false} AssignKeepsKeys<V>(obj: Dict<V>, key: string, value: V)
    ensures |Assign(obj, key, value)| >= |obj|
    ensures forall i :: 0 <= i < |obj| ==> Assign(obj, key, value)[i].0 == obj[i].0
  {
    if obj != [] && obj[0].0 != key {
      AssignKeepsKeys(obj[1..], key, value);
    }
  }

  /** A spread keeps every key of the original object in its place. */
  lemma {:induction false} SpreadKeepsKeys<V>(obj: Dict<V>, extra: Dict<V>)
    ensures |Spread(obj, extra)| >= |obj|
    ensures forall i :: 0 <= i < |obj| ==> Spread(obj, extra)[i].0 == obj[i].0
    decreases |extra|
  {
    if extra != [] {
      AssignKeepsKeys(obj, extra[0].0, extra[0].1);
      SpreadKeepsKeys(Assign(obj, extra[0].0, extra[0].1), extra[1..]);
    }
  }
}
