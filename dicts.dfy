/** Python dictionaries: the keys in insertion order together with the value
    stored under each. Assigning to a key that is already present keeps its
    place; a new key goes last. */
module Dicts {

  datatype Dict<K(==,!new), V> = Dict(keys: seq<K>, entries: map<K, V>)

  ghost predicate Distinct<K(!new)>(s: seq<K>) {
    forall i, j :: 0 <= i < j < |s| ==> s[i] != s[j]
  }

  /** Every key is listed once, and the listed keys are exactly the stored ones. */
  ghost predicate Valid<K(!new), V>(d: Dict<K, V>) {
    Distinct(d.keys) && forall k :: k in d.entries <==> k in d.keys
  }

  /** `{}` */
  function Empty<K(==,!new), V>(): (d: Dict<K, V>)
    ensures Valid(d) && d.keys == [] && d.entries == map[]
  {
    Dict([], map[])
  }

  /** `d[k] = v` */
  function Put<K(==,!new), V>(d: Dict<K, V>, k: K, v: V): (r: Dict<K, V>)
    ensures Valid(d) ==> Valid(r)
    ensures r.entries == d.entries[k := v]
    ensures k in d.entries ==> r.keys == d.keys
    ensures k !in d.entries ==> r.keys == d.keys + [k]
  {
    Dict(if k in d.entries then d.keys else d.keys + [k], d.entries[k := v])
  }

  /** `d.get(k, default)` */
  function GetOr<K(==,!new), V>(d: Dict<K, V>, k: K, default: V): V {
    if k in d.entries then d.entries[k] else default
  }

  /** The sum of `measure` over the values under `keys`. */
  function Sum<K(==,!new), V>(keys: seq<K>, entries: map<K, V>, measure: V -> int): int
    requires forall k :: k in keys ==> k in entries
  {
    if keys == [] then 0
    else Sum(keys[..|keys| - 1], entries, measure) + measure(entries[keys[|keys| - 1]])
  }

  /** The sum of `measure` over all values of `d`. */
  function Total<K(==,!new), V>(d: Dict<K, V>, measure: V -> int): int
    requires Valid(d)
  {
    Sum(d.keys, d.entries, measure)
  }

  /** Replacing the value under one listed key changes the sum by the
      difference of the measures; replacing it under an unlisted key does not
      change the sum. */
  lemma {:induction false} SumUpdate<K(!new), V>(keys: seq<K>, entries: map<K, V>, k: K, v: V, measure: V -> int)
    requires forall x :: x in keys ==> x in entries
    requires Distinct(keys)
    ensures Sum(keys, entries[k := v], measure) ==
            Sum(keys, entries, measure) + (if k in keys then measure(v) - measure(entries[k]) else 0)
  {
    if keys != [] {
      var init, last := keys[..|keys| - 1], keys[|keys| - 1];
      assert forall x :: x in init ==> x in keys;
      SumUpdate(init, entries, k, v, measure);
      assert k in keys <==> k in init || k == last;
      assert last !in init;
    }
  }

  /** The sum only depends on the measures of the listed values. */
  lemma {:induction false} SumSameMeasures<K(!new), V>(keys: seq<K>, e1: map<K, V>, e2: map<K, V>, measure: V -> int)
    requires forall k :: k in keys ==> k in e1 && k in e2 && measure(e1[k]) == measure(e2[k])
    ensures Sum(keys, e1, measure) == Sum(keys, e2, measure)
  {
    if keys != [] {
      assert forall x :: x in keys[..|keys| - 1] ==> x in keys;
      SumSameMeasures(keys[..|keys| - 1], e1, e2, measure);
    }
  }

  /** `d[k] = v` adds the measure of `v` to the total and removes that of the
      value it replaces. */
  lemma PutTotal<K(!new), V>(d: Dict<K, V>, k: K, v: V, measure: V -> int)
    requires Valid(d)
    ensures Total(Put(d, k, v), measure) ==
            Total(d, measure) + measure(v) - (if k in d.entries then measure(d.entries[k]) else 0)
  {
    var r := Put(d, k, v);
    SumUpdate(d.keys, d.entries, k, v, measure);
    if k !in d.entries {
      assert r.keys[..|r.keys| - 1] == d.keys;
    }
  }
}
