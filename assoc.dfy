/**
 * The fixed lookup tables of the services are Python dict literals read with
 * `d.get(key, default)`. A table is modelled as its list of entries in
 * insertion order, which is also the order in which Python iterates it.
 */
module Assoc {
  import opened Wrappers

  type Table<V> = seq<(string, V)>

  predicate HasKey<V>(t: Table<V>, key: string) {
    exists i | 0 <= i < |t| :: t[i].0 == key
  }

  /** No key is listed twice, as in any dict literal whose keys are distinct. */
  predicate UniqueKeys<V>(t: Table<V>) {
    forall i, j | 0 <= i < j < |t| :: t[i].0 != t[j].0
  }

  /** The keys in iteration order (`list(d.keys())`). */
  function Keys<V>(t: Table<V>): (r: seq<string>)
    ensures |r| == |t|
    ensures forall i | 0 <= i < |t| :: r[i] == t[i].0
  {
    seq(|t|, i requires 0 <= i < |t| => t[i].0)
  }

  /** `d.get(key)`: absent exactly when no entry has that key, otherwise an entry's value. */
  function Lookup<V>(t: Table<V>, key: string): (r: Option<V>)
    ensures r.None? <==> !HasKey(t, key)
    ensures r.Some? ==> exists i | 0 <= i < |t| :: t[i] == (key, r.value)
    decreases |t|
  {
    if t == [] then None
    else if t[0].0 == key then Some(t[0].1)
    else
      var r := Lookup(t[1..], key);
      assert HasKey(t, key) ==> HasKey(t[1..], key) by {
        if HasKey(t, key) {
          var i :| 0 <= i < |t| && t[i].0 == key;
          assert t[1..][i - 1].0 == key;
        }
      }
      assert r.Some? ==> exists i | 0 <= i < |t| :: t[i] == (key, r.value) by {
        if r.Some? {
          var i :| 0 <= i < |t[1..]| && t[1..][i] == (key, r.value);
          assert t[i + 1] == (key, r.value);
        }
      }
      r
  }

  /** `d.get(key, default)`. */
  function Get<V>(t: Table<V>, key: string, default: V): (r: V)
    ensures !HasKey(t, key) ==> r == default
    ensures HasKey(t, key) ==> exists i | 0 <= i < |t| :: t[i] == (key, r)
  {
    Lookup(t, key).GetOr(default)
  }

  /** With distinct keys, looking up the key of an entry gives that entry's value. */
  lemma LookupEntry<V>(t: Table<V>, i: nat)
    requires UniqueKeys(t) && i < |t|
    ensures Lookup(t, t[i].0) == Some(t[i].1)
  {
    var r := Lookup(t, t[i].0);
    var j :| 0 <= j < |t| && t[j] == (t[i].0, r.value);
    assert j == i;
  }
}
