/**
 * Python's `dict` as the analyze loops use it: a finite map that remembers the
 * order in which keys were first inserted. Assigning to a present key replaces
 * its value and keeps its position; assigning to a new key appends it.
 */
module Dicts {

  datatype Dict<K, V> = Dict(keys: seq<K>, entries: map<K, V>) {

    /** Keys are listed once each, and exactly the keys of the map are listed. */
    ghost predicate Valid() {
      && (forall i, j :: 0 <= i < j < |keys| ==> keys[i] != keys[j])
      && entries.Keys == (set i | 0 <= i < |keys| :: keys[i])
    }

    /** `d[k] = v` */
    function Put(k: K, v: V): (r: Dict<K, V>)
      requires Valid()
      ensures r.Valid()
      ensures k in r.entries && r.entries[k] == v
      ensures r.entries.Keys == entries.Keys + {k}
      ensures forall k' :: k' != k && k' in entries ==> r.entries[k'] == entries[k']
      ensures k in entries ==> r.keys == keys
      ensures k !in entries ==> r.keys == keys + [k]
    {
      var ks := if k in entries then keys else keys + [k];
      assert (set i | 0 <= i < |ks| :: ks[i]) == entries.Keys + {k} by {
        if k !in entries {
          assert ks[|keys|] == k;
          forall x | x in entries.Keys ensures x in (set i | 0 <= i < |ks| :: ks[i]) {
            var i :| 0 <= i < |keys| && keys[i] == x;
            assert ks[i] == x;
          }
        }
      }
      Dict(ks, entries[k := v])
    }

    /** `d.values()`, in insertion order of the keys. */
    function Values(): (vs: seq<V>)
      requires Valid()
      ensures |vs| == |keys|
      ensures forall i :: 0 <= i < |keys| ==> keys[i] in entries && vs[i] == entries[keys[i]]
    {
      seq(|keys|, i requires 0 <= i < |keys| && keys[i] in entries => entries[keys[i]])
    }
  }

  function Empty<K, V>(): (d: Dict<K, V>)
    ensures d.Valid() && d.entries == map[] && d.keys == []
  {
    Dict([], map[])
  }
}
