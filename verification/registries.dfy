/**
 * Python's `dict` keyed by strings, as `extract_team_state` uses it: keys
 * remember the order of their first insertion, and assigning to a key that is
 * already present replaces its value without moving it.
 */
module Registries {

  datatype Registry<T> = Registry(keys: seq<string>, entries: map<string, T>) {

    /** The keys list and the map agree, and no key is listed twice. */
    ghost predicate Valid() {
      && (forall k :: k in entries <==> k in keys)
      && (forall i, j :: 0 <= i < j < |keys| ==> keys[i] != keys[j])
    }

    /** `d[k] = v`. */
    function Put(k: string, v: T): (r: Registry<T>)
      requires Valid()
      ensures r.Valid()
      ensures r.entries == entries[k := v]
      ensures r.entries.Keys == entries.Keys + {k}
      ensures k in entries ==> r.keys == keys
      ensures k !in entries ==> r.keys == keys + [k]
    {
      if k in entries then Registry(keys, entries[k := v])
      else Registry(keys + [k], entries[k := v])
    }

    /** `list(d.values())`, in first-insertion order. */
    function Values(): (vs: seq<T>)
      requires Valid()
      ensures |vs| == |keys|
      ensures forall i :: 0 <= i < |keys| ==> vs[i] == entries[keys[i]]
    {
      seq(|keys|, i requires 0 <= i < |keys| => entries[keys[i]])
    }
  }

  function Empty<T>(): (r: Registry<T>)
    ensures r.Valid() && r.keys == [] && r.entries == map[]
  {
    Registry([], map[])
  }

  /** The registry without its most recently added key. */
  function DropLast<T>(r: Registry<T>): Registry<T>
    requires |r.keys| > 0
  {
    Registry(r.keys[..|r.keys| - 1], r.entries - {r.keys[|r.keys| - 1]})
  }

  lemma DropLastValid<T>(r: Registry<T>)
    requires r.Valid() && |r.keys| > 0
    ensures DropLast(r).Valid()
    ensures r.entries.Keys == DropLast(r).entries.Keys + {r.keys[|r.keys| - 1]}
    ensures r.keys[|r.keys| - 1] !in DropLast(r).entries.Keys
  {
    var n := |r.keys|;
    var rest := DropLast(r);
    forall x | x in rest.keys ensures x in rest.entries {
      var i :| 0 <= i < n - 1 && rest.keys[i] == x;
      assert r.keys[i] == x;
    }
    forall x | x in rest.entries ensures x in rest.keys {
      assert x in r.keys;
      var i :| 0 <= i < n && r.keys[i] == x;
      assert i != n - 1;
      assert rest.keys[i] == x;
    }
  }

  /** In a valid registry the map holds exactly as many entries as there are keys,
      so `len(d)` can be read off either. */
  lemma {:induction false} SizeIsKeyCount<T>(r: Registry<T>)
    requires r.Valid()
    ensures |r.entries| == |r.keys|
    decreases |r.keys|
  {
    if |r.keys| > 0 {
      var rest := DropLast(r);
      DropLastValid(r);
      SizeIsKeyCount(rest);
      var k := r.keys[|r.keys| - 1];
      assert r.entries.Keys == rest.entries.Keys + {k} && k !in rest.entries.Keys;
      assert |r.entries.Keys| == |rest.entries.Keys| + 1;
    } else {
      assert r.entries.Keys == {};
    }
  }
}
