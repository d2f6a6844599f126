/** Python's `dict` with string keys, which remembers the order in which its
    keys were first inserted and iterates in that order. */
module Dicts {

  datatype Dict<V> = Dict(keys: seq<string>, vals: map<string, V>) {

    /** The keys are listed once each, and exactly the mapped keys are listed. */
    ghost predicate Valid() {
      && Distinct(keys)
      && (forall k :: k in vals <==> k in keys)
    }

    /** `d[k] = v`: a new key goes to the end of the iteration order, an
        existing key keeps its place. */
    function Put(k: string, v: V): Dict<V> {
      if k in vals then Dict(keys, vals[k := v]) else Dict(keys + [k], vals[k := v])
    }
  }

  /** Storing keeps the keys distinct and listed exactly when mapped, and
      stores the value under its key. Every other key keeps its value, the
      existing keys keep their order, and a new key is appended last. */
  lemma PutValid<V>(d: Dict<V>, k: string, v: V)
    requires d.Valid()
    ensures d.Put(k, v).Valid()
    ensures k in d.Put(k, v).vals && d.Put(k, v).vals[k] == v
    ensures |d.Put(k, v).keys| == if k in d.vals then |d.keys| else |d.keys| + 1
    ensures forall j :: j in d.vals && j != k ==> j in d.Put(k, v).vals && d.Put(k, v).vals[j] == d.vals[j]
    ensures d.Put(k, v).keys[..|d.keys|] == d.keys
    ensures k !in d.vals ==> d.Put(k, v).keys[|d.keys|] == k
  {
    if k !in d.vals {
      assert (d.keys + [k])[..|d.keys|] == d.keys;
    }
  }

  /** The same entries, their integer values seen as reals. */
  function AsReals(d: Dict<int>): Dict<real> {
    Dict(d.keys, map k | k in d.vals :: d.vals[k] as real)
  }

  /** Seeing the values as reals keeps the keys and their order. */
  lemma AsRealsValid(d: Dict<int>)
    requires d.Valid()
    ensures AsReals(d).Valid()
  {
  }

  /** No key is listed twice: each is missing from the ones before it. */
  ghost predicate Distinct(ks: seq<string>) {
    ks == [] || (Distinct(ks[..|ks| - 1]) && ks[|ks| - 1] !in ks[..|ks| - 1])
  }

  function Empty<V>(): (d: Dict<V>)
    ensures d.Valid() && d.keys == [] && d.vals == map[]
  {
    Dict([], map[])
  }

  /** Storing twice under one key is storing the second value once. */
  lemma PutTwice<V>(d: Dict<V>, k: string, a: V, b: V)
    ensures d.Put(k, a).Put(k, b) == d.Put(k, b)
  {
    assert d.vals[k := a][k := b] == d.vals[k := b];
  }

  /** The sum of the integers stored under the keys `ks`; a key with no
      entry would add nothing, but every sum taken here is over keys that
      have one. */
  function SumInts(ks: seq<string>, m: map<string, int>): int
  {
    if ks == [] then 0
    else
      var k := ks[|ks| - 1];
      SumInts(ks[..|ks| - 1], m) + (if k in m then m[k] else 0)
  }

  /** The sum of the reals stored under the keys `ks`, in the same way. */
  function SumReals(ks: seq<string>, m: map<string, real>): real
  {
    if ks == [] then 0.0
    else
      var k := ks[|ks| - 1];
      SumReals(ks[..|ks| - 1], m) + (if k in m then m[k] else 0.0)
  }

  /** Changing the value of a key that is not summed leaves the sum alone. */
  lemma {:induction false} SumIntsOther(ks: seq<string>, m: map<string, int>, k: string, v: int)
    requires k !in ks
    ensures SumInts(ks, m[k := v]) == SumInts(ks, m)
  {
    if ks != [] {
      SumIntsOther(ks[..|ks| - 1], m, k, v);
    }
  }

  /** Raising the value of a key listed once raises the sum by as much. */
  lemma {:induction false} SumIntsRaise(ks: seq<string>, m: map<string, int>, k: string, delta: int)
    requires Distinct(ks)
    requires k in ks && k in m
    ensures SumInts(ks, m[k := m[k] + delta]) == SumInts(ks, m) + delta
  {
    var init := ks[..|ks| - 1];
    if ks[|ks| - 1] == k {
      assert k !in init;
      SumIntsOther(init, m, k, m[k] + delta);
    } else {
      assert k in init;
      SumIntsRaise(init, m, k, delta);
    }
  }
}
