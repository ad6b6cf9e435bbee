/** Python's insertion-ordered `dict`: a key order plus a map. Assigning to a
    key that is already present changes its value and keeps its position. */
module Dicts {

  datatype Dict<K, V> = Dict(keys: seq<K>, items: map<K, V>)

  predicate Distinct<T(==)>(s: seq<T>) {
    forall i, j :: 0 <= i < j < |s| ==> s[i] != s[j]
  }

  /** The key order lists every key of the map exactly once. */
  ghost predicate Valid<K(!new), V>(d: Dict<K, V>) {
    && Distinct(d.keys)
    && (forall k :: k in d.items <==> k in d.keys)
  }

  function Empty<K(!new), V>(): (d: Dict<K, V>)
    ensures Valid(d) && d.keys == [] && d.items == map[]
  {
    Dict([], map[])
  }

  /** `d[k] = v`. */
  function Put<K(!new), V>(d: Dict<K, V>, k: K, v: V): (r: Dict<K, V>)
    ensures r.items == d.items[k := v]
    ensures r.keys == if k in d.items then d.keys else d.keys + [k]
    ensures Valid(d) ==> Valid(r)
  {
    if k in d.items then Dict(d.keys, d.items[k := v]) else Dict(d.keys + [k], d.items[k := v])
  }

  /** `d.get(k, default)`. */
  function GetOr<K, V>(d: Dict<K, V>, k: K, default: V): V {
    if k in d.items then d.items[k] else default
  }

  /** `d[k].append(x)` on a `defaultdict(list)`, which is also
      `d.setdefault(k, []).append(x)` on a plain dict. */
  function Append<K(!new), X>(d: Dict<K, seq<X>>, k: K, x: X): (r: Dict<K, seq<X>>)
    ensures r.keys == if k in d.items then d.keys else d.keys + [k]
    ensures forall u :: GetOr(r, u, []) == if u == k then GetOr(d, u, []) + [x] else GetOr(d, u, [])
    ensures Valid(d) ==> Valid(r)
  {
    Put(d, k, GetOr(d, k, []) + [x])
  }

  /** `keys` followed by the elements of `s` not seen before, each once, in
      order of first occurrence: the key order left by inserting `s` in turn. */
  function Extend<T(==)>(keys: seq<T>, s: seq<T>): seq<T>
  {
    if s == [] then keys
    else
      var e := Extend(keys, s[..|s| - 1]);
      if s[|s| - 1] in e then e else e + [s[|s| - 1]]
  }

  /** The distinct elements of `s` in order of first occurrence. */
  function Dedup<T(==)>(s: seq<T>): seq<T> {
    Extend([], s)
  }

  lemma {:induction false} ExtendMembers<T>(keys: seq<T>, s: seq<T>)
    ensures forall x :: x in Extend(keys, s) <==> x in keys || x in s
  {
    if s != [] {
      ExtendMembers(keys, s[..|s| - 1]);
      assert s == s[..|s| - 1] + [s[|s| - 1]];
    }
  }

  lemma {:induction false} ExtendDistinct<T>(keys: seq<T>, s: seq<T>)
    requires Distinct(keys)
    ensures Distinct(Extend(keys, s))
  {
    if s != [] {
      ExtendDistinct(keys, s[..|s| - 1]);
    }
  }

  /** Inserting `a` and then `b` leaves the key order of inserting `a + b`. */
  lemma {:induction false} ExtendConcat<T>(keys: seq<T>, a: seq<T>, b: seq<T>)
    ensures Extend(Extend(keys, a), b) == Extend(keys, a + b)
  {
    if b == [] {
      assert a + b == a;
    } else {
      ExtendConcat(keys, a, b[..|b| - 1]);
      assert (a + b)[..|a + b| - 1] == a + b[..|b| - 1];
      assert (a + b)[|a + b| - 1] == b[|b| - 1];
    }
  }

  /** A duplicate-free sequence has as many elements as its set. */
  lemma {:induction false} DistinctCardinality<T>(s: seq<T>)
    requires Distinct(s)
    ensures |set x | x in s| == |s|
  {
    if s != [] {
      var init := s[..|s| - 1];
      DistinctCardinality(init);
      assert (set x | x in s) == (set x | x in init) + {s[|s| - 1]};
    }
  }

  /** `Dedup` keeps exactly one copy of every element. */
  lemma DedupSpec<T(!new)>(s: seq<T>)
    ensures Distinct(Dedup(s))
    ensures forall x :: x in Dedup(s) <==> x in s
    ensures |Dedup(s)| == |set x | x in s|
  {
    ExtendDistinct([], s);
    ExtendMembers([], s);
    var d := Dedup(s);
    assert d == Extend([], s);
    assert forall x :: x in d <==> x in s;
    DistinctCardinality(d);
    var inD := set x | x in d;
    var inS := set x | x in s;
    assert forall x :: x in inD <==> x in inS;
    assert inD == inS;
  }

  /** The keys of a list of key/value pairs, in order. */
  function Firsts<K, V>(pairs: seq<(K, V)>): (ks: seq<K>)
    ensures |ks| == |pairs|
    ensures forall i :: 0 <= i < |pairs| ==> ks[i] == pairs[i].0
  {
    seq(|pairs|, i requires 0 <= i < |pairs| => pairs[i].0)
  }

  /** `for k, v in pairs: d[k] = v`. */
  function PutAll<K(!new), V>(d: Dict<K, V>, pairs: seq<(K, V)>): Dict<K, V>
  {
    if pairs == [] then d
    else
      var last := pairs[|pairs| - 1];
      Put(PutAll(d, pairs[..|pairs| - 1]), last.0, last.1)
  }

  /** `d.items()`: the pairs in key order. */
  function Items<K(!new), V>(d: Dict<K, V>): (ps: seq<(K, V)>)
    requires Valid(d)
    ensures |ps| == |d.keys|
    ensures forall i :: 0 <= i < |ps| ==> ps[i] == (d.keys[i], d.items[d.keys[i]])
  {
    seq(|d.keys|, i requires 0 <= i < |d.keys| && Valid(d) => (d.keys[i], d.items[d.keys[i]]))
  }

  /** Assigning pairs in order: keys keep the position of their first
      assignment, and each key ends with the value of its last assignment. */
  lemma {:induction false} PutAllSpec<K(!new), V>(d: Dict<K, V>, pairs: seq<(K, V)>)
    requires Valid(d)
    ensures Valid(PutAll(d, pairs))
    ensures PutAll(d, pairs).keys == Extend(d.keys, Firsts(pairs))
    ensures forall k :: k in PutAll(d, pairs).items <==> k in d.items || k in Firsts(pairs)
    ensures forall i :: 0 <= i < |pairs| && (forall j :: i < j < |pairs| ==> pairs[j].0 != pairs[i].0) ==>
      PutAll(d, pairs).items[pairs[i].0] == pairs[i].1
  {
    if pairs != [] {
      var init := pairs[..|pairs| - 1];
      var last := pairs[|pairs| - 1];
      PutAllSpec(d, init);
      assert Firsts(init) == Firsts(pairs)[..|pairs| - 1];
      assert Firsts(pairs) == Firsts(init) + [last.0];
      var r := PutAll(d, pairs);
      forall i | 0 <= i < |pairs| && (forall j :: i < j < |pairs| ==> pairs[j].0 != pairs[i].0)
        ensures r.items[pairs[i].0] == pairs[i].1
      {
        if i < |pairs| - 1 {
          assert pairs[i] == init[i];
          assert forall j :: i < j < |init| ==> init[j].0 != init[i].0 by {
            forall j | i < j < |init| ensures init[j].0 != init[i].0 {
              assert init[j] == pairs[j];
            }
          }
        }
      }
    }
  }

  /** `d[k] = d.get(k, [])` before an append changes nothing. */
  lemma PutGetThenAppend<K(!new), X>(d: Dict<K, seq<X>>, k: K, x: X)
    ensures Append(Put(d, k, GetOr(d, k, [])), k, x) == Append(d, k, x)
  {
    if k in d.items {
      assert d.items[k := d.items[k]] == d.items;
    } else {
      assert [] + [x] == [x];
      assert d.items[k := []][k := [x]] == d.items[k := [x]];
    }
  }
}
