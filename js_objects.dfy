/**
 * The two behaviours of JavaScript plain objects that the symbol reader and
 * the profiler rely on: assigning a property replaces the value assigned
 * before, and `for ... in` visits the keys that are array indices first, in
 * ascending numeric order, then every other key in the order it was first
 * added.
 */
module JsObjects {
  import opened Wrappers
  import opened Numerals

  /** The object after assigning the pairs in order, starting from no properties. */
  function PutAll<K(==), V>(pairs: seq<(K, V)>): map<K, V> {
    if |pairs| == 0 then map[]
    else PutAll(pairs[..|pairs| - 1])[pairs[|pairs| - 1].0 := pairs[|pairs| - 1].1]
  }

  /** The pairs that f yields for xs, in order; an element for which f yields nothing contributes no pair. */
  function Collect<X, K, V>(xs: seq<X>, f: X -> Option<(K, V)>): seq<(K, V)> {
    if |xs| == 0 then []
    else Collect(xs[..|xs| - 1], f) + (if f(xs[|xs| - 1]).Some? then [f(xs[|xs| - 1]).value] else [])
  }

  /** Collecting one more element. */
  lemma CollectAppend<X, K, V>(xs: seq<X>, x: X, f: X -> Option<(K, V)>)
    ensures Collect(xs + [x], f) == Collect(xs, f) + (if f(x).Some? then [f(x).value] else [])
  {
    assert (xs + [x])[..|xs|] == xs;
  }

  /** Collecting an element that yields a pair assigns that pair last. */
  lemma CollectPut<X, K(!new), V>(xs: seq<X>, x: X, f: X -> Option<(K, V)>, k: K, v: V)
    requires f(x) == Some((k, v))
    ensures PutAll(Collect(xs + [x], f)) == PutAll(Collect(xs, f))[k := v]
    ensures KeysInOrder(Collect(xs + [x], f))
      == if k in PutAll(Collect(xs, f)) then KeysInOrder(Collect(xs, f)) else KeysInOrder(Collect(xs, f)) + [k]
  {
    CollectAppend(xs, x, f);
    PutAllAppend(Collect(xs, f), k, v);
    KeysInOrderAppend(Collect(xs, f), k, v);
  }

  /** Collecting one more element of xs, which yields a pair, assigns that pair last. */
  lemma CollectNextPut<X, K(!new), V>(xs: seq<X>, i: int, f: X -> Option<(K, V)>, k: K, v: V)
    requires 0 <= i < |xs| && f(xs[i]) == Some((k, v))
    ensures PutAll(Collect(xs[..i + 1], f)) == PutAll(Collect(xs[..i], f))[k := v]
  {
    assert xs[..i + 1] == xs[..i] + [xs[i]];
    CollectPut(xs[..i], xs[i], f, k, v);
  }

  /** Collecting an element that yields nothing changes nothing. */
  lemma CollectSkip<X, K, V>(xs: seq<X>, x: X, f: X -> Option<(K, V)>)
    requires f(x).None?
    ensures Collect(xs + [x], f) == Collect(xs, f)
  {
    CollectAppend(xs, x, f);
  }

  /** Collecting one more element of xs, which yields nothing, changes nothing. */
  lemma CollectNextSkip<X, K, V>(xs: seq<X>, i: int, f: X -> Option<(K, V)>)
    requires 0 <= i < |xs| && f(xs[i]).None?
    ensures Collect(xs[..i + 1], f) == Collect(xs[..i], f)
  {
    assert xs[..i + 1] == xs[..i] + [xs[i]];
    CollectSkip(xs[..i], xs[i], f);
  }

  /** f yields a pair for key k from x. */
  predicate Assigns<X, K(==), V>(f: X -> Option<(K, V)>, x: X, k: K) {
    f(x).Some? && f(x).value.0 == k
  }

  /** The position of the last element of xs from which f yields a pair for key k, or -1 when there is none. */
  function LastWith<X, K(==), V>(xs: seq<X>, f: X -> Option<(K, V)>, k: K): (j: int)
    ensures -1 <= j < |xs|
    ensures j >= 0 ==> Assigns(f, xs[j], k) && forall i :: j < i < |xs| ==> !Assigns(f, xs[i], k)
    ensures j < 0 ==> forall i :: 0 <= i < |xs| ==> !Assigns(f, xs[i], k)
  {
    if |xs| == 0 then -1
    else if Assigns(f, xs[|xs| - 1], k) then |xs| - 1
    else LastWith(xs[..|xs| - 1], f, k)
  }

  /**
   * Assigning the collected pairs in order defines a key exactly when some
   * element yields a pair for it, and the key holds the value from the last
   * such element.
   */
  lemma {:induction false} CollectLastWins<X, K, V>(xs: seq<X>, f: X -> Option<(K, V)>, k: K)
    ensures k in PutAll(Collect(xs, f)) <==> LastWith(xs, f, k) >= 0
    ensures k in PutAll(Collect(xs, f)) ==> PutAll(Collect(xs, f))[k] == f(xs[LastWith(xs, f, k)]).value.1
    decreases |xs|
  {
    if |xs| > 0 {
      var prefix := xs[..|xs| - 1];
      var x := xs[|xs| - 1];
      assert xs == prefix + [x];
      CollectLastWins(prefix, f, k);
      if f(x).Some? {
        PutAllAppend(Collect(prefix, f), f(x).value.0, f(x).value.1);
        assert Collect(xs, f) == Collect(prefix, f) + [f(x).value];
      } else {
        assert Collect(xs, f) == Collect(prefix, f);
      }
      if !Assigns(f, x, k) {
        assert LastWith(xs, f, k) == LastWith(prefix, f, k);
      }
    }
  }

  /** Assigning one more pair. */
  lemma PutAllAppend<K, V>(pairs: seq<(K, V)>, k: K, v: V)
    ensures PutAll(pairs + [(k, v)]) == PutAll(pairs)[k := v]
  {
    assert (pairs + [(k, v)])[..|pairs|] == pairs;
  }

  /** The keys of the object in the order they were first assigned. */
  function KeysInOrder<K(==,!new), V>(pairs: seq<(K, V)>): (keys: seq<K>)
    ensures forall i, j :: 0 <= i < j < |keys| ==> keys[i] != keys[j]
    ensures forall k :: k in keys <==> k in PutAll(pairs)
  {
    if |pairs| == 0 then []
    else
      var earlier := KeysInOrder(pairs[..|pairs| - 1]);
      if pairs[|pairs| - 1].0 in earlier then earlier else earlier + [pairs[|pairs| - 1].0]
  }

  /** Assigning one more pair adds its key at the end when the key is new. */
  lemma KeysInOrderAppend<K(!new), V>(pairs: seq<(K, V)>, k: K, v: V)
    ensures KeysInOrder(pairs + [(k, v)]) == if k in KeysInOrder(pairs) then KeysInOrder(pairs) else KeysInOrder(pairs) + [k]
  {
    assert (pairs + [(k, v)])[..|pairs|] == pairs;
  }

  /**
   * A key that is an array index: the canonical decimal form (no sign, no
   * leading zero) of an integer below 2^32 - 1.
   */
  predicate IsArrayIndex(key: string) {
    |key| > 0 && (forall i :: 0 <= i < |key| ==> IsDigit(key[i], 10))
    && (key[0] != '0' || |key| == 1) && DigitsValue(key, 10) < 0xFFFF_FFFF
  }

  /** The numeric value of a key, used to order the array indices. */
  function IndexValue(key: string): int {
    DigitsValue(key, 10)
  }

  /** The keys (named by `name`) whose names are array indices, in their original order. */
  function IndexKeys<K>(keys: seq<K>, name: K -> string): (r: seq<K>)
    ensures forall i :: 0 <= i < |r| ==> IsArrayIndex(name(r[i]))
  {
    if |keys| == 0 then []
    else if IsArrayIndex(name(keys[0])) then [keys[0]] + IndexKeys(keys[1..], name)
    else IndexKeys(keys[1..], name)
  }

  /** The keys whose names are not array indices, in their original order. */
  function OtherKeys<K>(keys: seq<K>, name: K -> string): (r: seq<K>)
    ensures forall i :: 0 <= i < |r| ==> !IsArrayIndex(name(r[i]))
  {
    if |keys| == 0 then []
    else if IsArrayIndex(name(keys[0])) then OtherKeys(keys[1..], name)
    else [keys[0]] + OtherKeys(keys[1..], name)
  }

  /** The two filters split the keys between them. */
  lemma {:induction false} FiltersPartition<K>(keys: seq<K>, name: K -> string)
    ensures multiset(IndexKeys(keys, name)) + multiset(OtherKeys(keys, name)) == multiset(keys)
    decreases |keys|
  {
    if |keys| > 0 {
      var first, rest := keys[0], keys[1..];
      FiltersPartition(rest, name);
      assert keys == [first] + rest;
      assert multiset(keys) == multiset{first} + multiset(rest);
      if IsArrayIndex(name(first)) {
        assert IndexKeys(keys, name) == [first] + IndexKeys(rest, name);
        assert OtherKeys(keys, name) == OtherKeys(rest, name);
      } else {
        assert IndexKeys(keys, name) == IndexKeys(rest, name);
        assert OtherKeys(keys, name) == [first] + OtherKeys(rest, name);
      }
    }
  }

  /** The keys' names in ascending numeric order. */
  predicate Ascending<K>(keys: seq<K>, name: K -> string) {
    forall i, j :: 0 <= i < j < |keys| ==> IndexValue(name(keys[i])) <= IndexValue(name(keys[j]))
  }

  /** k placed into an ascending sequence before the first key that is not below it. */
  function Insert<K>(k: K, sorted: seq<K>, name: K -> string): (r: seq<K>)
    ensures multiset(r) == multiset(sorted) + multiset{k}
  {
    if |sorted| == 0 then [k]
    else if IndexValue(name(k)) <= IndexValue(name(sorted[0])) then [k] + sorted
    else
      assert sorted == [sorted[0]] + sorted[1..];
      [sorted[0]] + Insert(k, sorted[1..], name)
  }

  /** Inserting into an ascending sequence keeps it ascending. */
  lemma {:induction false} InsertAscending<K>(k: K, sorted: seq<K>, name: K -> string)
    requires Ascending(sorted, name)
    ensures Ascending(Insert(k, sorted, name), name)
    decreases |sorted|
  {
    if |sorted| > 0 && IndexValue(name(k)) > IndexValue(name(sorted[0])) {
      var first := sorted[0];
      var rest := Insert(k, sorted[1..], name);
      InsertAscending(k, sorted[1..], name);
      InsertBounded(k, sorted[1..], name, IndexValue(name(first)));
      ConsAscending(first, rest, name);
    } else if |sorted| > 0 {
      ConsAscending(k, sorted, name);
    }
  }

  /** A key no greater than any key of an ascending sequence, put in front of it. */
  lemma ConsAscending<K>(first: K, rest: seq<K>, name: K -> string)
    requires Ascending(rest, name)
    requires forall x :: x in rest ==> IndexValue(name(first)) <= IndexValue(name(x))
    ensures Ascending([first] + rest, name)
  {
    var r := [first] + rest;
    forall i, j | 0 <= i < j < |r|
      ensures IndexValue(name(r[i])) <= IndexValue(name(r[j]))
    {
      assert r[j] == rest[j - 1];
      if i > 0 {
        assert r[i] == rest[i - 1];
      }
    }
  }

  /** Every key of the insertion is at least a bound that k and every key of s are at least. */
  lemma InsertBounded<K>(k: K, s: seq<K>, name: K -> string, bound: int)
    requires bound <= IndexValue(name(k))
    requires forall i :: 0 <= i < |s| ==> bound <= IndexValue(name(s[i]))
    ensures forall x :: x in Insert(k, s, name) ==> bound <= IndexValue(name(x))
  {
    var r := Insert(k, s, name);
    forall x | x in r
      ensures bound <= IndexValue(name(x))
    {
      assert x in multiset(r);
      if x != k {
        assert x in multiset(s);
      }
    }
  }

  /** The keys in ascending numeric order of their names. */
  function SortIndexKeys<K>(keys: seq<K>, name: K -> string): (r: seq<K>)
    ensures multiset(r) == multiset(keys)
    ensures Ascending(r, name)
  {
    if |keys| == 0 then []
    else
      assert keys == [keys[0]] + keys[1..];
      var rest := SortIndexKeys(keys[1..], name);
      assert Ascending(Insert(keys[0], rest, name), name) by {
        InsertAscending(keys[0], rest, name);
      }
      Insert(keys[0], rest, name)
  }

  /**
   * The order in which `for ... in` visits the keys of an object whose keys,
   * named by `name`, were first added in the order `keys`.
   */
  function Enumerate<K>(keys: seq<K>, name: K -> string): seq<K> {
    SortIndexKeys(IndexKeys(keys, name), name) + OtherKeys(keys, name)
  }

  /**
   * The enumeration visits every key exactly as often as it was added: the
   * array indices first, in ascending order, then the other keys.
   */
  lemma EnumerateOrder<K>(keys: seq<K>, name: K -> string)
    ensures var r := Enumerate(keys, name); var n := |IndexKeys(keys, name)|;
      multiset(r) == multiset(keys)
      && n <= |r|
      && (forall i :: 0 <= i < n ==> IsArrayIndex(name(r[i])))
      && (forall i :: n <= i < |r| ==> !IsArrayIndex(name(r[i])))
      && (forall i, j :: 0 <= i < j < n ==> IndexValue(name(r[i])) <= IndexValue(name(r[j])))
      && r[n..] == OtherKeys(keys, name)
  {
    FiltersPartition(keys, name);
    var sorted := SortIndexKeys(IndexKeys(keys, name), name);
    assert |sorted| == |multiset(sorted)| == |IndexKeys(keys, name)|;
    var r := Enumerate(keys, name);
    forall i | 0 <= i < |sorted|
      ensures IsArrayIndex(name(r[i]))
    {
      assert r[i] == sorted[i];
      assert sorted[i] in multiset(IndexKeys(keys, name));
    }
  }

  /** The name of a string key is the key itself. */
  function Id(key: string): string {
    key
  }
}
