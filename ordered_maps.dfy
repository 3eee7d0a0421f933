/** JavaScript's `Map`: a dictionary that iterates its keys in insertion order.
    `set` on a present key replaces the value and keeps the key's position;
    `delete` drops the key from the order. */
module OrderedMaps {

  /** No element occurs twice. */
  ghost predicate Distinct<K>(s: seq<K>) {
    forall i, j :: 0 <= i < j < |s| ==> s[i] != s[j]
  }

  /** `s` without any occurrence of `x`, the rest in order (`filter(y => y !== x)`). */
  function Remove<K(==)>(s: seq<K>, x: K): (r: seq<K>)
    ensures |r| <= |s|
    ensures x !in r
    ensures forall y :: y in r ==> y in s
  {
    if s == [] then [] else Remove(s[..|s| - 1], x) + (if s[|s| - 1] == x then [] else [s[|s| - 1]])
  }

  lemma {:induction false} RemoveMembers<K>(s: seq<K>, x: K)
    ensures forall y :: y in Remove(s, x) <==> y in s && y != x
  {
    if s != [] {
      RemoveMembers(s[..|s| - 1], x);
      assert s == s[..|s| - 1] + [s[|s| - 1]];
    }
  }

  lemma {:induction false} RemoveAbsent<K>(s: seq<K>, x: K)
    requires x !in s
    ensures Remove(s, x) == s
  {
    if s != [] {
      RemoveAbsent(s[..|s| - 1], x);
      assert s == s[..|s| - 1] + [s[|s| - 1]];
    }
  }

  lemma {:induction false} RemoveOnly<K>(s: seq<K>, x: K)
    requires forall y :: y in s ==> y == x
    ensures Remove(s, x) == []
  {
    if s != [] {
      var init := s[..|s| - 1];
      assert s == init + [s[|s| - 1]];
      assert forall y :: y in init ==> y in s;
      RemoveOnly(init, x);
      assert s[|s| - 1] in s;
    }
  }

  lemma {:induction false} RemoveAppend<K>(a: seq<K>, b: seq<K>, x: K)
    ensures Remove(a + b, x) == Remove(a, x) + Remove(b, x)
  {
    if b != [] {
      assert (a + b)[..|a + b| - 1] == a + b[..|b| - 1];
      RemoveAppend(a, b[..|b| - 1], x);
    } else {
      assert a + b == a;
    }
  }

  lemma {:induction false} RemoveDistinct<K>(s: seq<K>, x: K)
    requires Distinct(s)
    ensures Distinct(Remove(s, x))
  {
    if s != [] {
      var init := s[..|s| - 1];
      RemoveDistinct(init, x);
      RemoveMembers(init, x);
      assert s[|s| - 1] !in init;
    }
  }

  /** Removing one occurrence of `x` from a sequence where it occurs exactly once. */
  lemma RemoveSplit<K>(a: seq<K>, x: K, b: seq<K>)
    requires x !in a && x !in b
    ensures Remove(a + [x] + b, x) == a + b
  {
    var one: seq<K> := [x];
    var front := a + one;
    assert Remove(front, x) == a by {
      assert Remove(one, x) == [] by {
        assert one[..0] == [];
      }
      RemoveAbsent(a, x);
      RemoveAppend(a, one, x);
      assert a + [] == a;
    }
    assert Remove(b, x) == b by {
      RemoveAbsent(b, x);
    }
    calc {
      Remove(a + [x] + b, x);
      { assert a + [x] + b == front + b; }
      Remove(front + b, x);
      { RemoveAppend(front, b, x); }
      a + b;
    }
  }

  datatype OrderedMap<K(!new), V> = OrderedMap(keys: seq<K>, entries: map<K, V>) {

    /** The key order lists every key exactly once. */
    ghost predicate Valid() {
      && Distinct(keys)
      && (forall k :: k in entries <==> k in keys)
    }

    /** `map.set(k, v)`. */
    function Set(k: K, v: V): (r: OrderedMap<K, V>)
      requires Valid()
      ensures r.Valid()
      ensures r.entries == entries[k := v]
      ensures k in entries ==> r.keys == keys
      ensures k !in entries ==> r.keys == keys + [k]
    {
      if k in entries then OrderedMap(keys, entries[k := v])
      else OrderedMap(keys + [k], entries[k := v])
    }

    /** `map.delete(k)`. */
    function Delete(k: K): (r: OrderedMap<K, V>)
      requires Valid()
      ensures r.Valid()
      ensures r.entries == entries - {k}
      ensures r.keys == Remove(keys, k)
    {
      RemoveMembers(keys, k);
      RemoveDistinct(keys, k);
      OrderedMap(Remove(keys, k), entries - {k})
    }
  }

  function Empty<K(!new), V>(): (r: OrderedMap<K, V>)
    ensures r.Valid() && r.keys == [] && r.entries == map[]
  {
    OrderedMap([], map[])
  }
}
