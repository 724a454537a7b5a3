/**
 * A JavaScript `Map`: a finite map that remembers the order in which its keys
 * were first inserted, which is the order `for ... of` visits them.
 */
module OrderedMaps {

  datatype OrderedMap<K(!new), V> = OrderedMap(keys: seq<K>, values: map<K, V>)
  {
    /** Every key appears once in the order, and the order lists exactly the map's keys. */
    ghost predicate Valid() {
      && Distinct(keys)
      && (forall k :: k in values <==> k in keys)
    }

    /** `map.has(k)`. */
    predicate Has(k: K) { k in values }

    /** `map.size`: the length of the insertion order. */
    function Size(): nat {
      |keys|
    }

    /** The size counts the distinct keys of the map. */
    lemma SizeCountsKeys()
      requires Valid()
      ensures Size() == |values.Keys|
    {
      DistinctCard(keys, values);
    }

    /** `map.set(k, v)`: a new key goes to the end; an existing key keeps its place. */
    function Set(k: K, v: V): (m: OrderedMap<K, V>)
      requires Valid()
      ensures m.Valid()
      ensures m.values == values[k := v]
      ensures k in values ==> m.keys == keys
      ensures k !in values ==> m.keys == keys + [k]
    {
      if k in values then OrderedMap(keys, values[k := v])
      else OrderedMap(keys + [k], values[k := v])
    }

    /** `map.delete(k)`: the other keys keep their relative order. */
    function Delete(k: K): (m: OrderedMap<K, V>)
      requires Valid()
      ensures m.Valid()
      ensures m.values == values - {k}
      ensures m.keys == Without(keys, k) && OrderKept(m.keys, keys)
      ensures forall j :: j in m.keys <==> j in keys && j != k
      ensures |m.keys| <= |keys|
    {
      WithoutKeepsOrder(keys, k);
      OrderedMap(Without(keys, k), values - {k})
    }
  }

  /** b is a with more keys added at the end; a's entries are kept. */
  ghost predicate Extends<K(!new), V>(a: OrderedMap<K, V>, b: OrderedMap<K, V>) {
    && a.keys <= b.keys
    && forall k :: k in a.values ==> k in b.values && b.values[k] == a.values[k]
  }

  lemma ExtendsTrans<K(!new), V>(a: OrderedMap<K, V>, b: OrderedMap<K, V>, c: OrderedMap<K, V>)
    requires Extends(a, b) && Extends(b, c)
    ensures Extends(a, c)
  {}

  /** Setting a new key extends the map. */
  lemma ExtendsSet<K(!new), V>(a: OrderedMap<K, V>, k: K, v: V)
    requires a.Valid() && k !in a.values
    ensures Extends(a, a.Set(k, v))
  {}

  function Empty<K(!new), V>(): (m: OrderedMap<K, V>)
    ensures m.Valid() && m.keys == [] && m.values == map[]
  {
    OrderedMap([], map[])
  }

  /** The sequence with every occurrence of `k` removed. */
  function Without<K(==,!new)>(s: seq<K>, k: K): (r: seq<K>)
    ensures forall j :: j in r <==> j in s && j != k
    ensures |r| <= |s|
    ensures Distinct(s) ==> Distinct(r)
  {
    if s == [] then []
    else if s[0] == k then Without(s[1..], k)
    else
      assert Distinct(s) ==> s[0] !in s[1..] && Distinct(s[1..]) by {
        if Distinct(s) {
          assert forall i :: 0 <= i < |s[1..]| ==> s[1..][i] == s[i + 1];
        }
      }
      [s[0]] + Without(s[1..], k)
  }

  /** Any two elements of r appear in s in the same order. */
  ghost predicate OrderKept<K>(r: seq<K>, s: seq<K>) {
    forall i, j :: 0 <= i < j < |r| ==> Precedes(s, r[i], r[j])
  }

  /** x occurs in s before some occurrence of y. */
  ghost predicate Precedes<K>(s: seq<K>, x: K, y: K) {
    exists i, j :: 0 <= i < j < |s| && s[i] == x && s[j] == y
  }

  /** Removing a key keeps the other keys in their relative order. */
  lemma {:induction false} WithoutKeepsOrder<K(!new)>(s: seq<K>, k: K)
    ensures OrderKept(Without(s, k), s)
  {
    if s != [] {
      var r, t := Without(s, k), Without(s[1..], k);
      WithoutKeepsOrder(s[1..], k);
      forall i, j | 0 <= i < j < |r|
        ensures Precedes(s, r[i], r[j])
      {
        if s[0] == k {
          assert r == t;
          assert Precedes(s[1..], t[i], t[j]);
          var a, b :| 0 <= a < b < |s[1..]| && s[1..][a] == t[i] && s[1..][b] == t[j];
          assert s[a + 1] == r[i] && s[b + 1] == r[j];
        } else if i == 0 {
          assert r == [s[0]] + t && r[j] == t[j - 1] && t[j - 1] in t;
          assert t[j - 1] in s[1..];
          var b :| 0 <= b < |s[1..]| && s[1..][b] == t[j - 1];
          assert s[0] == r[0] && s[b + 1] == r[j];
        } else {
          assert r == [s[0]] + t && r[i] == t[i - 1] && r[j] == t[j - 1];
          assert Precedes(s[1..], t[i - 1], t[j - 1]);
          var a, b :| 0 <= a < b < |s[1..]| && s[1..][a] == t[i - 1] && s[1..][b] == t[j - 1];
          assert s[a + 1] == r[i] && s[b + 1] == r[j];
        }
      }
    }
  }

  ghost predicate Distinct<K>(s: seq<K>) {
    forall i, j :: 0 <= i < j < |s| ==> s[i] != s[j]
  }

  lemma {:induction false} DistinctCard<K(!new), V>(s: seq<K>, m: map<K, V>)
    requires Distinct(s)
    requires forall k :: k in m <==> k in s
    ensures |s| == |m.Keys|
  {
    if s != [] {
      var k := s[|s| - 1];
      DropLast(s, m);
      DistinctCard(s[..|s| - 1], m - {k});
      assert m.Keys == (m - {k}).Keys + {k};
    }
  }

  /** Dropping the last key of the order and of the map keeps the two in step. */
  lemma DropLast<K(!new), V>(s: seq<K>, m: map<K, V>)
    requires Distinct(s) && s != []
    requires forall k :: k in m <==> k in s
    ensures Distinct(s[..|s| - 1])
    ensures forall j :: j in s[..|s| - 1] <==> j in m && j != s[|s| - 1]
  {
    var k := s[|s| - 1];
    var s' := s[..|s| - 1];
    forall j ensures j in s' <==> j in m && j != k {
      if j in s' {
        var i :| 0 <= i < |s'| && s'[i] == j;
        assert s[i] == j;
      }
      if j in s && j != k {
        var i :| 0 <= i < |s| && s[i] == j;
        assert s'[i] == j;
      }
    }
  }
}
