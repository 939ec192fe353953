/** Group-by over a table kept as a sequence of rows: the rows of one group
    in table order, and the fact that the groups of a key column partition
    the table. */
module Groups {
  import opened Sorting

  /** `df[key == k]`: the rows whose key is `k`, in table order. */
  function Select<X(!new), K(==)>(s: seq<X>, key: X -> K, k: K): (r: seq<X>)
    ensures |r| <= |s|
    ensures forall x :: x in r <==> x in s && key(x) == k
  {
    if s == [] then []
    else Select(s[..|s| - 1], key, k) + (if key(s[|s| - 1]) == k then [s[|s| - 1]] else [])
  }

  lemma {:induction false} SelectSnoc<X(!new), K>(s: seq<X>, x: X, key: X -> K, k: K)
    ensures Select(s + [x], key, k) == Select(s, key, k) + (if key(x) == k then [x] else [])
  {
    assert (s + [x])[..|s|] == s;
  }

  /** Selecting distributes over concatenation, so a group keeps table order. */
  lemma {:induction false} SelectAppend<X(!new), K>(a: seq<X>, b: seq<X>, key: X -> K, k: K)
    ensures Select(a + b, key, k) == Select(a, key, k) + Select(b, key, k)
    decreases |b|
  {
    if b != [] {
      var b' := b[..|b| - 1];
      var x := b[|b| - 1];
      assert b == b' + [x];
      assert a + b == (a + b') + [x];
      SelectSnoc(a + b', x, key, k);
      SelectSnoc(b', x, key, k);
      SelectAppend(a, b', key, k);
    } else {
      assert a + b == a;
    }
  }

  /** Sum of the group sizes for the keys `ks`. */
  function CountAll<X(!new), K(==)>(s: seq<X>, key: X -> K, ks: seq<K>): nat {
    if ks == [] then 0 else |Select(s, key, ks[0])| + CountAll(s, key, ks[1..])
  }

  /** Number of positions of `ks` holding `k`. */
  function Occurrences<K(==)>(ks: seq<K>, k: K): nat {
    if ks == [] then 0 else (if ks[0] == k then 1 else 0) + Occurrences(ks[1..], k)
  }

  lemma {:induction false} OccurrencesDistinct<K>(ks: seq<K>, k: K)
    requires Distinct(ks)
    ensures Occurrences(ks, k) == if k in ks then 1 else 0
  {
    if ks != [] {
      assert Distinct(ks[1..]);
      OccurrencesDistinct(ks[1..], k);
      assert k in ks <==> k == ks[0] || k in ks[1..];
      if ks[0] == k {
        assert forall j :: 0 < j < |ks| ==> ks[j] != ks[0];
      }
    }
  }

  lemma {:induction false} CountAllSnoc<X(!new), K>(s: seq<X>, x: X, key: X -> K, ks: seq<K>)
    ensures CountAll(s + [x], key, ks) == CountAll(s, key, ks) + Occurrences(ks, key(x))
  {
    if ks != [] {
      SelectSnoc(s, x, key, ks[0]);
      CountAllSnoc(s, x, key, ks[1..]);
    }
  }

  /** The groups of distinct keys that cover every row partition the table:
      their sizes add up to the number of rows. */
  lemma {:induction false} PartitionSizes<X(!new), K>(s: seq<X>, key: X -> K, ks: seq<K>)
    requires Distinct(ks)
    requires forall x :: x in s ==> key(x) in ks
    ensures CountAll(s, key, ks) == |s|
    decreases |s|
  {
    if s == [] {
      assert CountAll(s, key, ks) == 0 by { CountAllEmpty(key, ks); }
    } else {
      var s' := s[..|s| - 1];
      var x := s[|s| - 1];
      assert s == s' + [x];
      assert x in s;
      PartitionSizes(s', key, ks);
      CountAllSnoc(s', x, key, ks);
      OccurrencesDistinct(ks, key(x));
    }
  }

  lemma {:induction false} CountAllEmpty<X(!new), K>(key: X -> K, ks: seq<K>)
    ensures CountAll([], key, ks) == 0
  {
    if ks != [] {
      CountAllEmpty(key, ks[1..]);
    }
  }
}
