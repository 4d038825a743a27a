/** Counting a sequence by key, the way a `forEach` over rows fills a
    `Record<string, number>`: keys appear in order of first occurrence and
    each key maps to the number of rows carrying it. A row whose key is
    `None` is not counted. */
module Tally {
  import opened Common

  /** The keys of the rows that have one, in row order. */
  function Keys<T, K>(s: seq<T>, key: T -> Option<K>): (r: seq<K>)
    ensures |r| <= |s|
  {
    if s == [] then []
    else
      var x := s[|s| - 1];
      var r := Keys(s[..|s| - 1], key);
      if key(x).Some? then r + [key(x).value] else r
  }

  /** The keys in order of first occurrence, without repetition. */
  function KeyOrder<T, K(==,!new)>(s: seq<T>, key: T -> Option<K>): (r: seq<K>)
    ensures Distinct(r)
    ensures forall k :: k in r <==> k in Keys(s, key)
  {
    if s == [] then []
    else
      var x := s[|s| - 1];
      var d := KeyOrder(s[..|s| - 1], key);
      if key(x).Some? && key(x).value !in d then d + [key(x).value] else d
  }

  /** Number of rows whose key is `k`. */
  function CountKey<T, K(==)>(s: seq<T>, key: T -> Option<K>, k: K): (n: nat)
    ensures n <= |s|
  {
    if s == [] then 0
    else CountKey(s[..|s| - 1], key, k) + (if key(s[|s| - 1]) == Some(k) then 1 else 0)
  }

  /** Number of rows that have a key at all. */
  function CountKeyed<T, K>(s: seq<T>, key: T -> Option<K>): (n: nat)
    ensures n <= |s|
  {
    if s == [] then 0
    else CountKeyed(s[..|s| - 1], key) + (if key(s[|s| - 1]).Some? then 1 else 0)
  }

  /** The first row carrying key `k` (the one that created the dictionary entry). */
  function FirstWith<T, K(==)>(s: seq<T>, key: T -> Option<K>, k: K): (x: T)
    requires k in Keys(s, key)
    ensures key(x) == Some(k)
  {
    var p := s[..|s| - 1];
    if k in Keys(p, key) then FirstWith(p, key, k) else s[|s| - 1]
  }

  /** Sum of the counts of the listed keys. */
  function SumCounts<T, K(==)>(ks: seq<K>, s: seq<T>, key: T -> Option<K>): nat {
    if ks == [] then 0 else SumCounts(ks[..|ks| - 1], s, key) + CountKey(s, key, ks[|ks| - 1])
  }

  /** Number of positions of `ks` holding `k`. */
  function Occurrences<K(==)>(ks: seq<K>, k: K): nat {
    if ks == [] then 0 else Occurrences(ks[..|ks| - 1], k) + (if ks[|ks| - 1] == k then 1 else 0)
  }

  lemma {:induction false} OccurrencesDistinct<K>(ks: seq<K>, k: K)
    requires Distinct(ks)
    ensures Occurrences(ks, k) == if k in ks then 1 else 0
  {
    if ks != [] {
      var p := ks[..|ks| - 1];
      OccurrencesDistinct(p, k);
      assert ks == p + [ks[|ks| - 1]];
      if ks[|ks| - 1] == k {
        assert k !in p;
      }
    }
  }

  lemma {:induction false} SumCountsSnoc<T, K>(ks: seq<K>, p: seq<T>, x: T, key: T -> Option<K>)
    ensures SumCounts(ks, p + [x], key) ==
            SumCounts(ks, p, key) + (if key(x).Some? then Occurrences(ks, key(x).value) else 0)
  {
    assert (p + [x])[..|p + [x]| - 1] == p;
    if ks != [] {
      SumCountsSnoc(ks[..|ks| - 1], p, x, key);
    }
  }

  lemma {:induction false} KeysMember<T, K>(s: seq<T>, key: T -> Option<K>, k: K)
    ensures k in Keys(s, key) <==> CountKey(s, key, k) > 0
  {
    if s != [] {
      KeysMember(s[..|s| - 1], key, k);
    }
  }

  /** Every keyed row is counted under exactly one key of the key order, so the
      counts over the key order add up to the number of keyed rows. */
  lemma {:induction false} SumOverKeyOrder<T, K(!new)>(s: seq<T>, key: T -> Option<K>)
    ensures SumCounts(KeyOrder(s, key), s, key) == CountKeyed(s, key)
  {
    if s == [] {
    } else {
      var p := s[..|s| - 1];
      var x := s[|s| - 1];
      assert s == p + [x];
      SumOverKeyOrder(p, key);
      var d := KeyOrder(p, key);
      SumCountsSnoc(d, p, x, key);
      if key(x).Some? {
        var k := key(x).value;
        var ks := Keys(s, key);
        assert ks == Keys(p, key) + [k];
        assert ks[..|ks| - 1] == Keys(p, key);
        OccurrencesDistinct(d, k);
        if k !in d {
          assert KeyOrder(s, key) == d + [k];
          assert (d + [k])[..|d + [k]| - 1] == d;
          SumCountsSnoc(d, p, x, key);
          KeysMember(p, key, k);
        } else {
          assert KeyOrder(s, key) == d;
        }
      } else {
        assert Keys(s, key) == Keys(p, key);
      }
    }
  }

  /** Rows with two different keys are counted apart, so together they are at most all rows. */
  lemma {:induction false} TwoKeysBounded<T, K>(s: seq<T>, key: T -> Option<K>, a: K, b: K)
    requires a != b
    ensures CountKey(s, key, a) + CountKey(s, key, b) <= CountKeyed(s, key)
  {
    if s != [] {
      TwoKeysBounded(s[..|s| - 1], key, a, b);
    }
  }

  /** When every row has a key, every row is counted. */
  lemma {:induction false} CountKeyedAll<T, K>(s: seq<T>, key: T -> Option<K>)
    requires forall i :: 0 <= i < |s| ==> key(s[i]).Some?
    ensures CountKeyed(s, key) == |s|
  {
    if s != [] {
      CountKeyedAll(s[..|s| - 1], key);
    }
  }

  /** One more row: the key order grows by the row's key when that key is new. */
  lemma KeyOrderSnoc<T, K(!new)>(p: seq<T>, x: T, key: T -> Option<K>)
    ensures KeyOrder(p + [x], key) ==
            if key(x).Some? && key(x).value !in KeyOrder(p, key) then KeyOrder(p, key) + [key(x).value]
            else KeyOrder(p, key)
  {
    var s := p + [x];
    assert s[..|s| - 1] == p;
    var ks := Keys(s, key);
    if key(x).Some? {
      assert ks[..|ks| - 1] == Keys(p, key);
    }
  }

  /** One more row: only the count of its own key goes up. */
  lemma CountKeySnoc<T, K>(p: seq<T>, x: T, key: T -> Option<K>, k: K)
    ensures CountKey(p + [x], key, k) == CountKey(p, key, k) + (if key(x) == Some(k) then 1 else 0)
  {
    assert (p + [x])[..|p|] == p;
  }

  /** One more row: the first row of every old key stays, and a new key's first row is this one. */
  lemma FirstWithSnoc<T, K>(p: seq<T>, x: T, key: T -> Option<K>, k: K)
    requires k in Keys(p, key) || key(x) == Some(k)
    ensures k in Keys(p + [x], key)
    ensures FirstWith(p + [x], key, k) == if k in Keys(p, key) then FirstWith(p, key, k) else x
  {
    assert (p + [x])[..|p|] == p;
  }

  lemma CountKeyedSnoc<T, K>(p: seq<T>, x: T, key: T -> Option<K>)
    ensures CountKeyed(p + [x], key) == CountKeyed(p, key) + (if key(x).Some? then 1 else 0)
  {
    assert (p + [x])[..|p|] == p;
  }

  /** When every row's key is one of the distinct keys `ks`, the counts over
      `ks` add up to the number of rows. */
  lemma {:induction false} SumCountsCovering<T, K>(ks: seq<K>, s: seq<T>, key: T -> Option<K>)
    requires Distinct(ks)
    requires forall i :: 0 <= i < |s| ==> key(s[i]).Some? && key(s[i]).value in ks
    ensures SumCounts(ks, s, key) == |s|
  {
    if s == [] {
      SumCountsEmpty(ks, key);
    } else {
      var p := s[..|s| - 1];
      var x := s[|s| - 1];
      SumCountsCovering(ks, p, key);
      assert s == p + [x];
      SumCountsSnoc(ks, p, x, key);
      OccurrencesDistinct(ks, key(x).value);
    }
  }

  lemma {:induction false} SumCountsEmpty<T, K>(ks: seq<K>, key: T -> Option<K>)
    ensures SumCounts(ks, [], key) == 0
  {
    if ks != [] {
      SumCountsEmpty(ks[..|ks| - 1], key);
    }
  }
}
