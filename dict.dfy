/**
 * Python's `dict` (and `collections.Counter`, which is a `dict`) keeps its keys in
 * insertion order; assigning to an existing key replaces the value in place and
 * assigning to a new key appends it.  This module models such a dictionary as an
 * association list of (key, value) pairs in iteration order.
 */
module Dict {
  import opened Wrappers
  import Text

  function Keys<K, V>(d: seq<(K, V)>): seq<K> {
    seq(|d|, i requires 0 <= i < |d| => d[i].0)
  }

  lemma KeysCons<K, V>(d: seq<(K, V)>)
    requires d != []
    ensures Keys(d) == [d[0].0] + Keys(d[1..])
  {
  }

  predicate Distinct<T(==)>(s: seq<T>) {
    forall i, j :: 0 <= i < j < |s| ==> s[i] != s[j]
  }

  /** `d[k]`, or None when `k` is not a key. */
  function Find<K(==), V>(d: seq<(K, V)>, k: K): (r: Option<V>)
    ensures r.Some? <==> k in Keys(d)
  {
    if d == [] then None
    else
      KeysCons(d);
      if d[0].0 == k then Some(d[0].1) else Find(d[1..], k)
  }

  /** When the keys are distinct, looking up the key of an entry finds that
      entry's value. */
  lemma {:induction false} FindEntry<K, V>(d: seq<(K, V)>, i: nat)
    requires Distinct(Keys(d)) && i < |d|
    ensures Find(d, d[i].0) == Some(d[i].1)
  {
    if i > 0 {
      assert Keys(d)[0] != Keys(d)[i];
      assert Keys(d[1..]) == Keys(d)[1..];
      FindEntry(d[1..], i - 1);
    }
  }

  /** `d[k] = v` */
  function Put<K(==), V>(d: seq<(K, V)>, k: K, v: V): (r: seq<(K, V)>)
    ensures Find(r, k) == Some(v)
  {
    if d == [] then [(k, v)]
    else if d[0].0 == k then [(k, v)] + d[1..]
    else [d[0]] + Put(d[1..], k, v)
  }

  /** Assigning an existing key keeps the key order; a new key goes last. */
  lemma {:induction false} PutKeys<K, V>(d: seq<(K, V)>, k: K, v: V)
    ensures Keys(Put(d, k, v)) == if k in Keys(d) then Keys(d) else Keys(d) + [k]
  {
    if d != [] {
      KeysCons(d);
      var r := Put(d, k, v);
      KeysCons(r);
      if d[0].0 == k {
        assert r[1..] == d[1..];
      } else {
        assert r[1..] == Put(d[1..], k, v);
        PutKeys(d[1..], k, v);
        Text.ConcatAssoc([d[0].0], Keys(d[1..]), [k]);
      }
    }
  }

  /** Assigning one key leaves every other key's value as it was. */
  lemma {:induction false} PutOther<K, V>(d: seq<(K, V)>, k: K, v: V, k': K)
    requires k' != k
    ensures Find(Put(d, k, v), k') == Find(d, k')
  {
    if d != [] && d[0].0 != k {
      PutOther(d[1..], k, v, k');
    }
  }

  /** Assigning a key the value it already has leaves the dictionary as it was. */
  lemma {:induction false} PutSameValue<K, V>(d: seq<(K, V)>, k: K, v: V)
    requires Find(d, k) == Some(v)
    ensures Put(d, k, v) == d
  {
    if d[0].0 != k {
      PutSameValue(d[1..], k, v);
    }
  }

  /** Assigning a new key appends it at the end. */
  lemma {:induction false} PutNewKey<K, V>(d: seq<(K, V)>, k: K, v: V)
    requires k !in Keys(d)
    ensures Put(d, k, v) == d + [(k, v)]
    ensures Keys(Put(d, k, v)) == Keys(d) + [k]
  {
    PutKeys(d, k, v);
    if d != [] {
      KeysCons(d);
      PutNewKey(d[1..], k, v);
    }
  }

  /** The keys of a dictionary never repeat. */
  lemma PutKeepsKeysDistinct<K, V>(d: seq<(K, V)>, k: K, v: V)
    requires Distinct(Keys(d))
    ensures Distinct(Keys(Put(d, k, v)))
  {
    PutKeys(d, k, v);
  }

  /** The keys of `s` in order of first occurrence: the key order of a dictionary
      that is assigned once for every element of `s`. */
  function Dedup<T(==,!new)>(s: seq<T>): (r: seq<T>)
    ensures Distinct(r)
    ensures forall x :: x in r <==> x in s
  {
    if s == [] then []
    else
      var p := Dedup(s[..|s| - 1]);
      var x := s[|s| - 1];
      assert s == s[..|s| - 1] + [x];
      if x in p then p else p + [x]
  }

  /** `sum(d.values())` for a dictionary of counts. */
  function SumValues<K>(d: seq<(K, nat)>): nat {
    if d == [] then 0 else d[0].1 + SumValues(d[1..])
  }

  lemma {:induction false} SumValuesSnoc<K>(d: seq<(K, nat)>, e: (K, nat))
    ensures SumValues(d + [e]) == SumValues(d) + e.1
  {
    if d != [] {
      assert (d + [e])[1..] == d[1..] + [e];
      SumValuesSnoc(d[1..], e);
    }
  }

  /** `d[k]` of a `Counter`: a missing key reads as zero. */
  function Count<K(==)>(d: seq<(K, nat)>, k: K): nat {
    match Find(d, k)
    case Some(n) => n
    case None => 0
  }

  /** Assigning `v` to `k` changes the sum of the counts by `v - d[k]`. */
  lemma {:induction false} SumAfterPut<K>(d: seq<(K, nat)>, k: K, v: nat)
    ensures SumValues(Put(d, k, v)) + Count(d, k) == SumValues(d) + v
  {
    if d != [] && d[0].0 != k {
      var r := Put(d, k, v);
      assert r[1..] == Put(d[1..], k, v);
      SumAfterPut(d[1..], k, v);
    }
  }

  /** Incrementing one count raises the sum of all counts by exactly one. */
  lemma SumAfterIncrement<K>(d: seq<(K, nat)>, k: K)
    ensures SumValues(Put<K, nat>(d, k, Count(d, k) + 1)) == SumValues(d) + 1
  {
    SumAfterPut(d, k, Count(d, k) + 1);
  }

  /** No single count exceeds the sum of all counts. */
  lemma {:induction false} CountAtMostSum<K>(d: seq<(K, nat)>, k: K)
    ensures Count(d, k) <= SumValues(d)
  {
    if d != [] && d[0].0 != k {
      CountAtMostSum(d[1..], k);
    }
  }
}
