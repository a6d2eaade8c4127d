/** Tallies kept in a JavaScript object or a Python dict: `counts[k] = (counts[k] || 0) + 1`
    over a list. Keys are remembered in the order of their first appearance, the order
    in which an object lists the keys it was given. */
module Histogram {
  import Seqs

  /** How many times `k` occurs in `s`. */
  function Count<K(==)>(s: seq<K>, k: K): (r: nat)
    ensures r <= |s|
    ensures r > 0 <==> k in s
  {
    if s == [] then 0
    else
      var init := s[..|s| - 1];
      assert s == init + [s[|s| - 1]];
      Count(init, k) + (if s[|s| - 1] == k then 1 else 0)
  }

  predicate NoDuplicates<K(==)>(s: seq<K>) {
    forall i, j :: 0 <= i < j < |s| ==> s[i] != s[j]
  }

  /** The distinct elements of `s`, each at the place it first appears. */
  function Distinct<K(==)>(s: seq<K>): (r: seq<K>)
    ensures NoDuplicates(r)
    ensures forall i :: 0 <= i < |r| ==> r[i] in s
    ensures forall i :: 0 <= i < |s| ==> s[i] in r
    ensures |r| <= |s|
  {
    if s == [] then []
    else
      var init := s[..|s| - 1];
      var x := s[|s| - 1];
      assert s == init + [x];
      var d := Distinct(init);
      if x in d then d else d + [x]
  }

  /** The distinct elements come in the order of their first appearance: an earlier key
      occurs in `s` at a position before which, that position included, a later key has
      not yet occurred. */
  lemma {:induction false} DistinctFirstAppearance<K>(s: seq<K>, i: nat, j: nat)
    requires i < j < |Distinct(s)|
    ensures exists p :: 0 <= p < |s| && s[p] == Distinct(s)[i] && Distinct(s)[j] !in s[..p + 1]
  {
    var init := s[..|s| - 1];
    var x := s[|s| - 1];
    assert s == init + [x];
    var d := Distinct(init);
    if j < |d| {
      DistinctFirstAppearance(init, i, j);
      var p :| 0 <= p < |init| && init[p] == d[i] && d[j] !in init[..p + 1];
      assert s[..p + 1] == init[..p + 1];
    } else {
      assert x !in d && Distinct(s) == d + [x];
      assert d[i] in init;
      var p :| 0 <= p < |init| && init[p] == d[i];
      assert x !in init;
      assert s[..p + 1] == init[..p + 1];
    }
  }

  /** The sum of the counts of `keys` in `s`. */
  function SumOver<K(==)>(keys: seq<K>, s: seq<K>): nat {
    if keys == [] then 0
    else SumOver(keys[..|keys| - 1], s) + Count(s, keys[|keys| - 1])
  }

  /** One more element in `s` adds one to the sum over a duplicate-free key list exactly
      when the element is one of the keys. */
  lemma {:induction false} SumOverSnoc<K>(keys: seq<K>, s: seq<K>, x: K)
    requires NoDuplicates(keys)
    ensures SumOver(keys, s + [x]) == SumOver(keys, s) + (if x in keys then 1 else 0)
  {
    assert (s + [x])[..|s + [x]| - 1] == s;
    if keys != [] {
      var init := keys[..|keys| - 1];
      assert keys == init + [keys[|keys| - 1]];
      SumOverSnoc(init, s, x);
    }
  }

  /** The counts of the distinct elements add up to the length of the list: every element
      is counted once, under its own key. */
  lemma {:induction false} DistinctCountsSum<K>(s: seq<K>)
    ensures SumOver(Distinct(s), s) == |s|
  {
    if s != [] {
      var init := s[..|s| - 1];
      var x := s[|s| - 1];
      assert s == init + [x];
      DistinctCountsSum(init);
      var d := Distinct(init);
      SumOverSnoc(d, init, x);
      if x !in d {
        var e := d + [x];
        assert e[..|e| - 1] == d;
        assert x !in init;
      }
    }
  }

  /** Every key of a tally has a count of at least one. */
  lemma DistinctCountsPositive<K>(s: seq<K>, i: nat)
    requires i < |Distinct(s)|
    ensures Count(s, Distinct(s)[i]) >= 1
  {
  }

  /** The tally as a value: each element of `s` maps to the number of times it occurs,
      and nothing else is a key. */
  function Tallied<K(==,!new)>(s: seq<K>): (r: map<K, nat>)
    ensures forall k :: k in r <==> k in s
    ensures forall k :: k in r ==> r[k] == Count(s, k)
  {
    if s == [] then map[]
    else
      var init := s[..|s| - 1];
      var x := s[|s| - 1];
      assert s == init + [x];
      var m := Tallied(init);
      m[x := (if x in m then m[x] else 0) + 1]
  }

  /** The tally loop: walks `s` once, adding a key the first time it is seen and
      incrementing it afterwards. */
  method Tally<K(==,!new)>(s: seq<K>) returns (order: seq<K>, counts: map<K, nat>)
    ensures order == Distinct(s)
    ensures counts == Tallied(s)
  {
    order := [];
    counts := map[];
    for i := 0 to |s|
      invariant order == Distinct(s[..i])
      invariant counts == Tallied(s[..i])
    {
      var x := s[i];
      assert s[..i + 1][..i] == s[..i];
      if x in counts {
        counts := counts[x := counts[x] + 1];
      } else {
        order := order + [x];
        counts := counts[x := 1];
      }
    }
    assert s[..|s|] == s;
  }

  /** The key of every element, in order. */
  function Keys<T, K>(s: seq<T>, key: T -> K): (r: seq<K>)
    ensures |r| == |s| && forall i :: 0 <= i < |s| ==> r[i] == key(s[i])
  {
    seq(|s|, i requires 0 <= i < |s| => key(s[i]))
  }

  /** `s.filter(x => key(x) === k).length` is the number of times `k` occurs among the
      keys. */
  lemma {:induction false} FilterCount<T, K>(s: seq<T>, p: T -> bool, key: T -> K, k: K)
    requires forall i :: 0 <= i < |s| ==> p(s[i]) == (key(s[i]) == k)
    ensures |Seqs.Filter(s, p)| == Count(Keys(s, key), k)
  {
    if s != [] {
      var init := s[..|s| - 1];
      var last := s[|s| - 1];
      assert s == init + [last];
      Seqs.FilterAppend(init, [last], p);
      FilterCount(init, p, key, k);
      assert Keys(s, key)[..|s| - 1] == Keys(init, key);
    }
  }
}
