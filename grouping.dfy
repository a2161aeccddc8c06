/**
  FormatData and CombinePerKey (train_test_csv_creation.py:81-82): every
  measure is wrapped in a one-element list, and the lists of one key are
  merged with sum(values, []).
*/
module Grouping {

  /** FormatData: (key, value) becomes (key, [value]). */
  function FormatData<K, V>(p: (K, V)): (K, seq<V>) {
    (p.0, [p.1])
  }

  function FormatAll<K, V>(pairs: seq<(K, V)>): (r: seq<(K, seq<V>)>)
    ensures |r| == |pairs|
    ensures forall i :: 0 <= i < |pairs| ==> r[i] == FormatData(pairs[i])
  {
    seq(|pairs|, i requires 0 <= i < |pairs| => FormatData(pairs[i]))
  }

  /** Python's sum(lists, acc): a left fold of list concatenation. */
  function SumFrom<T>(acc: seq<T>, lists: seq<seq<T>>): seq<T>
    decreases |lists|
  {
    if lists == [] then acc else SumFrom(acc + lists[0], lists[1..])
  }

  /** The combining function, sum(values, []). */
  function Sum<T>(lists: seq<seq<T>>): seq<T> {
    SumFrom([], lists)
  }

  /** The accumulator of sum only ever sits in front of the result. */
  lemma {:induction false} SumFromAcc<T>(acc: seq<T>, lists: seq<seq<T>>)
    ensures SumFrom(acc, lists) == acc + Sum(lists)
    decreases |lists|
  {
    if lists != [] {
      calc {
        SumFrom(acc, lists);
        SumFrom(acc + lists[0], lists[1..]);
        { SumFromAcc(acc + lists[0], lists[1..]); }
        acc + lists[0] + Sum(lists[1..]);
        { SumFromAcc(lists[0], lists[1..]); assert [] + lists[0] == lists[0]; }
        acc + Sum(lists);
      }
    }
  }

  /** Concatenation is associative, so summing two partial results equals
      summing all the lists at once: a combiner may merge partial lists in
      any grouping. */
  lemma {:induction false} SumAppend<T>(a: seq<seq<T>>, b: seq<seq<T>>)
    ensures Sum(a + b) == Sum(a) + Sum(b)
    ensures Sum([Sum(a), Sum(b)]) == Sum(a + b)
    decreases |a|
  {
    if a == [] {
      assert a + b == b;
    } else {
      calc {
        Sum(a + b);
        { assert (a + b)[0] == a[0] && (a + b)[1..] == a[1..] + b; }
        SumFrom([] + a[0], a[1..] + b);
        { SumFromAcc([] + a[0], a[1..] + b); }
        a[0] + Sum(a[1..] + b);
        { SumAppend(a[1..], b); }
        a[0] + (Sum(a[1..]) + Sum(b));
        { SumFromAcc(a[0], a[1..]); assert [] + a[0] == a[0]; }
        Sum(a) + Sum(b);
      }
    }
    calc {
      Sum([Sum(a), Sum(b)]);
      { SumPair(Sum(a), Sum(b)); }
      Sum(a) + Sum(b);
    }
  }

  lemma SumSingleton<T>(x: seq<T>)
    ensures Sum([x]) == x
  {
    assert [x][1..] == [];
    calc {
      Sum([x]);
      SumFrom([] + x, []);
      { assert [] + x == x; }
      x;
    }
  }

  lemma SumPair<T>(x: seq<T>, y: seq<T>)
    ensures Sum([x, y]) == x + y
  {
    assert [x, y][1..] == [y];
    calc {
      Sum([x, y]);
      SumFrom([] + x, [y]);
      { SumFromAcc([] + x, [y]); }
      [] + x + Sum([y]);
      { SumSingleton(y); }
      x + y;
    }
  }

  /** The values carried by key k, in stream order. */
  function ValuesFor<K(==), V>(kvs: seq<(K, V)>, k: K): seq<V> {
    if kvs == [] then []
    else (if kvs[0].0 == k then [kvs[0].1] else []) + ValuesFor(kvs[1..], k)
  }

  function KeysOf<K(==), V>(kvs: seq<(K, V)>): set<K> {
    set i | 0 <= i < |kvs| :: kvs[i].0
  }

  /** CombinePerKey(sum): one combined list per key that occurs. */
  function CombinePerKey<K(==), V>(kvs: seq<(K, seq<V>)>): (r: map<K, seq<V>>)
    ensures r.Keys == KeysOf(kvs)
  {
    map k | k in KeysOf(kvs) :: Sum(ValuesFor(kvs, k))
  }

  /** FormatData followed by CombinePerKey. */
  function GroupByKey<K(==), V>(pairs: seq<(K, V)>): (r: map<K, seq<V>>)
    ensures r.Keys == KeysOf(pairs)
  {
    assert KeysOf(FormatAll(pairs)) == KeysOf(pairs) by {
      forall k ensures k in KeysOf(FormatAll(pairs)) <==> k in KeysOf(pairs) {
        if k in KeysOf(pairs) {
          var i :| 0 <= i < |pairs| && pairs[i].0 == k;
          assert FormatAll(pairs)[i].0 == k;
        }
      }
    }
    CombinePerKey(FormatAll(pairs))
  }

  /** Summing the wrapped values of one key gives that key's values back. */
  lemma {:induction false} SumOfWrapped<K, V>(pairs: seq<(K, V)>, k: K)
    ensures Sum(ValuesFor(FormatAll(pairs), k)) == ValuesFor(pairs, k)
  {
    if pairs != [] {
      var w := FormatAll(pairs);
      assert w[1..] == FormatAll(pairs[1..]);
      var head: seq<seq<V>> := if pairs[0].0 == k then [[pairs[0].1]] else [];
      calc {
        Sum(ValuesFor(w, k));
        Sum(head + ValuesFor(w[1..], k));
        { SumAppend(head, ValuesFor(w[1..], k)); }
        Sum(head) + Sum(ValuesFor(w[1..], k));
        { SumOfWrapped(pairs[1..], k); }
        Sum(head) + ValuesFor(pairs[1..], k);
        { if pairs[0].0 == k { SumSingleton([pairs[0].1]); } else { assert Sum(head) == []; } }
        ValuesFor(pairs, k);
      }
    }
  }

  lemma {:induction false} ValuesForNonEmpty<K, V>(kvs: seq<(K, V)>, k: K)
    requires k in KeysOf(kvs)
    ensures |ValuesFor(kvs, k)| > 0
  {
    if kvs[0].0 != k {
      var i :| 0 <= i < |kvs| && kvs[i].0 == k;
      assert kvs[1..][i - 1].0 == k;
      ValuesForNonEmpty(kvs[1..], k);
    }
  }

  /** Each key's group is exactly the values that carry it, in stream order,
      and a group is never empty. */
  lemma GroupIsFilter<K, V>(pairs: seq<(K, V)>, k: K)
    requires k in KeysOf(pairs)
    ensures GroupByKey(pairs)[k] == ValuesFor(pairs, k)
    ensures |GroupByKey(pairs)[k]| > 0
  {
    SumOfWrapped(pairs, k);
    ValuesForNonEmpty(pairs, k);
  }

  /** A value occurs in key k's group as often as the pair (k, v) occurs in
      the stream: no measure is lost or duplicated. */
  lemma {:induction false} GroupCount<K, V>(pairs: seq<(K, V)>, k: K, v: V)
    ensures multiset(ValuesFor(pairs, k))[v] == multiset(pairs)[(k, v)]
  {
    if pairs != [] {
      assert pairs == [pairs[0]] + pairs[1..];
      GroupCount(pairs[1..], k, v);
    }
  }

  lemma ValuesForCons<K, V>(p: (K, V), s: seq<(K, V)>, k: K)
    ensures ValuesFor([p] + s, k) == (if p.0 == k then [p.1] else []) + ValuesFor(s, k)
  {
    assert ([p] + s)[1..] == s;
  }

  /** Splitting the stream into two partitions and merging their partial
      groups key by key gives the group of the whole stream. */
  lemma {:induction false} GroupSplit<K, V>(xs: seq<(K, V)>, ys: seq<(K, V)>, k: K)
    ensures ValuesFor(xs + ys, k) == ValuesFor(xs, k) + ValuesFor(ys, k)
  {
    if xs == [] {
      assert xs + ys == ys;
    } else {
      var p, t := xs[0], xs[1..];
      assert xs == [p] + t && xs + ys == [p] + (t + ys);
      ValuesForCons(p, t + ys, k);
      ValuesForCons(p, t, k);
      GroupSplit(t, ys, k);
    }
  }

  lemma KeysOfSubset<K, V>(xs: seq<(K, V)>, ys: seq<(K, V)>)
    requires multiset(xs) <= multiset(ys)
    ensures KeysOf(xs) <= KeysOf(ys)
  {
    forall k | k in KeysOf(xs) ensures k in KeysOf(ys) {
      var i :| 0 <= i < |xs| && xs[i].0 == k;
      assert xs[i] in multiset(ys);
      var j :| 0 <= j < |ys| && ys[j] == xs[i];
    }
  }

  lemma MultisetExt<V>(a: multiset<V>, b: multiset<V>)
    requires forall v :: a[v] == b[v]
    ensures a == b
  {
  }

  lemma GroupSameMultiset<K, V>(xs: seq<(K, V)>, ys: seq<(K, V)>, k: K)
    requires multiset(xs) == multiset(ys)
    ensures multiset(ValuesFor(xs, k)) == multiset(ValuesFor(ys, k))
  {
    forall v: V ensures multiset(ValuesFor(xs, k))[v] == multiset(ValuesFor(ys, k))[v] {
      GroupCount(xs, k, v);
      GroupCount(ys, k, v);
    }
    MultisetExt(multiset(ValuesFor(xs, k)), multiset(ValuesFor(ys, k)));
  }

  /** Whatever order the pairs arrive in, the same keys occur and each key's
      group holds the same measures; only their order within a key may
      differ. */
  lemma GroupPermutationInvariant<K, V>(xs: seq<(K, V)>, ys: seq<(K, V)>)
    requires multiset(xs) == multiset(ys)
    ensures GroupByKey(xs).Keys == GroupByKey(ys).Keys
    ensures forall k :: k in GroupByKey(xs) ==>
      multiset(GroupByKey(xs)[k]) == multiset(GroupByKey(ys)[k])
  {
    KeysOfSubset(xs, ys);
    KeysOfSubset(ys, xs);
    forall k | k in GroupByKey(xs)
      ensures multiset(GroupByKey(xs)[k]) == multiset(GroupByKey(ys)[k])
    {
      GroupIsFilter(xs, k);
      GroupIsFilter(ys, k);
      GroupSameMultiset(xs, ys, k);
    }
  }
}
