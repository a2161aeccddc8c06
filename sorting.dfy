/**
  SortValues (train_test_csv_creation.py:83): sorted(measures, key=CHARTTIME),
  a stable sort of one stay's measures by chart time.
*/
module Sorting {
  import opened Records

  ghost predicate SortedByTime(s: seq<Measure>) {
    forall i, j :: 0 <= i < j < |s| ==> s[i].chartTime <= s[j].chartTime
  }

  /** The measures of s taken at time t, in the order s holds them. */
  function AtTime(s: seq<Measure>, t: Timestamp): seq<Measure> {
    if s == [] then []
    else (if s[0].chartTime == t then [s[0]] else []) + AtTime(s[1..], t)
  }

  lemma AtTimeCons(x: Measure, s: seq<Measure>, t: Timestamp)
    ensures AtTime([x] + s, t) == (if x.chartTime == t then [x] else []) + AtTime(s, t)
  {
    assert ([x] + s)[1..] == s;
  }

  /** Places m in front of the first measure of s that is not earlier than m. */
  function Insert(m: Measure, s: seq<Measure>): (r: seq<Measure>)
    ensures multiset(r) == multiset(s) + multiset{m}
  {
    if s == [] || m.chartTime <= s[0].chartTime then
      [m] + s
    else
      assert s == [s[0]] + s[1..];
      [s[0]] + Insert(m, s[1..])
  }

  lemma SortedCons(x: Measure, r: seq<Measure>)
    requires SortedByTime(r)
    requires r == [] || x.chartTime <= r[0].chartTime
    ensures SortedByTime([x] + r)
  {
    var s := [x] + r;
    forall i, j | 0 <= i < j < |s| ensures s[i].chartTime <= s[j].chartTime {
      if i == 0 && j > 1 {
        assert r[0].chartTime <= r[j - 1].chartTime;
      }
    }
  }

  lemma {:induction false} InsertSorted(m: Measure, s: seq<Measure>)
    requires SortedByTime(s)
    ensures SortedByTime(Insert(m, s))
    ensures Insert(m, s)[0].chartTime ==
      if s == [] || m.chartTime <= s[0].chartTime then m.chartTime else s[0].chartTime
  {
    if s == [] || m.chartTime <= s[0].chartTime {
      SortedCons(m, s);
    } else {
      InsertSorted(m, s[1..]);
      var rest := Insert(m, s[1..]);
      assert s[0].chartTime <= rest[0].chartTime;
      SortedCons(s[0], rest);
    }
  }

  /** Inserting m adds m to the front of the measures taken at its time and
      leaves the other times alone: the insertion is stable. */
  lemma {:induction false} InsertStable(m: Measure, s: seq<Measure>, t: Timestamp)
    requires SortedByTime(s)
    ensures AtTime(Insert(m, s), t) == (if m.chartTime == t then [m] else []) + AtTime(s, t)
  {
    if s == [] || m.chartTime <= s[0].chartTime {
      AtTimeCons(m, s, t);
    } else {
      var rest := Insert(m, s[1..]);
      InsertStable(m, s[1..], t);
      AtTimeCons(s[0], rest, t);
      assert s == [s[0]] + s[1..];
      AtTimeCons(s[0], s[1..], t);
    }
  }

  /** sorted(measures, key=lambda x: x[2]): non-decreasing in chart time, a
      permutation of its input, and equal-time measures keep their order. */
  function SortByChartTime(s: seq<Measure>): (r: seq<Measure>)
    ensures SortedByTime(r)
    ensures multiset(r) == multiset(s) && |r| == |s|
    ensures forall t :: AtTime(r, t) == AtTime(s, t)
  {
    if s == [] then []
    else
      var rest := SortByChartTime(s[1..]);
      InsertFront(s, rest);
      Insert(s[0], rest)
  }

  /** Inserting the first measure into the sorted rest sorts the whole. */
  lemma InsertFront(s: seq<Measure>, rest: seq<Measure>)
    requires s != [] && SortedByTime(rest)
    requires multiset(rest) == multiset(s[1..]) && |rest| == |s| - 1
    requires forall t :: AtTime(rest, t) == AtTime(s[1..], t)
    ensures SortedByTime(Insert(s[0], rest))
    ensures multiset(Insert(s[0], rest)) == multiset(s) && |Insert(s[0], rest)| == |s|
    ensures forall t :: AtTime(Insert(s[0], rest), t) == AtTime(s, t)
  {
    InsertSorted(s[0], rest);
    assert s == [s[0]] + s[1..];
    forall t ensures AtTime(Insert(s[0], rest), t) == AtTime(s, t) {
      InsertStable(s[0], rest, t);
      AtTimeCons(s[0], s[1..], t);
    }
  }

  lemma {:induction false} AtTimePresent(s: seq<Measure>, t: Timestamp)
    requires AtTime(s, t) != []
    ensures exists i :: 0 <= i < |s| && s[i].chartTime == t
  {
    if s[0].chartTime != t {
      AtTimePresent(s[1..], t);
      var i :| 0 <= i < |s[1..]| && s[1..][i].chartTime == t;
      assert s[i + 1].chartTime == t;
    }
  }

  lemma EarliestBound(a: seq<Measure>, b: seq<Measure>)
    requires SortedByTime(a) && b != []
    requires AtTime(a, b[0].chartTime) == AtTime(b, b[0].chartTime)
    ensures a != [] && a[0].chartTime <= b[0].chartTime
  {
    AtTimePresent(a, b[0].chartTime);
  }

  /** Two sequences sorted by time that agree at every time are equal. */
  lemma {:induction false} SameAtEveryTime(a: seq<Measure>, b: seq<Measure>)
    requires SortedByTime(a) && SortedByTime(b)
    requires forall t :: AtTime(a, t) == AtTime(b, t)
    ensures a == b
    decreases |a|
  {
    if b != [] {
      EarliestBound(a, b);
      EarliestBound(b, a);
      var t0 := a[0].chartTime;
      assert a[0] == AtTime(a, t0)[0] == AtTime(b, t0)[0] == b[0];
      forall t ensures AtTime(a[1..], t) == AtTime(b[1..], t) {
        assert a == [a[0]] + a[1..] && b == [b[0]] + b[1..];
        AtTimeCons(a[0], a[1..], t);
        AtTimeCons(b[0], b[1..], t);
        var p := if a[0].chartTime == t then [a[0]] else [];
        assert AtTime(a[1..], t) == (p + AtTime(a[1..], t))[|p|..];
        assert AtTime(b[1..], t) == (p + AtTime(b[1..], t))[|p|..];
      }
      SameAtEveryTime(a[1..], b[1..]);
    } else if a != [] {
      EarliestBound(b, a);
    }
  }

  /** Any result that is sorted by time and stable is the one SortByChartTime
      gives, so SortByChartTime stands for Python's sorted whatever algorithm
      that uses. */
  lemma StableSortUnique(s: seq<Measure>, r: seq<Measure>)
    requires SortedByTime(r)
    requires forall t :: AtTime(r, t) == AtTime(s, t)
    ensures r == SortByChartTime(s)
  {
    SameAtEveryTime(r, SortByChartTime(s));
  }

  lemma {:induction false} AtTimeCount(s: seq<Measure>, t: Timestamp, x: Measure)
    ensures multiset(AtTime(s, t))[x] == if x.chartTime == t then multiset(s)[x] else 0
  {
    if s != [] {
      assert s == [s[0]] + s[1..];
      AtTimeCount(s[1..], t, x);
    }
  }

  lemma AtTimeMember(s: seq<Measure>, t: Timestamp, x: Measure)
    requires x in AtTime(s, t)
    ensures x in s && x.chartTime == t
  {
    AtTimeCount(s, t, x);
  }

  /** When all measures of a list taken at time t are equal, the measures at
      t, in order, depend only on which measures the list holds. */
  lemma AtTimeOfMultiset(a: seq<Measure>, b: seq<Measure>, t: Timestamp)
    requires multiset(a) == multiset(b)
    requires forall x, y :: x in a && y in a && x.chartTime == t && y.chartTime == t ==> x == y
    ensures AtTime(a, t) == AtTime(b, t)
  {
    var p, q := AtTime(a, t), AtTime(b, t);
    forall x ensures multiset(p)[x] == multiset(q)[x] {
      AtTimeCount(a, t, x);
      AtTimeCount(b, t, x);
    }
    assert multiset(p) == multiset(q);
    assert |p| == |q| by {
      assert |multiset(p)| == |multiset(q)|;
    }
    forall i | 0 <= i < |p| ensures p[i] == q[i] {
      AtTimeMember(a, t, p[i]);
      AtTimeMember(b, t, q[i]);
      assert q[i] in multiset(a);
      AtTimeMember(a, t, p[0]);
    }
  }

  /** Sorting two orderings of the same measures gives the same list when
      measures sharing a chart time are equal: only ties depend on arrival
      order. */
  lemma SortOfReordering(a: seq<Measure>, b: seq<Measure>)
    requires multiset(a) == multiset(b)
    requires forall x, y :: x in a && y in a && x.chartTime == y.chartTime ==> x == y
    ensures SortByChartTime(a) == SortByChartTime(b)
  {
    forall t ensures AtTime(SortByChartTime(a), t) == AtTime(b, t) {
      AtTimeOfMultiset(a, b, t);
    }
    StableSortUnique(b, SortByChartTime(a));
  }
}
