/**
  ConsolidateMeasures (train_test_csv_creation.py:12-30): the measures of one
  stay, sorted by chart time, are put into buckets keyed by their whole-minute
  offset from the first measure.
*/
module Consolidation {
  import opened Wrappers
  import opened Records
  import opened OrderedDict
  import opened Sorting

  /** The dict `consolidated`: minute offset to (itemid, value) pairs. */
  type Buckets = Dict<int, seq<Entry>>

  /** What ConsolidateMeasures yields: (icustay_id, consolidated, los). */
  datatype StayBuckets = StayBuckets(stay: StayId, buckets: Buckets, los: string)

  /** int(x) on a float truncates toward zero, where Dafny's / on int rounds
      down: the quotient of a by b rounded toward zero, so that the remainder
      takes the sign of a. */
  function TruncDiv(a: int, b: int): (q: int)
    requires b > 0
    ensures a >= 0 ==> 0 <= q && q * b <= a < q * b + b
    ensures a < 0 ==> q <= 0 && q * b - b < a <= q * b
  {
    if a >= 0 then DivBounds(a, b); a / b else DivBounds(-a, b); -((-a) / b)
  }

  /** Dafny's / on a non-negative dividend: the quotient is non-negative and
      leaves a remainder below b. */
  lemma DivBounds(a: int, b: int)
    requires a >= 0 && b > 0
    ensures 0 <= a / b && (a / b) * b <= a < (a / b) * b + b
  {
  }

  /** int((charttime - start_time).total_seconds() / 60): the whole minutes
      from t0 to t, counted toward t0. */
  function MinuteOffset(t: Timestamp, t0: Timestamp): (off: int)
    ensures t0 <= t ==> off >= 0 && off == (t - t0) / 60
    ensures t < t0 ==> off <= 0 && off == -((t0 - t) / 60)
  {
    TruncDiv(t - t0, 60)
  }

  /** A later chart time never gets a smaller offset, on either side of t0. */
  lemma MinuteOffsetMonotone(t0: Timestamp, t1: Timestamp, t2: Timestamp)
    requires t1 <= t2
    ensures MinuteOffset(t1, t0) <= MinuteOffset(t2, t0)
  {
  }

  /** The offset of every measure, in list order. */
  function Offsets(ms: seq<Measure>, t0: Timestamp): (offs: seq<int>)
    ensures |offs| == |ms|
    ensures forall i :: 0 <= i < |ms| ==> offs[i] == MinuteOffset(ms[i].chartTime, t0)
  {
    seq(|ms|, i requires 0 <= i < |ms| => MinuteOffset(ms[i].chartTime, t0))
  }

  /** The distinct values of xs, each where it first occurs. */
  function FirstOccurrences(xs: seq<int>): (r: seq<int>)
    ensures forall i, j :: 0 <= i < j < |r| ==> r[i] != r[j]
    ensures forall x :: x in r <==> x in xs
  {
    if xs == [] then []
    else
      var init, last := xs[..|xs| - 1], xs[|xs| - 1];
      assert xs == init + [last];
      FirstOccurrences(init) + (if last in init then [] else [last])
  }

  /** The (itemid, value) pairs of the measures whose offset is k, in list
      order. */
  function EntriesAt(ms: seq<Measure>, t0: Timestamp, k: int): seq<Entry> {
    if ms == [] then []
    else
      var last := ms[|ms| - 1];
      EntriesAt(ms[..|ms| - 1], t0, k) + (if MinuteOffset(last.chartTime, t0) == k then [EntryOf(last)] else [])
  }

  /** The buckets of ms, as a reference definition: one key per distinct
      offset, in order of first occurrence, each holding the pairs of the
      measures with that offset. */
  function Bucketed(ms: seq<Measure>, t0: Timestamp): (d: Buckets)
    ensures d.Valid()
  {
    var offs := Offsets(ms, t0);
    Dict(FirstOccurrences(offs), map k | k in offs :: EntriesAt(ms, t0, k))
  }

  lemma {:induction false} EntriesAtAbsent(ms: seq<Measure>, t0: Timestamp, k: int)
    requires k !in Offsets(ms, t0)
    ensures EntriesAt(ms, t0, k) == []
  {
    if ms != [] {
      var init := ms[..|ms| - 1];
      assert Offsets(init, t0) == Offsets(ms, t0)[..|ms| - 1];
      EntriesAtAbsent(init, t0, k);
    }
  }

  lemma OffsetsSnoc(ms: seq<Measure>, m: Measure, t0: Timestamp)
    ensures Offsets(ms + [m], t0) == Offsets(ms, t0) + [MinuteOffset(m.chartTime, t0)]
  {
  }

  lemma FirstOccurrencesSnoc(xs: seq<int>, k: int)
    ensures FirstOccurrences(xs + [k]) == FirstOccurrences(xs) + (if k in xs then [] else [k])
  {
    assert (xs + [k])[..|xs|] == xs;
  }

  lemma EntriesAtSnoc(ms: seq<Measure>, m: Measure, t0: Timestamp, j: int)
    ensures EntriesAt(ms + [m], t0, j) ==
      EntriesAt(ms, t0, j) + (if MinuteOffset(m.chartTime, t0) == j then [EntryOf(m)] else [])
  {
    assert (ms + [m])[..|ms|] == ms;
  }

  lemma MapUpdateOf(lhs: map<int, seq<Entry>>, table: map<int, seq<Entry>>, k: int, v: seq<Entry>)
    requires forall j :: j in lhs <==> j in table || j == k
    requires k in lhs && lhs[k] == v
    requires forall j :: j in table && j != k ==> lhs[j] == table[j]
    ensures lhs == table[k := v]
  {
    var rhs := table[k := v];
    forall j ensures j in lhs.Keys <==> j in rhs.Keys {
      assert j in lhs <==> j in table || j == k;
    }
    assert lhs.Keys == rhs.Keys;
    forall j | j in lhs ensures lhs[j] == rhs[j] {
    }
  }

  lemma BucketedSnocTable(ms: seq<Measure>, m: Measure, t0: Timestamp)
    ensures
      var d, k := Bucketed(ms, t0), MinuteOffset(m.chartTime, t0);
      Bucketed(ms + [m], t0).table == d.table[k := (if k in d.table then d.table[k] else []) + [EntryOf(m)]]
  {
    var table, k := Bucketed(ms, t0).table, MinuteOffset(m.chartTime, t0);
    var xs, xs' := Offsets(ms, t0), Offsets(ms + [m], t0);
    OffsetsSnoc(ms, m, t0);
    var lhs := Bucketed(ms + [m], t0).table;
    forall j ensures j in lhs <==> j in table || j == k {
      assert j in xs' <==> j in xs || j == k;
    }
    EntriesAtSnoc(ms, m, t0, k);
    if k !in xs {
      EntriesAtAbsent(ms, t0, k);
    }
    forall j | j in table && j != k ensures lhs[j] == table[j] {
      EntriesAtSnoc(ms, m, t0, j);
    }
    MapUpdateOf(lhs, table, k, (if k in table then table[k] else []) + [EntryOf(m)]);
  }

  lemma BucketedSnocKeys(ms: seq<Measure>, m: Measure, t0: Timestamp)
    ensures
      var d, k := Bucketed(ms, t0), MinuteOffset(m.chartTime, t0);
      Bucketed(ms + [m], t0).keys == if k in d.table then d.keys else d.keys + [k]
  {
    var k := MinuteOffset(m.chartTime, t0);
    OffsetsSnoc(ms, m, t0);
    FirstOccurrencesSnoc(Offsets(ms, t0), k);
  }

  /** One more measure adds one pair to the bucket of its offset, opening that
      bucket at the end of the key order if the offset is new: the step of
      the loop in ConsolidateMeasures. */
  lemma BucketedSnoc(ms: seq<Measure>, m: Measure, t0: Timestamp)
    ensures
      var d, k := Bucketed(ms, t0), MinuteOffset(m.chartTime, t0);
      Bucketed(ms + [m], t0) ==
        if k in d.table then Dict(d.keys, d.table[k := d.table[k] + [EntryOf(m)]])
        else Dict(d.keys + [k], d.table[k := [EntryOf(m)]])
  {
    BucketedSnocKeys(ms, m, t0);
    BucketedSnocTable(ms, m, t0);
    assert [] + [EntryOf(m)] == [EntryOf(m)];
  }

  /** On a list sorted by chart time, measured from its first measure: the
      first offset is 0, every offset is the whole minutes elapsed (so
      truncation and flooring agree), and offsets never decrease. */
  lemma OffsetsOfSorted(ms: seq<Measure>)
    requires SortedByTime(ms) && ms != []
    ensures var offs := Offsets(ms, ms[0].chartTime);
      && offs[0] == 0
      && (forall i :: 0 <= i < |ms| ==> offs[i] >= 0 && offs[i] == (ms[i].chartTime - ms[0].chartTime) / 60)
      && (forall i, j :: 0 <= i < j < |ms| ==> offs[i] <= offs[j])
  {
    var t0 := ms[0].chartTime;
    forall i, j | 0 <= i < j < |ms| ensures MinuteOffset(ms[i].chartTime, t0) <= MinuteOffset(ms[j].chartTime, t0) {
      MinuteOffsetMonotone(t0, ms[i].chartTime, ms[j].chartTime);
    }
  }

  ghost predicate NonDecreasing(xs: seq<int>) {
    forall i, j :: 0 <= i < j < |xs| ==> xs[i] <= xs[j]
  }

  ghost predicate StrictlyIncreasing(xs: seq<int>) {
    forall i, j :: 0 <= i < j < |xs| ==> xs[i] < xs[j]
  }

  lemma NonDecreasingInit(xs: seq<int>)
    requires NonDecreasing(xs) && xs != []
    ensures NonDecreasing(xs[..|xs| - 1])
  {
  }

  lemma StrictlyIncreasingSnoc(p: seq<int>, x: int)
    requires StrictlyIncreasing(p)
    requires forall i :: 0 <= i < |p| ==> p[i] < x
    ensures StrictlyIncreasing(p + [x])
  {
  }

  /** A value above every earlier one extends the strictly increasing first
      occurrences of those earlier values. */
  lemma FirstOccurrencesFresh(init: seq<int>, p: seq<int>, last: int)
    requires NonDecreasing(init + [last]) && last !in init
    requires StrictlyIncreasing(p)
    requires init == [] ==> p == []
    requires init != [] ==> p != [] && p[0] == init[0] && p[|p| - 1] == init[|init| - 1]
    ensures var r := p + [last];
      StrictlyIncreasing(r) && r[0] == (init + [last])[0] && r[|r| - 1] == last
  {
    if init != [] {
      var q := init[|init| - 1];
      var xs := init + [last];
      assert xs[|init| - 1] == q && xs[|init|] == last;
      assert q <= last;
      assert q in init;
      assert forall i :: 0 <= i < |p| ==> p[i] <= q;
    }
    StrictlyIncreasingSnoc(p, last);
  }

  /** A value seen before is the greatest so far when values never
      decrease. */
  lemma SeenIsLast(init: seq<int>, last: int)
    requires NonDecreasing(init + [last]) && last in init
    ensures init[|init| - 1] == last
  {
    var xs := init + [last];
    var j :| 0 <= j < |init| && init[j] == last;
    assert xs[j] == last && xs[|init| - 1] == init[|init| - 1] && xs[|init|] == last;
    assert xs[j] <= xs[|init| - 1] <= xs[|init|];
  }

  /** The first occurrences of a non-decreasing sequence are strictly
      increasing and run from its first element to its last. */
  lemma {:induction false} FirstOccurrencesIncreasing(xs: seq<int>)
    requires NonDecreasing(xs)
    ensures StrictlyIncreasing(FirstOccurrences(xs))
    ensures xs != [] ==> FirstOccurrences(xs)[0] == xs[0]
    ensures xs != [] ==> FirstOccurrences(xs)[|FirstOccurrences(xs)| - 1] == xs[|xs| - 1]
  {
    if xs != [] {
      var init, last := xs[..|xs| - 1], xs[|xs| - 1];
      assert xs == init + [last];
      NonDecreasingInit(xs);
      FirstOccurrencesIncreasing(init);
      FirstOccurrencesSnoc(init, last);
      FirstOccurrencesStep(init, last, FirstOccurrences(init), FirstOccurrences(xs));
    }
  }

  lemma FirstOccurrencesStep(init: seq<int>, last: int, p: seq<int>, r: seq<int>)
    requires NonDecreasing(init + [last])
    requires StrictlyIncreasing(p)
    requires init == [] ==> p == []
    requires init != [] ==> p != [] && p[0] == init[0] && p[|p| - 1] == init[|init| - 1]
    requires r == p + (if last in init then [] else [last])
    ensures StrictlyIncreasing(r) && r != [] && r[0] == (init + [last])[0] && r[|r| - 1] == last
  {
    if last !in init {
      FirstOccurrencesFresh(init, p, last);
    } else {
      SeenIsLast(init, last);
      assert r == p;
    }
  }

  /** For a sorted, non-empty stay the bucket keys start at 0 and strictly
      increase, so no offset is opened twice and none is out of order. */
  lemma BucketKeysIncreasing(ms: seq<Measure>)
    requires SortedByTime(ms) && ms != []
    ensures var keys := Bucketed(ms, ms[0].chartTime).keys;
      && keys != [] && keys[0] == 0
      && StrictlyIncreasing(keys)
  {
    OffsetsOfSorted(ms);
    FirstOccurrencesIncreasing(Offsets(ms, ms[0].chartTime));
  }

  /** Each measure's pair is in the bucket keyed by that measure's offset. */
  lemma {:induction false} MeasureInItsBucket(ms: seq<Measure>, t0: Timestamp, i: nat)
    requires i < |ms|
    ensures var d, k := Bucketed(ms, t0), MinuteOffset(ms[i].chartTime, t0);
      k in d.table && EntryOf(ms[i]) in d.table[k]
  {
    var k := MinuteOffset(ms[i].chartTime, t0);
    assert Offsets(ms, t0)[i] == k;
    EntryInEntriesAt(ms, t0, i);
  }

  lemma {:induction false} EntryInEntriesAt(ms: seq<Measure>, t0: Timestamp, i: nat)
    requires i < |ms|
    ensures EntryOf(ms[i]) in EntriesAt(ms, t0, MinuteOffset(ms[i].chartTime, t0))
  {
    if i < |ms| - 1 {
      var init := ms[..|ms| - 1];
      assert init[i] == ms[i];
      EntryInEntriesAt(init, t0, i);
    }
  }

  /** Every bucket that is opened receives the pair that opened it. */
  lemma BucketsNonEmpty(ms: seq<Measure>, t0: Timestamp)
    ensures var d := Bucketed(ms, t0);
      forall k | k in d.table :: |d.table[k]| > 0
  {
    var d := Bucketed(ms, t0);
    forall k | k in d.table ensures |d.table[k]| > 0 {
      var offs := Offsets(ms, t0);
      var i :| 0 <= i < |offs| && offs[i] == k;
      MeasureInItsBucket(ms, t0, i);
    }
  }

  /** A bucket holds only pairs of the measures it was built from. */
  lemma {:induction false} EntriesAtFrom(ms: seq<Measure>, t0: Timestamp, k: int, e: Entry)
    requires e in EntriesAt(ms, t0, k)
    ensures exists i :: 0 <= i < |ms| && EntryOf(ms[i]) == e
  {
    var init := ms[..|ms| - 1];
    if e in EntriesAt(init, t0, k) {
      EntriesAtFrom(init, t0, k, e);
      var i :| 0 <= i < |init| && EntryOf(init[i]) == e;
      assert ms[i] == init[i];
    } else {
      assert EntryOf(ms[|ms| - 1]) == e;
    }
  }

  /** The distinct minute offsets the measures fall on. */
  ghost function MinutesOf(ms: seq<Measure>, t0: Timestamp): set<int> {
    set m | m in ms :: MinuteOffset(m.chartTime, t0)
  }

  lemma {:induction false} DistinctCard(xs: seq<int>)
    requires forall i, j :: 0 <= i < j < |xs| ==> xs[i] != xs[j]
    ensures |set x | x in xs| == |xs|
  {
    if xs != [] {
      var init, last := xs[..|xs| - 1], xs[|xs| - 1];
      DistinctCard(init);
      assert (set x | x in xs) == (set x | x in init) + {last} by {
        assert xs == init + [last];
      }
      assert last !in init;
    }
  }

  /** There are exactly as many buckets as distinct minute offsets. */
  lemma BucketCount(ms: seq<Measure>, t0: Timestamp)
    ensures Bucketed(ms, t0).Len() == |MinutesOf(ms, t0)|
  {
    var keys := Bucketed(ms, t0).keys;
    var offs := Offsets(ms, t0);
    DistinctCard(keys);
    assert (set x | x in keys) == MinutesOf(ms, t0) by {
      forall x ensures x in keys <==> x in MinutesOf(ms, t0) {
        if x in offs {
          var i :| 0 <= i < |offs| && offs[i] == x;
          assert ms[i] in ms;
        }
        if x in MinutesOf(ms, t0) {
          var m :| m in ms && MinuteOffset(m.chartTime, t0) == x;
          var i :| 0 <= i < |ms| && ms[i] == m;
          assert offs[i] == x;
        }
      }
    }
  }

  /** The buckets' pairs laid end to end in key order: what FormatOutput
      renders. */
  function Flattened(keys: seq<int>, table: map<int, seq<Entry>>): seq<Entry>
    requires forall i :: 0 <= i < |keys| ==> keys[i] in table
  {
    if keys == [] then []
    else Flattened(keys[..|keys| - 1], table) + table[keys[|keys| - 1]]
  }

  function EntriesOf(ms: seq<Measure>): (es: seq<Entry>)
    ensures |es| == |ms|
    ensures forall i :: 0 <= i < |ms| ==> es[i] == EntryOf(ms[i])
  {
    seq(|ms|, i requires 0 <= i < |ms| => EntryOf(ms[i]))
  }

  lemma EntriesOfSnoc(ms: seq<Measure>, m: Measure)
    ensures EntriesOf(ms + [m]) == EntriesOf(ms) + [EntryOf(m)]
  {
  }

  lemma {:induction false} FlattenedFresh(keys: seq<int>, table: map<int, seq<Entry>>, k: int, v: seq<Entry>)
    requires forall i :: 0 <= i < |keys| ==> keys[i] in table
    requires k !in keys
    ensures Flattened(keys, table[k := v]) == Flattened(keys, table)
  {
    if keys != [] {
      FlattenedFresh(keys[..|keys| - 1], table, k, v);
    }
  }

  lemma {:induction false} FlattenedAppend(keys: seq<int>, table: map<int, seq<Entry>>, k: int, e: Entry)
    requires forall i :: 0 <= i < |keys| ==> keys[i] in table
    requires forall i, j :: 0 <= i < j < |keys| ==> keys[i] != keys[j]
    requires k in keys
    ensures multiset(Flattened(keys, table[k := table[k] + [e]])) == multiset(Flattened(keys, table)) + multiset{e}
  {
    var init, last := keys[..|keys| - 1], keys[|keys| - 1];
    if last == k {
      FlattenedFresh(init, table, k, table[k] + [e]);
    } else {
      assert k in init by {
        var i :| 0 <= i < |keys| && keys[i] == k;
        assert init[i] == k;
      }
      FlattenedAppend(init, table, k, e);
    }
  }

  /** The loop step adds exactly its pair to the flattened buckets. */
  lemma FlattenedStep(d: Buckets, k: int, e: Entry)
    requires d.Valid()
    ensures var d' := if k in d.table then Dict(d.keys, d.table[k := d.table[k] + [e]])
                      else Dict(d.keys + [k], d.table[k := [e]]);
      && (forall i :: 0 <= i < |d'.keys| ==> d'.keys[i] in d'.table)
      && multiset(Flattened(d'.keys, d'.table)) == multiset(Flattened(d.keys, d.table)) + multiset{e}
  {
    if k in d.table {
      FlattenedAppend(d.keys, d.table, k, e);
    } else {
      var keys' := d.keys + [k];
      assert keys'[..|keys'| - 1] == d.keys;
      FlattenedFresh(d.keys, d.table, k, [e]);
    }
  }

  /** The buckets hold every measure's pair exactly once: laid end to end
      they are a permutation of the measures' pairs, as many as there are
      measures. */
  lemma {:induction false} BucketsPartitionMeasures(ms: seq<Measure>, t0: Timestamp)
    ensures var d := Bucketed(ms, t0);
      && multiset(Flattened(d.keys, d.table)) == multiset(EntriesOf(ms))
      && |Flattened(d.keys, d.table)| == |ms|
  {
    if ms != [] {
      var init, m := ms[..|ms| - 1], ms[|ms| - 1];
      assert ms == init + [m];
      BucketsPartitionMeasures(init, t0);
      BucketedSnoc(init, m, t0);
      FlattenedStep(Bucketed(init, t0), MinuteOffset(m.chartTime, t0), EntryOf(m));
      EntriesOfSnoc(init, m);
      var d := Bucketed(ms, t0);
      assert |Flattened(d.keys, d.table)| == |multiset(Flattened(d.keys, d.table))|;
    }
  }

  /** The method's result as a function: measures[0] on an empty list raises,
      otherwise the buckets of the list relative to its first chart time,
      and the LOS left in the loop variable by the last measure. */
  function Consolidate(stay: StayId, measures: seq<Measure>): (r: Result<StayBuckets, StageError>)
    ensures r.Failure? <==> measures == []
    ensures r.Failure? ==> r.error == EmptyMeasureList
    ensures r.Success? ==> r.value.stay == stay && r.value.buckets.Valid()
    ensures r.Success? ==> r.value.los == measures[|measures| - 1].los
  {
    if measures == [] then Failure(EmptyMeasureList)
    else Success(StayBuckets(stay, Bucketed(measures, measures[0].chartTime), measures[|measures| - 1].los))
  }

  /** One pass of the loop in ConsolidateMeasures: open the bucket of the
      measure's offset if it is new, then append the measure's pair. */
  lemma ConsolidateStep(ms: seq<Measure>, i: nat, t0: Timestamp)
    requires i < |ms|
    ensures var d, k := Bucketed(ms[..i], t0), MinuteOffset(ms[i].chartTime, t0);
      var d1 := if k in d.table then d else d.Put(k, []);
      && k in d1.table
      && d1.Put(k, d1.table[k] + [EntryOf(ms[i])]) == Bucketed(ms[..i + 1], t0)
  {
    assert ms[..i + 1] == ms[..i] + [ms[i]];
    BucketedSnoc(ms[..i], ms[i], t0);
  }

  /** ConsolidateMeasures.process. */
  method ConsolidateMeasures(stay: StayId, measures: seq<Measure>) returns (r: Result<StayBuckets, StageError>)
    ensures r == Consolidate(stay, measures)
  {
    if |measures| == 0 {
      return Failure(EmptyMeasureList);
    }
    var consolidated: Buckets := Empty();
    var startTime := measures[0].chartTime;
    var los := "";
    for i := 0 to |measures|
      invariant consolidated == Bucketed(measures[..i], startTime)
      invariant i > 0 ==> los == measures[i - 1].los
    {
      var m := measures[i];
      var timeDiff := MinuteOffset(m.chartTime, startTime);
      ConsolidateStep(measures, i, startTime);
      if timeDiff !in consolidated.table {
        consolidated := consolidated.Put(timeDiff, []);
      }
      consolidated := consolidated.Put(timeDiff, consolidated.table[timeDiff] + [EntryOf(m)]);
      los := m.los;
    }
    assert measures[..|measures|] == measures;
    return Success(StayBuckets(stay, consolidated, los));
  }
}
