/**
  run_pipeline (train_test_csv_creation.py:74-87) from the rows read to the
  rows written: PrepareData, FormatData, CombinePerKey, SortValues,
  ConsolidateMeasures, PadSequences and FormatOutput, in that order.
*/
module Pipeline {
  import opened Wrappers
  import opened Records
  import opened Grouping
  import opened Sorting
  import opened Consolidation
  import opened Padding
  import opened Serialization
  import opened SequenceGrammar

  /** The stream after CombinePerKey: one list of measures per stay. */
  function GroupedStays(rows: seq<Row>): map<StayId, seq<Measure>> {
    GroupByKey(ProjectRows(rows))
  }

  /** SortValues, ConsolidateMeasures, PadSequences and FormatOutput for one
      stay, wired as run_pipeline wires them. */
  function ProcessStay(stay: StayId, measures: seq<Measure>, maxLength: nat): Result<string, StageError> {
    match Consolidate(stay, SortByChartTime(measures))
    case Failure(e) => Failure(e)
    case Success(sb) =>
      match PadBuckets(sb, maxLength)
      case Failure(e) => Failure(e)
      case Success(padded) => Success(OutputLine(padded))
  }

  /** What each stay comes to once the stages after CombinePerKey have run. */
  function StayOutcomes(groups: map<StayId, seq<Measure>>, maxLength: nat): map<StayId, Result<string, StageError>> {
    map k | k in groups :: ProcessStay(k, groups[k], maxLength)
  }

  /** The rows written, one per stay, or None when a stage raised for some
      stay and the job failed. */
  function WriteStays(outcomes: map<StayId, Result<string, StageError>>): Option<map<StayId, string>> {
    if forall k | k in outcomes :: outcomes[k].Success? then
      Some(map k | k in outcomes :: outcomes[k].value)
    else
      None
  }

  /** run_pipeline from the rows read to the rows written. */
  function RunPipeline(rows: seq<Row>, maxLength: nat): Option<map<StayId, string>> {
    WriteStays(StayOutcomes(GroupedStays(rows), maxLength))
  }

  /** The stays that occur in the rows. */
  ghost function StaysOf(rows: seq<Row>): set<StayId> {
    set r | r in rows :: r.icustayId
  }

  lemma {:induction false} ProjectRowsMultiset(rows: seq<Row>, k: StayId, m: Measure)
    ensures multiset(ProjectRows(rows))[(k, m)] == multiset(rows)[RowOf(k, m)]
  {
    if rows != [] {
      assert rows == [rows[0]] + rows[1..];
      ProjectRowsMultiset(rows[1..], k, m);
    }
  }

  /** A measure is in a stay's group exactly when the row it came from is in
      the input, and as often. */
  lemma GroupHoldsRows(rows: seq<Row>, k: StayId, m: Measure)
    requires k in GroupedStays(rows)
    ensures multiset(GroupedStays(rows)[k])[m] == multiset(rows)[RowOf(k, m)]
  {
    GroupIsFilter(ProjectRows(rows), k);
    GroupCount(ProjectRows(rows), k, m);
    ProjectRowsMultiset(rows, k, m);
  }

  /** The stays grouped are the stays of the rows, and no group is empty. */
  lemma GroupedStaysOfRows(rows: seq<Row>)
    ensures GroupedStays(rows).Keys == StaysOf(rows)
    ensures forall k | k in GroupedStays(rows) :: |GroupedStays(rows)[k]| > 0
  {
    var pairs := ProjectRows(rows);
    forall k ensures k in KeysOf(pairs) <==> k in StaysOf(rows) {
      if k in KeysOf(pairs) {
        var i :| 0 <= i < |pairs| && pairs[i].0 == k;
        assert RowOf(pairs[i].0, pairs[i].1) == rows[i];
      }
      if k in StaysOf(rows) {
        var r :| r in rows && r.icustayId == k;
        var i :| 0 <= i < |rows| && rows[i] == r;
        assert RowOf(pairs[i].0, pairs[i].1) == rows[i];
      }
    }
    forall k | k in GroupedStays(rows) ensures |GroupedStays(rows)[k]| > 0 {
      GroupIsFilter(pairs, k);
    }
  }

  /** The buckets of a stay's measures once sorted, in the order
      FormatOutput writes them. */
  function StayItems(measures: seq<Measure>): seq<(int, seq<Entry>)> {
    var sorted := SortByChartTime(measures);
    if sorted == [] then [] else Bucketed(sorted, sorted[0].chartTime).Items()
  }

  /** ConsolidateMeasures never meets an empty list here: a stay fails only
      when PadSequences is handed more buckets than maxLength and slices the
      dictionary; otherwise the row is written unpadded. */
  lemma ProcessStayOutcome(stay: StayId, measures: seq<Measure>, maxLength: nat)
    requires measures != []
    ensures var sorted := SortByChartTime(measures);
      ProcessStay(stay, measures, maxLength) ==
        if Bucketed(sorted, sorted[0].chartTime).Len() > maxLength then Failure(DictSliced)
        else Success(RecordLine(stay, SequenceText(StayItems(measures)), sorted[|sorted| - 1].los))
  {
  }

  /** The earliest chart time among the rows of stay k. */
  ghost predicate IsEarliest(rows: seq<Row>, k: StayId, t0: Timestamp) {
    && (exists r :: r in rows && r.icustayId == k && r.chartTime == t0)
    && forall r :: r in rows && r.icustayId == k ==> t0 <= r.chartTime
  }

  lemma EarliestUnique(rows: seq<Row>, k: StayId, t1: Timestamp, t2: Timestamp)
    requires IsEarliest(rows, k, t1) && IsEarliest(rows, k, t2)
    ensures t1 == t2
  {
    var r1 :| r1 in rows && r1.icustayId == k && r1.chartTime == t1;
    var r2 :| r2 in rows && r2.icustayId == k && r2.chartTime == t2;
  }

  /** The distinct minute offsets of stay k's rows from t0. */
  ghost function StayMinutes(rows: seq<Row>, k: StayId, t0: Timestamp): set<int> {
    set r | r in rows && r.icustayId == k :: MinuteOffset(r.chartTime, t0)
  }

  /** sorted is a non-empty list of stay k's measures, sorted by chart
      time, holding exactly the stay's rows, projected. */
  ghost predicate HoldsStay(rows: seq<Row>, k: StayId, sorted: seq<Measure>) {
    && sorted != [] && SortedByTime(sorted)
    && (forall i :: 0 <= i < |sorted| ==> RowOf(k, sorted[i]) in rows)
    && (forall r :: r in rows && r.icustayId == k ==> MeasureOf(r) in sorted)
  }

  /** A stay's sorted measures are exactly its rows, projected. */
  lemma SortedGroupRows(rows: seq<Row>, k: StayId)
    requires k in StaysOf(rows)
    ensures GroupedStays(rows).Keys == StaysOf(rows)
    ensures HoldsStay(rows, k, SortByChartTime(GroupedStays(rows)[k]))
  {
    GroupedStaysOfRows(rows);
    var ms := GroupedStays(rows)[k];
    var sorted := SortByChartTime(ms);
    forall i | 0 <= i < |sorted| ensures RowOf(k, sorted[i]) in rows {
      assert sorted[i] in multiset(ms);
      GroupHoldsRows(rows, k, sorted[i]);
    }
    forall r | r in rows && r.icustayId == k ensures MeasureOf(r) in sorted {
      assert RowOf(k, MeasureOf(r)) == r;
      GroupHoldsRows(rows, k, MeasureOf(r));
      assert MeasureOf(r) in multiset(sorted);
    }
  }

  lemma HoldsStayEarliest(rows: seq<Row>, k: StayId, sorted: seq<Measure>)
    requires HoldsStay(rows, k, sorted)
    ensures IsEarliest(rows, k, sorted[0].chartTime)
  {
    var t0 := sorted[0].chartTime;
    assert RowOf(k, sorted[0]) in rows;
    forall r | r in rows && r.icustayId == k ensures t0 <= r.chartTime {
      var i :| 0 <= i < |sorted| && sorted[i] == MeasureOf(r);
      assert i == 0 || sorted[0].chartTime <= sorted[i].chartTime;
    }
  }

  lemma MinuteOfMeasure(rows: seq<Row>, k: StayId, sorted: seq<Measure>, t0: Timestamp, x: int)
    requires HoldsStay(rows, k, sorted) && x in MinutesOf(sorted, t0)
    ensures x in StayMinutes(rows, k, t0)
  {
    var m :| m in sorted && MinuteOffset(m.chartTime, t0) == x;
    var i :| 0 <= i < |sorted| && sorted[i] == m;
    var r := RowOf(k, sorted[i]);
    assert r in rows && r.icustayId == k && MinuteOffset(r.chartTime, t0) == x;
  }

  lemma MinuteOfRow(rows: seq<Row>, k: StayId, sorted: seq<Measure>, t0: Timestamp, x: int)
    requires HoldsStay(rows, k, sorted) && x in StayMinutes(rows, k, t0)
    ensures x in MinutesOf(sorted, t0)
  {
    var r :| r in rows && r.icustayId == k && MinuteOffset(r.chartTime, t0) == x;
    var m := MeasureOf(r);
    assert m in sorted && MinuteOffset(m.chartTime, t0) == x;
  }

  lemma HoldsStayMinutes(rows: seq<Row>, k: StayId, sorted: seq<Measure>, t0: Timestamp)
    requires HoldsStay(rows, k, sorted)
    ensures MinutesOf(sorted, t0) == StayMinutes(rows, k, t0)
  {
    forall x ensures x in MinutesOf(sorted, t0) <==> x in StayMinutes(rows, k, t0) {
      if x in MinutesOf(sorted, t0) {
        MinuteOfMeasure(rows, k, sorted, t0, x);
      }
      if x in StayMinutes(rows, k, t0) {
        MinuteOfRow(rows, k, sorted, t0, x);
      }
    }
  }

  lemma HoldsStayBuckets(rows: seq<Row>, k: StayId, sorted: seq<Measure>)
    requires HoldsStay(rows, k, sorted)
    ensures IsEarliest(rows, k, sorted[0].chartTime)
    ensures Bucketed(sorted, sorted[0].chartTime).Len() == |StayMinutes(rows, k, sorted[0].chartTime)|
  {
    HoldsStayEarliest(rows, k, sorted);
    HoldsStayMinutes(rows, k, sorted, sorted[0].chartTime);
    BucketCount(sorted, sorted[0].chartTime);
  }

  /** The sorted list starts at the stay's earliest chart time, and has as
      many buckets as the stay's rows have distinct minute offsets from it. */
  lemma StayBucketCount(rows: seq<Row>, k: StayId)
    requires k in StaysOf(rows)
    ensures GroupedStays(rows).Keys == StaysOf(rows)
    ensures var sorted := SortByChartTime(GroupedStays(rows)[k]);
      && sorted != []
      && IsEarliest(rows, k, sorted[0].chartTime)
      && Bucketed(sorted, sorted[0].chartTime).Len() == |StayMinutes(rows, k, sorted[0].chartTime)|
  {
    SortedGroupRows(rows, k);
    HoldsStayBuckets(rows, k, SortByChartTime(GroupedStays(rows)[k]));
  }

  /** A stay fails exactly when its rows fall on more distinct minutes from
      its earliest chart time than maxLength. */
  lemma StayFailsIff(rows: seq<Row>, maxLength: nat, k: StayId)
    requires k in StaysOf(rows)
    ensures GroupedStays(rows).Keys == StaysOf(rows)
    ensures !ProcessStay(k, GroupedStays(rows)[k], maxLength).Success? <==>
      exists t0 :: IsEarliest(rows, k, t0) && |StayMinutes(rows, k, t0)| > maxLength
  {
    StayBucketCount(rows, k);
    var ms := GroupedStays(rows)[k];
    var sorted := SortByChartTime(ms);
    ProcessStayOutcome(k, ms, maxLength);
    forall t0 | IsEarliest(rows, k, t0) ensures t0 == sorted[0].chartTime {
      EarliestUnique(rows, k, t0, sorted[0].chartTime);
    }
  }

  /** The job fails exactly when some stay's rows fall on more distinct
      minutes from its earliest chart time than maxLength. */
  lemma PipelineFailsIff(rows: seq<Row>, maxLength: nat)
    ensures RunPipeline(rows, maxLength).None? <==>
      exists k, t0 :: k in StaysOf(rows) && IsEarliest(rows, k, t0) && |StayMinutes(rows, k, t0)| > maxLength
  {
    GroupedStaysOfRows(rows);
    var outcomes := StayOutcomes(GroupedStays(rows), maxLength);
    WriteStaysNone(outcomes);
    if RunPipeline(rows, maxLength).None? {
      var k :| k in outcomes && !outcomes[k].Success?;
      StayFailsIff(rows, maxLength, k);
      var t0 :| IsEarliest(rows, k, t0) && |StayMinutes(rows, k, t0)| > maxLength;
      assert k in StaysOf(rows);
    }
    if exists k, t0 :: k in StaysOf(rows) && IsEarliest(rows, k, t0) && |StayMinutes(rows, k, t0)| > maxLength {
      var k, t0 :| k in StaysOf(rows) && IsEarliest(rows, k, t0) && |StayMinutes(rows, k, t0)| > maxLength;
      StayFailsIff(rows, maxLength, k);
      assert k in outcomes && !outcomes[k].Success?;
    }
  }

  /** The job fails as soon as one stay's outcome is a failure. */
  lemma WriteStaysNone(outcomes: map<StayId, Result<string, StageError>>)
    ensures WriteStays(outcomes).None? <==> exists k :: k in outcomes && !outcomes[k].Success?
  {
  }

  /** A job that succeeds writes one row per stay of the input. */
  lemma PipelineWritesEveryStay(rows: seq<Row>, maxLength: nat)
    requires RunPipeline(rows, maxLength).Some?
    ensures RunPipeline(rows, maxLength).value.Keys == StaysOf(rows)
  {
    GroupedStaysOfRows(rows);
  }

  /** The pairs of the rows of stay k, in input order. */
  function StayEntries(rows: seq<Row>, k: StayId): seq<Entry> {
    if rows == [] then []
    else (if rows[0].icustayId == k then [Entry(rows[0].itemId, rows[0].value)] else []) + StayEntries(rows[1..], k)
  }

  /** The offsets of a list of buckets. */
  function ItemOffsets(items: seq<(int, seq<Entry>)>): seq<int> {
    seq(|items|, i requires 0 <= i < |items| => items[i].0)
  }

  /** The pairs of a list of buckets, laid end to end. */
  function AllEntries(items: seq<(int, seq<Entry>)>): seq<Entry> {
    if items == [] then []
    else AllEntries(items[..|items| - 1]) + items[|items| - 1].1
  }

  lemma EntriesOfAppend(a: seq<Measure>, b: seq<Measure>)
    ensures EntriesOf(a + b) == EntriesOf(a) + EntriesOf(b)
  {
  }

  lemma {:induction false} StayEntriesOfGroup(rows: seq<Row>, k: StayId)
    ensures EntriesOf(ValuesFor(ProjectRows(rows), k)) == StayEntries(rows, k)
  {
    if rows != [] {
      var head := PrepareData(rows[0]);
      GroupSplit(head, ProjectRows(rows[1..]), k);
      assert head[1..] == [];
      EntriesOfAppend(ValuesFor(head, k), ValuesFor(ProjectRows(rows[1..]), k));
      StayEntriesOfGroup(rows[1..], k);
    }
  }

  /** Reordering measures reorders their pairs the same way. */
  lemma {:induction false} EntriesOfPermutation(a: seq<Measure>, b: seq<Measure>)
    requires multiset(a) == multiset(b)
    ensures multiset(EntriesOf(a)) == multiset(EntriesOf(b))
    decreases |a|
  {
    if a != [] {
      assert a[0] in multiset(b);
      var j :| 0 <= j < |b| && b[j] == a[0];
      var b' := b[..j] + b[j + 1..];
      RemoveMatching(a, b, j);
      EntriesOfPermutation(a[1..], b');
      EntriesOfHead(a);
      EntriesOfRemove(b, j);
    }
  }

  /** Taking the first measure of a and an equal one out of b leaves two
      permutations of each other. */
  lemma RemoveMatching(a: seq<Measure>, b: seq<Measure>, j: nat)
    requires multiset(a) == multiset(b) && a != [] && j < |b| && b[j] == a[0]
    ensures multiset(a[1..]) == multiset(b[..j] + b[j + 1..])
  {
    var b' := b[..j] + b[j + 1..];
    assert b == b[..j] + [b[j]] + b[j + 1..];
    assert a == [a[0]] + a[1..];
    forall x ensures multiset(a[1..])[x] == multiset(b')[x] {
      assert multiset(a)[x] == multiset{a[0]}[x] + multiset(a[1..])[x];
      assert multiset(b)[x] == multiset(b[..j])[x] + multiset{b[j]}[x] + multiset(b[j + 1..])[x];
    }
    MultisetExt(multiset(a[1..]), multiset(b'));
  }

  lemma EntriesOfHead(a: seq<Measure>)
    requires a != []
    ensures multiset(EntriesOf(a)) == multiset{EntryOf(a[0])} + multiset(EntriesOf(a[1..]))
  {
    var es, tail := EntriesOf(a), EntriesOf(a[1..]);
    assert es == [es[0]] + es[1..];
    assert es[1..] == tail;
  }

  lemma EntriesOfRemove(b: seq<Measure>, j: nat)
    requires j < |b|
    ensures multiset(EntriesOf(b)) == multiset(EntriesOf(b[..j] + b[j + 1..])) + multiset{EntryOf(b[j])}
  {
    assert b == b[..j] + [b[j]] + b[j + 1..];
    EntriesOfAppend(b[..j], [b[j]]);
    EntriesOfAppend(b[..j] + [b[j]], b[j + 1..]);
    EntriesOfAppend(b[..j], b[j + 1..]);
  }

  lemma {:induction false} AllEntriesOfTable(items: seq<(int, seq<Entry>)>, keys: seq<int>, table: map<int, seq<Entry>>)
    requires |items| == |keys|
    requires forall i :: 0 <= i < |keys| ==> keys[i] in table && items[i] == (keys[i], table[keys[i]])
    ensures AllEntries(items) == Flattened(keys, table)
  {
    if keys != [] {
      var n := |keys| - 1;
      AllEntriesOfTable(items[..n], keys[..n], table);
    }
  }

  /** The pairs of the written buckets are the pairs of the buckets' table
      in key order. */
  lemma AllEntriesOfItems(d: Buckets)
    requires d.Valid()
    ensures AllEntries(d.Items()) == Flattened(d.keys, d.table)
  {
    AllEntriesOfTable(d.Items(), d.keys, d.table);
  }

  /** The written buckets start at offset 0 and their offsets strictly
      increase. */
  lemma StayItemsOrdered(ms: seq<Measure>)
    requires ms != []
    ensures var items := StayItems(ms);
      items != [] && items[0].0 == 0 && StrictlyIncreasing(ItemOffsets(items))
  {
    var sorted := SortByChartTime(ms);
    var d := Bucketed(sorted, sorted[0].chartTime);
    BucketKeysIncreasing(sorted);
    assert ItemOffsets(d.Items()) == d.keys;
  }

  lemma BucketEntryFromRow(rows: seq<Row>, k: StayId, i: nat, j: nat)
    requires k in StaysOf(rows)
    requires GroupedStays(rows).Keys == StaysOf(rows)
    requires i < |StayItems(GroupedStays(rows)[k])| && j < |StayItems(GroupedStays(rows)[k])[i].1|
    ensures exists r :: r in rows && r.icustayId == k && Entry(r.itemId, r.value) == StayItems(GroupedStays(rows)[k])[i].1[j]
  {
    SortedGroupRows(rows, k);
    var sorted := SortByChartTime(GroupedStays(rows)[k]);
    var t0 := sorted[0].chartTime;
    var d := Bucketed(sorted, t0);
    var e := d.Items()[i].1[j];
    assert e in EntriesAt(sorted, t0, d.keys[i]);
    EntriesAtFrom(sorted, t0, d.keys[i], e);
    var n :| 0 <= n < |sorted| && EntryOf(sorted[n]) == e;
    assert RowOf(k, sorted[n]) in rows;
  }

  /** Every written bucket holds at least one pair, and each pair is that of
      one of the stay's rows. */
  lemma StayItemsFromRows(rows: seq<Row>, k: StayId)
    requires k in StaysOf(rows)
    ensures GroupedStays(rows).Keys == StaysOf(rows)
    ensures var items := StayItems(GroupedStays(rows)[k]);
      forall i :: 0 <= i < |items| ==>
        |items[i].1| > 0 &&
        forall j :: 0 <= j < |items[i].1| ==>
          exists r :: r in rows && r.icustayId == k && Entry(r.itemId, r.value) == items[i].1[j]
  {
    SortedGroupRows(rows, k);
    var sorted := SortByChartTime(GroupedStays(rows)[k]);
    BucketsNonEmpty(sorted, sorted[0].chartTime);
    var items := StayItems(GroupedStays(rows)[k]);
    forall i, j | 0 <= i < |items| && 0 <= j < |items[i].1|
      ensures exists r :: r in rows && r.icustayId == k && Entry(r.itemId, r.value) == items[i].1[j]
    {
      BucketEntryFromRow(rows, k, i, j);
    }
  }

  /** The written buckets hold the pairs of the stay's rows, each as often
      as the rows carry it. */
  lemma StayItemsEntries(rows: seq<Row>, k: StayId)
    requires k in StaysOf(rows)
    ensures GroupedStays(rows).Keys == StaysOf(rows)
    ensures multiset(AllEntries(StayItems(GroupedStays(rows)[k]))) == multiset(StayEntries(rows, k))
  {
    GroupedStaysOfRows(rows);
    var ms := GroupedStays(rows)[k];
    var sorted := SortByChartTime(ms);
    var d := Bucketed(sorted, sorted[0].chartTime);
    AllEntriesOfItems(d);
    BucketsPartitionMeasures(sorted, sorted[0].chartTime);
    EntriesOfPermutation(sorted, ms);
    GroupIsFilter(ProjectRows(rows), k);
    StayEntriesOfGroup(rows, k);
  }

  /** Row r's pair is in the bucket of its whole minutes since t0. */
  ghost predicate InMinuteBucket(items: seq<(int, seq<Entry>)>, t0: Timestamp, r: Row) {
    exists j :: 0 <= j < |items| && items[j].0 == (r.chartTime - t0) / 60 && Entry(r.itemId, r.value) in items[j].1
  }

  lemma RowInItsBucket(sorted: seq<Measure>, n: nat, r: Row)
    requires SortedByTime(sorted) && n < |sorted| && sorted[n] == MeasureOf(r)
    ensures InMinuteBucket(Bucketed(sorted, sorted[0].chartTime).Items(), sorted[0].chartTime, r)
  {
    var t0 := sorted[0].chartTime;
    var d := Bucketed(sorted, t0);
    var items := d.Items();
    MeasureInItsBucket(sorted, t0, n);
    var off := MinuteOffset(sorted[n].chartTime, t0);
    assert n == 0 || sorted[0].chartTime <= sorted[n].chartTime;
    assert off == (r.chartTime - t0) / 60;
    assert off == Offsets(sorted, t0)[n];
    assert off in d.keys;
    var j :| 0 <= j < |d.keys| && d.keys[j] == off;
    assert items[j] == (off, d.table[off]);
  }

  lemma HoldsStayPlaces(rows: seq<Row>, k: StayId, sorted: seq<Measure>)
    requires HoldsStay(rows, k, sorted)
    ensures forall r :: r in rows && r.icustayId == k ==>
      InMinuteBucket(Bucketed(sorted, sorted[0].chartTime).Items(), sorted[0].chartTime, r)
  {
    forall r | r in rows && r.icustayId == k
      ensures InMinuteBucket(Bucketed(sorted, sorted[0].chartTime).Items(), sorted[0].chartTime, r)
    {
      var n :| 0 <= n < |sorted| && sorted[n] == MeasureOf(r);
      RowInItsBucket(sorted, n, r);
    }
  }

  /** Each row of the stay has its pair in the bucket of its whole minutes
      since the stay's earliest chart time. */
  lemma StayItemsPlaceRows(rows: seq<Row>, k: StayId, t0: Timestamp)
    requires k in StaysOf(rows) && IsEarliest(rows, k, t0)
    ensures GroupedStays(rows).Keys == StaysOf(rows)
    ensures forall r :: r in rows && r.icustayId == k ==>
      InMinuteBucket(StayItems(GroupedStays(rows)[k]), t0, r)
  {
    SortedGroupRows(rows, k);
    var sorted := SortByChartTime(GroupedStays(rows)[k]);
    HoldsStayBuckets(rows, k, sorted);
    EarliestUnique(rows, k, t0, sorted[0].chartTime);
    assert StayItems(GroupedStays(rows)[k]) == Bucketed(sorted, t0).Items();
    HoldsStayPlaces(rows, k, sorted);
  }

  /** los is the LOS of one of stay k's rows with the stay's latest chart
      time. */
  ghost predicate LosOfLatestRow(rows: seq<Row>, k: StayId, los: string) {
    exists r :: r in rows && r.icustayId == k && r.los == los &&
      forall r' :: r' in rows && r'.icustayId == k ==> r'.chartTime <= r.chartTime
  }

  lemma HoldsStayLos(rows: seq<Row>, k: StayId, sorted: seq<Measure>)
    requires HoldsStay(rows, k, sorted)
    ensures LosOfLatestRow(rows, k, sorted[|sorted| - 1].los)
  {
    var last := sorted[|sorted| - 1];
    var r := RowOf(k, last);
    assert r in rows;
    forall r' | r' in rows && r'.icustayId == k ensures r'.chartTime <= r.chartTime {
      var n :| 0 <= n < |sorted| && sorted[n] == MeasureOf(r');
      assert n == |sorted| - 1 || sorted[n].chartTime <= last.chartTime;
    }
  }

  /** The LOS written is that of a row with the stay's latest chart time. */
  lemma StayLosLatest(rows: seq<Row>, k: StayId)
    requires k in StaysOf(rows)
    ensures GroupedStays(rows).Keys == StaysOf(rows)
    ensures var sorted := SortByChartTime(GroupedStays(rows)[k]);
      sorted != [] && LosOfLatestRow(rows, k, sorted[|sorted| - 1].los)
  {
    SortedGroupRows(rows, k);
    HoldsStayLos(rows, k, SortByChartTime(GroupedStays(rows)[k]));
  }

  /** Values the written row can be read back from: no ")" ends a pair
      early and no quote ends the sequence field early. */
  ghost predicate ReadableValues(rows: seq<Row>) {
    forall r :: r in rows ==> ')' !in r.value && '"' !in r.value
  }

  lemma StayItemsReadable(rows: seq<Row>, k: StayId)
    requires k in StaysOf(rows) && ReadableValues(rows)
    ensures GroupedStays(rows).Keys == StaysOf(rows)
    ensures var items := StayItems(GroupedStays(rows)[k]);
      && WellFormed(items)
      && forall i, j :: 0 <= i < |items| && 0 <= j < |items[i].1| ==> '"' !in items[i].1[j].value
  {
    StayItemsFromRows(rows, k);
    var items := StayItems(GroupedStays(rows)[k]);
    forall i, j | 0 <= i < |items| && 0 <= j < |items[i].1|
      ensures PlainValue(items[i].1[j]) && '"' !in items[i].1[j].value
    {
      var r :| r in rows && r.icustayId == k && Entry(r.itemId, r.value) == items[i].1[j];
    }
  }

  /** End to end: when the job succeeds, the row written for a stay reads
      back as that stay; as buckets keyed by whole minutes since the stay's
      earliest chart time, starting at 0 and strictly increasing; holding
      every pair of the stay's rows exactly as often as the rows do, each in
      its own minute's bucket; and with the LOS of a row taken last. */
  lemma PipelineLineReadsBack(rows: seq<Row>, maxLength: nat, k: StayId)
    requires RunPipeline(rows, maxLength).Some? && k in StaysOf(rows)
    requires ReadableValues(rows)
    ensures k in RunPipeline(rows, maxLength).value
    ensures var read := ReadLine(RunPipeline(rows, maxLength).value[k]);
      && read.Some? && read.value.0 == k
      && var items := read.value.1;
      && items != [] && items[0].0 == 0 && StrictlyIncreasing(ItemOffsets(items))
      && multiset(AllEntries(items)) == multiset(StayEntries(rows, k))
      && (forall t0, r :: IsEarliest(rows, k, t0) && r in rows && r.icustayId == k ==>
            InMinuteBucket(items, t0, r))
      && LosOfLatestRow(rows, k, read.value.2)
  {
    WrittenLine(rows, maxLength, k);
    var ms := GroupedStays(rows)[k];
    var items := StayItems(ms);
    StayItemsOrdered(ms);
    StayItemsEntries(rows, k);
    forall t0, r | IsEarliest(rows, k, t0) && r in rows && r.icustayId == k
      ensures InMinuteBucket(items, t0, r)
    {
      StayItemsPlaceRows(rows, k, t0);
    }
    StayLosLatest(rows, k);
  }

  /** The row written for a stay, as the wiring makes it, and what it reads
      back as. */
  lemma WrittenLine(rows: seq<Row>, maxLength: nat, k: StayId)
    requires RunPipeline(rows, maxLength).Some? && k in StaysOf(rows)
    requires ReadableValues(rows)
    ensures GroupedStays(rows).Keys == StaysOf(rows) && GroupedStays(rows)[k] != []
    ensures k in RunPipeline(rows, maxLength).value
    ensures var ms := GroupedStays(rows)[k];
      var sorted := SortByChartTime(ms);
      var line := RunPipeline(rows, maxLength).value[k];
      && ParseRecordLine(line) == Some((k, SequenceText(StayItems(ms)), sorted[|sorted| - 1].los))
      && ReadLine(line) == Some((k, StayItems(ms), sorted[|sorted| - 1].los))
  {
    GroupedStaysOfRows(rows);
    var ms := GroupedStays(rows)[k];
    var sorted := SortByChartTime(ms);
    var items := StayItems(ms);
    var los := sorted[|sorted| - 1].los;
    ProcessStayOutcome(k, ms, maxLength);
    assert RunPipeline(rows, maxLength).value[k] == RecordLine(k, SequenceText(items), los);
    StayItemsReadable(rows, k);
    NoQuoteInSequence(items);
    RecordLineRoundTrip(k, SequenceText(items), los);
    LineRoundTrip(k, items, los);
  }

  /** The sequence text of a stay is longer than the value of any of its
      rows. */
  lemma StayTextHoldsRow(rows: seq<Row>, r: Row)
    requires r in rows
    ensures GroupedStays(rows).Keys == StaysOf(rows)
    ensures |SequenceText(StayItems(GroupedStays(rows)[r.icustayId]))| > |r.value|
  {
    var k := r.icustayId;
    StayBucketCount(rows, k);
    var sorted := SortByChartTime(GroupedStays(rows)[k]);
    var items := StayItems(GroupedStays(rows)[k]);
    StayItemsPlaceRows(rows, k, sorted[0].chartTime);
    assert InMinuteBucket(items, sorted[0].chartTime, r);
    var j :| 0 <= j < |items| && Entry(r.itemId, r.value) in items[j].1;
    var n :| 0 <= n < |items[j].1| && items[j].1[n] == Entry(r.itemId, r.value);
    SequenceHoldsValue(items, j, n);
  }

  /** As wired, PadSequences never shortens the written sequence: a stay
      that passes it with a value of maxLength characters or more is
      written with a sequence field longer than maxLength. */
  lemma AsWrittenSequenceUnbounded(rows: seq<Row>, maxLength: nat, r: Row)
    requires RunPipeline(rows, maxLength).Some? && r in rows
    requires ReadableValues(rows)
    requires |r.value| >= maxLength
    ensures r.icustayId in RunPipeline(rows, maxLength).value
    ensures var line := RunPipeline(rows, maxLength).value[r.icustayId];
      && ParseRecordLine(line).Some?
      && |ParseRecordLine(line).value.1| > maxLength
  {
    WrittenLine(rows, maxLength, r.icustayId);
    StayTextHoldsRow(rows, r);
  }

  /** Rows all taken at one chart time give every stay a single bucket, so
      the job succeeds on them. */
  lemma SameTimeSucceeds(rows: seq<Row>, maxLength: nat)
    requires maxLength >= 1
    requires forall i, j :: 0 <= i < |rows| && 0 <= j < |rows| ==> rows[i].chartTime == rows[j].chartTime
    ensures RunPipeline(rows, maxLength).Some?
  {
    forall k, t0 | k in StaysOf(rows) && IsEarliest(rows, k, t0)
      ensures |StayMinutes(rows, k, t0)| <= maxLength
    {
      var r :| r in rows && r.icustayId == k;
      assert StayMinutes(rows, k, t0) == {MinuteOffset(r.chartTime, t0)};
    }
    PipelineFailsIff(rows, maxLength);
  }

  /** A single measurement whose value is MaxLength characters long is
      written in full: the row is not cut to MaxLength. */
  lemma AsWrittenLongValueExample()
    ensures var rows := [Row(1, 211, seq(MaxLength, _ => 'x'), 0, "2.5")];
      && RunPipeline(rows, MaxLength).Some?
      && 1 in RunPipeline(rows, MaxLength).value
      && ParseRecordLine(RunPipeline(rows, MaxLength).value[1]).Some?
      && |ParseRecordLine(RunPipeline(rows, MaxLength).value[1]).value.1| > MaxLength
  {
    var v := seq(MaxLength, _ => 'x');
    var row := Row(1, 211, v, 0, "2.5");
    SameTimeSucceeds([row], MaxLength);
    assert ReadableValues([row]) by {
      assert forall i :: 0 <= i < |v| ==> v[i] == 'x';
    }
    AsWrittenSequenceUnbounded([row], MaxLength, row);
  }

  /** No stay has two different rows at the same chart time. */
  ghost predicate NoTiesWithinStay(rows: seq<Row>) {
    forall r1, r2 :: r1 in rows && r2 in rows && r1.icustayId == r2.icustayId && r1.chartTime == r2.chartTime ==> r1 == r2
  }

  lemma SameGroups(rows: seq<Row>, rows': seq<Row>, k: StayId)
    requires multiset(rows) == multiset(rows') && k in StaysOf(rows)
    ensures GroupedStays(rows).Keys == StaysOf(rows) == StaysOf(rows') == GroupedStays(rows').Keys
    ensures multiset(GroupedStays(rows)[k]) == multiset(GroupedStays(rows')[k])
  {
    GroupedStaysOfRows(rows);
    GroupedStaysOfRows(rows');
    assert forall r :: r in rows <==> r in multiset(rows');
    forall m ensures multiset(GroupedStays(rows)[k])[m] == multiset(GroupedStays(rows')[k])[m] {
      GroupHoldsRows(rows, k, m);
      GroupHoldsRows(rows', k, m);
    }
    MultisetExt(multiset(GroupedStays(rows)[k]), multiset(GroupedStays(rows')[k]));
  }

  lemma GroupNoTies(rows: seq<Row>, k: StayId)
    requires NoTiesWithinStay(rows) && k in GroupedStays(rows)
    ensures forall x, y :: x in GroupedStays(rows)[k] && y in GroupedStays(rows)[k] && x.chartTime == y.chartTime ==> x == y
  {
    var ms := GroupedStays(rows)[k];
    forall x, y | x in ms && y in ms && x.chartTime == y.chartTime ensures x == y {
      assert x in multiset(ms) && y in multiset(ms);
      GroupHoldsRows(rows, k, x);
      GroupHoldsRows(rows, k, y);
      assert RowOf(k, x) in rows && RowOf(k, y) in rows;
    }
  }

  lemma SameStayOutcome(rows: seq<Row>, rows': seq<Row>, k: StayId, maxLength: nat)
    requires multiset(rows) == multiset(rows') && k in StaysOf(rows)
    requires NoTiesWithinStay(rows)
    ensures GroupedStays(rows).Keys == StaysOf(rows) == GroupedStays(rows').Keys
    ensures ProcessStay(k, GroupedStays(rows)[k], maxLength) == ProcessStay(k, GroupedStays(rows')[k], maxLength)
  {
    SameGroups(rows, rows', k);
    GroupNoTies(rows, k);
    var ms, ms' := GroupedStays(rows)[k], GroupedStays(rows')[k];
    SortOfReordering(ms, ms');
    SameSortSameOutcome(k, ms, ms', maxLength);
  }

  lemma SameSortSameOutcome(stay: StayId, a: seq<Measure>, b: seq<Measure>, maxLength: nat)
    requires SortByChartTime(a) == SortByChartTime(b)
    ensures ProcessStay(stay, a, maxLength) == ProcessStay(stay, b, maxLength)
  {
  }

  /** Whatever order the rows arrive in, the job writes the same rows (or
      fails alike), provided no stay has two different rows at one chart
      time; ties are kept in arrival order (see TiesFollowArrivalOrder). */
  lemma PipelineOrderInsensitive(rows: seq<Row>, rows': seq<Row>, maxLength: nat)
    requires multiset(rows) == multiset(rows')
    requires NoTiesWithinStay(rows)
    ensures RunPipeline(rows, maxLength) == RunPipeline(rows', maxLength)
  {
    GroupedStaysOfRows(rows);
    GroupedStaysOfRows(rows');
    assert StaysOf(rows) == StaysOf(rows') by {
      assert forall r :: r in rows <==> r in multiset(rows');
    }
    forall k | k in GroupedStays(rows)
      ensures ProcessStay(k, GroupedStays(rows)[k], maxLength) == ProcessStay(k, GroupedStays(rows')[k], maxLength)
    {
      SameStayOutcome(rows, rows', k, maxLength);
    }
    SameOutcomesSameRun(GroupedStays(rows), GroupedStays(rows'), maxLength);
  }

  lemma SameOutcomesSameRun(groups: map<StayId, seq<Measure>>, groups': map<StayId, seq<Measure>>, maxLength: nat)
    requires groups.Keys == groups'.Keys
    requires forall k | k in groups :: ProcessStay(k, groups[k], maxLength) == ProcessStay(k, groups'[k], maxLength)
    ensures StayOutcomes(groups, maxLength) == StayOutcomes(groups', maxLength)
  {
  }

  /** Two rows of one stay at the same chart time are written in the order
      they arrive: swapping them changes the row written. */
  lemma TiesFollowArrivalOrder()
    ensures var a, b := Row(7, 211, "80", 0, "3"), Row(7, 618, "20", 0, "3");
      RunPipeline([a, b], MaxLength) != RunPipeline([b, a], MaxLength)
  {
    var a, b := Row(7, 211, "80", 0, "3"), Row(7, 618, "20", 0, "3");
    TwoRowsLine(a, b);
    TwoRowsLine(b, a);
  }

  lemma TwoRowsGroup(a: Row, b: Row)
    requires a.icustayId == b.icustayId == 7
    ensures GroupedStays([a, b]).Keys == {7}
    ensures GroupedStays([a, b])[7] == [MeasureOf(a), MeasureOf(b)]
  {
    var rows := [a, b];
    var pairs := ProjectRows(rows);
    assert pairs == [(7, MeasureOf(a)), (7, MeasureOf(b))];
    assert StaysOf(rows) == {7} by {
      assert a in rows;
    }
    GroupedStaysOfRows(rows);
    GroupIsFilter(pairs, 7);
    assert pairs[1..][1..] == [];
    assert ValuesFor(pairs[1..], 7) == [MeasureOf(b)];
  }

  lemma TwoMeasuresBucketed(ma: Measure, mb: Measure)
    requires ma.chartTime == mb.chartTime == 0
    ensures SortByChartTime([ma, mb]) == [ma, mb]
    ensures Bucketed([ma, mb], 0).Len() == 1
    ensures Bucketed([ma, mb], 0).Items() == [(0, [EntryOf(ma), EntryOf(mb)])]
  {
    var ms := [ma, mb];
    assert ms[1..] == [mb];
    assert ms[1..][1..] == [];
    TwoMeasuresOffsets(ma, mb);
    TwoMeasuresEntries(ma, mb);
  }

  lemma TwoMeasuresOffsets(ma: Measure, mb: Measure)
    requires ma.chartTime == mb.chartTime == 0
    ensures FirstOccurrences(Offsets([ma, mb], 0)) == [0]
  {
    assert MinuteOffset(0, 0) == 0;
    assert Offsets([ma, mb], 0) == [0, 0];
    assert [0, 0][..1] == [0];
    assert [0][..0] == [];
  }

  lemma TwoMeasuresEntries(ma: Measure, mb: Measure)
    requires ma.chartTime == mb.chartTime == 0
    ensures EntriesAt([ma, mb], 0, 0) == [EntryOf(ma), EntryOf(mb)]
  {
    var ms := [ma, mb];
    assert MinuteOffset(0, 0) == 0;
    assert ms[..1] == [ma];
    assert ms[..1][..0] == [];
    assert EntriesAt(ms[..1], 0, 0) == [EntryOf(ma)];
  }

  /** Two rows of stay 7 at time 0 with plain values are written as one
      bucket at offset 0 holding their pairs in arrival order. */
  lemma TwoRowsLine(a: Row, b: Row)
    requires a.icustayId == b.icustayId == 7 && a.chartTime == b.chartTime == 0
    requires ReadableValues([a, b])
    ensures RunPipeline([a, b], MaxLength).Some? && 7 in RunPipeline([a, b], MaxLength).value
    ensures ReadLine(RunPipeline([a, b], MaxLength).value[7]) ==
      Some((7, [(0, [EntryOf(MeasureOf(a)), EntryOf(MeasureOf(b))])], b.los))
  {
    var rows := [a, b];
    SameTimeSucceeds(rows, MaxLength);
    assert 7 in StaysOf(rows) by {
      assert a in rows;
    }
    WrittenLine(rows, MaxLength, 7);
    TwoRowsGroup(a, b);
    TwoMeasuresBucketed(MeasureOf(a), MeasureOf(b));
  }

  /** PadSequences as its name and variable intend: applied to the
      formatted sequence, cutting it to maxLength characters. No stay fails. */
  function ProcessStayBounded(stay: StayId, measures: seq<Measure>, maxLength: nat): Result<string, StageError> {
    match Consolidate(stay, SortByChartTime(measures))
    case Failure(e) => Failure(e)
    case Success(sb) => Success(RecordLine(sb.stay, Pad(SequenceText(sb.buckets.Items()), maxLength), sb.los))
  }

  function BoundedOutcomes(groups: map<StayId, seq<Measure>>, maxLength: nat): map<StayId, Result<string, StageError>> {
    map k | k in groups :: ProcessStayBounded(k, groups[k], maxLength)
  }

  function RunPipelineBounded(rows: seq<Row>, maxLength: nat): Option<map<StayId, string>> {
    WriteStays(BoundedOutcomes(GroupedStays(rows), maxLength))
  }

  lemma BoundedStayLine(stay: StayId, measures: seq<Measure>, maxLength: nat)
    requires measures != []
    ensures var sorted := SortByChartTime(measures);
      ProcessStayBounded(stay, measures, maxLength) ==
        Success(RecordLine(stay, Pad(SequenceText(StayItems(measures)), maxLength), sorted[|sorted| - 1].los))
  {
  }

  /** When every stay succeeds, the job writes each stay's row. */
  lemma WriteStaysSome(outcomes: map<StayId, Result<string, StageError>>)
    requires forall k :: k in outcomes ==> outcomes[k].Success?
    ensures WriteStays(outcomes).Some?
    ensures WriteStays(outcomes).value.Keys == outcomes.Keys
    ensures forall k :: k in outcomes ==> WriteStays(outcomes).value[k] == outcomes[k].value
  {
  }

  lemma BoundedPipelineWrites(rows: seq<Row>, maxLength: nat)
    ensures GroupedStays(rows).Keys == StaysOf(rows)
    ensures RunPipelineBounded(rows, maxLength).Some?
    ensures RunPipelineBounded(rows, maxLength).value.Keys == StaysOf(rows)
    ensures forall k :: k in StaysOf(rows) ==>
      RunPipelineBounded(rows, maxLength).value[k] == BoundedOutcomes(GroupedStays(rows), maxLength)[k].value
  {
    GroupedStaysOfRows(rows);
    var groups := GroupedStays(rows);
    var outcomes := BoundedOutcomes(groups, maxLength);
    forall k | k in outcomes ensures outcomes[k].Success? {
      BoundedStayLine(k, groups[k], maxLength);
    }
    WriteStaysSome(outcomes);
  }

  /** With padding applied to the formatted sequence, the job never fails,
      writes one row per stay, and each row's sequence field is the stay's
      full sequence text cut to exactly min(its length, maxLength)
      characters, so it is untouched when it fits. */
  lemma BoundedPipelineLines(rows: seq<Row>, maxLength: nat, k: StayId)
    requires k in StaysOf(rows) && ReadableValues(rows)
    ensures RunPipelineBounded(rows, maxLength).Some?
    ensures RunPipelineBounded(rows, maxLength).value.Keys == StaysOf(rows)
    ensures var full := SequenceText(StayItems(GroupedStays(rows)[k]));
      var read := ParseRecordLine(RunPipelineBounded(rows, maxLength).value[k]);
      && read.Some? && read.value.0 == k
      && |read.value.1| <= maxLength
      && |read.value.1| == (if |full| <= maxLength then |full| else maxLength)
      && read.value.1 <= full
      && (|full| <= maxLength ==> read.value.1 == full)
  {
    BoundedPipelineWrites(rows, maxLength);
    GroupedStaysOfRows(rows);
    var ms := GroupedStays(rows)[k];
    var sorted := SortByChartTime(ms);
    var items := StayItems(ms);
    var cut := Pad(SequenceText(items), maxLength);
    BoundedStayLine(k, ms, maxLength);
    assert BoundedOutcomes(GroupedStays(rows), maxLength)[k].value == RecordLine(k, cut, sorted[|sorted| - 1].los);
    StayItemsReadable(rows, k);
    NoQuoteInSequence(items);
    RecordLineRoundTrip(k, cut, sorted[|sorted| - 1].los);
  }

}
