# ICU-stay sequence pipeline, modelled in Dafny

`train_test_csv_creation.py` is an Apache Beam job. It reads ICU chart events (one row per measurement: `ICUSTAY_ID`, `ITEMID`, `VALUE`, `CHARTTIME`, `LOS`) and writes one CSV row per ICU stay:

```
icustay_id,"[[minute,(itemid,value),...],...]",los
```

The stages, in the order `run_pipeline` wires them, are:

1. **PrepareData** keys each row by its stay.
2. **FormatData** and **CombinePerKey** group the measures of each stay by list concatenation.
3. **SortValues** sorts each stay's measures by chart time, stably.
4. **ConsolidateMeasures** puts each `(itemid, value)` pair into a bucket for its whole minutes since the stay's first measure.
5. **PadSequences** is meant to cut its input to at most 143210 elements. As wired it receives the bucket dict: it raises when a stay has more than 143210 buckets, and otherwise passes the dict through unchanged.
6. **FormatOutput** writes the buckets as text.

This project models each stage in Dafny and proves what the stages promise. It also proves what the whole job then writes.

## How the model is organised

| module | what it models |
|---|---|
| `Records` | Rows, measures and pairs. `PrepareData` is a function. |
| `Grouping` | The FormatData and CombinePerKey lambdas: `[m]` per pair, then `sum(values, [])` per key. |
| `Sorting` | `sorted(..., key=CHARTTIME)`, written as a stable insertion sort. It is shown to be the only stable sort by time, so it stands for Python's `sorted` whatever algorithm that uses. |
| `OrderedDict` | A Python dict that remembers insertion order: the key order plus the table. `Put` is `d[k] = v`. |
| `Consolidation` | `ConsolidateMeasures.process`. |
| `Padding` | `PadSequences.process`. |
| `Decimal` | `str(int)`, as the f-strings write numbers, and the reading back of that text. |
| `Serialization` | `FormatOutput.process`. |
| `SequenceGrammar` | A reader for the rows FormatOutput writes. It exists to prove that the text is unambiguous and carries exactly the buckets. |
| `Pipeline` | The composition in `run_pipeline`: lines 78-87, without the read and write steps. |

### Consolidation

`ConsolidateMeasures.process` is a `method` whose loop rebuilds the Python dict step by step. Its contract ties the result to the function `Consolidate`. That function is defined through the reference definition `Bucketed`:

- one key per distinct minute offset, in order of first occurrence;
- each key holds the pairs of the measures with that offset, in list order.

### FormatOutput

`FormatOutput.process` is a `method` with the same loop over `consolidated.items()`. It is proved equal to the function `OutputLine`.

### Other modelling choices

- **Timestamps** are integer seconds.
- **`int((t - t0).total_seconds() / 60)`** is integer division truncating toward zero (`TruncDiv`). On sorted input the argument is never negative, so this agrees with Euclidean division there.
- **`VALUE` and `LOS`** are opaque strings. `ICUSTAY_ID` and `ITEMID` are integers, written as Python's `str` writes them.
- **The loop variable `los`** leaks out of the loop in ConsolidateMeasures, so the LOS written for a stay is the one of its last measure in sorted order.
- **An empty measure list** makes `measures[0]` raise, modelled as `Failure(EmptyMeasureList)`. Grouping never produces one, which is proved.
- **The job as a whole** is `RunPipeline`, which returns `None` when any stay's transform fails; Beam then fails the job and writes nothing. Otherwise it returns a map from stay to its written row. The order in which Beam writes the rows is not modelled.

### Wiring as written

`run_pipeline` places PadSequences before FormatOutput (lines 84-86). PadSequences therefore receives the bucket dict, and `len` counts buckets. When a stay has more than 143210 buckets, `padded_sequence[:max_length]` slices a dict and raises, and the job fails. This is `Padding.PadBuckets` with its `Failure(DictSliced)` result. Otherwise PadSequences passes the dict through unchanged, and the row text is never cut. The corrected pipeline, which pads the formatted text, is modelled beside it (see Findings).

### Determinism

One would expect the job to be deterministic and independent of input order. The code gives less:

- **What holds:** within a stay, when no two measures share a chart time, any reordering of the input gives the same output (`Pipeline.PipelineOrderInsensitive`).
- **What does not:** measures with equal chart times keep, through the stable sort, the order in which they reached `sum(values, [])`. Beam's CombinePerKey promises no such order. So rows with equal chart times can be written in different orders, with different LOS values, even for one fixed input (`Pipeline.TiesFollowArrivalOrder`).

The model's grouping fixes each stay's order to input order (see Left out). Any order Beam can produce for a stay is the input order of some permutation of the rows. So `Pipeline.PipelineOrderInsensitive` covers every order Beam can produce, and `Pipeline.TiesFollowArrivalOrder` shows two of them that differ.

## Model

| member | source | states |
|---|---|---|
| `Records.PrepareData` | train_test_csv_creation.py:7-9 | One keyed pair per row, from which the row is rebuilt exactly: the projection loses nothing. |
| `Records.ProjectRows` | train_test_csv_creation.py:80 | The PrepareData stage maps the rows one for one, in order, and each pair gives back its row. |
| `Grouping.SumAppend` | train_test_csv_creation.py:82 | `sum(values, [])` distributes over splitting its list of lists. Merging partial sums in any grouping gives the same concatenation. |
| `Grouping.Sum` | train_test_csv_creation.py:82 | `sum(values, [])` as a left fold of concatenation. What it computes is stated by `Grouping.SumAppend` and `Grouping.SumOfWrapped`. |
| `Grouping.SumOfWrapped` | train_test_csv_creation.py:81-82 | Concatenating the one-element lists of key k, in the order they reach the combiner, gives exactly the values of k in that order. |
| `Grouping.GroupByKey` | train_test_csv_creation.py:81-82 | FormatData followed by CombinePerKey has exactly the keys of the pairs. |
| `Grouping.GroupIsFilter` | train_test_csv_creation.py:81-82 | Each key's combined list is non-empty and holds the input's values for that key, in the order they reach the combiner, which the model takes to be input order. |
| `Grouping.GroupCount` | train_test_csv_creation.py:81-82 | Each value occurs in key k's list exactly as often as the pair (k, value) occurs in the input: nothing lost, nothing duplicated. |
| `Grouping.GroupPermutationInvariant` | train_test_csv_creation.py:81-82 | Reordering the input changes neither the keys nor the multiset of values under each key. |
| `Sorting.Insert` | train_test_csv_creation.py:83 | Insertion adds exactly the one measure to the multiset. |
| `Sorting.InsertSorted` | train_test_csv_creation.py:83 | Inserting into a list sorted by chart time keeps it sorted. |
| `Sorting.InsertStable` | train_test_csv_creation.py:83 | Insertion puts the new measure before the equal-time measures already there, and leaves every other time unchanged. |
| `Sorting.SortByChartTime` | train_test_csv_creation.py:83 | The result is non-decreasing in chart time and a permutation of the input. Measures with equal chart times keep their input order. |
| `Sorting.StableSortUnique` | train_test_csv_creation.py:83 | Any sorted, stable arrangement of the input equals SortByChartTime, so the model fixes Python's `sorted` output exactly. |
| `Sorting.SortOfReordering` | train_test_csv_creation.py:83 | Two orders of the same measures sort to the same list when no two measures share a chart time. |
| `OrderedDict.Dict.Put` | train_test_csv_creation.py:27-29 | `d[k] = v` updates the table. A new key is added at the end of the key order; an existing key keeps its place. |
| `OrderedDict.Dict.Items` | train_test_csv_creation.py:37 | `items()` yields each key once, exactly the dict's keys, each with its value, in insertion order. |
| `OrderedDict.Empty` | train_test_csv_creation.py:15 | `{}` is a valid dict with no keys. |
| `Consolidation.TruncDiv` | train_test_csv_creation.py:26 | `int(x / 60)` is the quotient rounded toward zero, for negative x as well as positive: the remainder takes the sign of x. |
| `Consolidation.MinuteOffset` | train_test_csv_creation.py:26 | At or after t0 the offset is the non-negative whole minutes `(t - t0) div 60`. Before t0 it is the negated whole minutes, counted toward t0. |
| `Consolidation.MinuteOffsetMonotone` | train_test_csv_creation.py:26 | A later chart time never gets a smaller minute offset. |
| `Consolidation.OffsetsOfSorted` | train_test_csv_creation.py:18-26 | On a sorted stay with t0 its first chart time: the first offset is 0, every offset is `(t - t0) div 60` and non-negative, and the offsets are non-decreasing. |
| `Consolidation.FirstOccurrences` | train_test_csv_creation.py:27-28 | The dict's keys have no duplicates and are exactly the offsets that occur. |
| `Consolidation.FirstOccurrencesIncreasing` | train_test_csv_creation.py:27-28 | For non-decreasing offsets, the keys come out strictly increasing, starting at the first offset and ending at the last. |
| `Consolidation.BucketedSnoc` | train_test_csv_creation.py:27-29 | One more measure appends its pair to the bucket of its offset. The bucket is opened at the end of the key order if it is new. Every other bucket is unchanged. |
| `Consolidation.BucketKeysIncreasing` | train_test_csv_creation.py:18-29 | For a sorted stay, the bucket keys start at 0 and strictly increase. |
| `Consolidation.MeasureInItsBucket` | train_test_csv_creation.py:22-29 | Every measure's pair is in the bucket whose key is its offset. |
| `Consolidation.EntriesAtFrom` | train_test_csv_creation.py:22-29 | Every pair in a bucket comes from one of the measures. |
| `Consolidation.BucketsNonEmpty` | train_test_csv_creation.py:27-29 | No bucket is empty. |
| `Consolidation.BucketCount` | train_test_csv_creation.py:22-29 | The number of buckets is the number of distinct minute offsets. |
| `Consolidation.BucketsPartitionMeasures` | train_test_csv_creation.py:22-29 | The buckets together hold exactly the pairs of the measures, each as often as it occurs. The pair count equals the measure count. |
| `Consolidation.Consolidate` | train_test_csv_creation.py:12-30 | The transform fails exactly on an empty list. Otherwise it keeps the stay id, yields a valid dict, and carries the LOS of the last measure. |
| `Consolidation.ConsolidateStep` | train_test_csv_creation.py:27-29 | One loop pass (open the bucket if new, then append) turns the buckets of the first i measures into those of the first i+1. |
| `Consolidation.ConsolidateMeasures` | train_test_csv_creation.py:12-30 | The loop builds exactly the buckets Consolidate describes, with the LOS of the last measure, and raises on an empty list. |
| `Padding.Pad` | train_test_csv_creation.py:44-49 | The result has length `min(|s|, max_length)`, is a prefix of s, and is s itself when s fits. |
| `Padding.PadIdempotent` | train_test_csv_creation.py:44-49 | Padding twice equals padding once. |
| `Padding.PadBuckets` | train_test_csv_creation.py:44-49 | On the bucket dict it is given as wired: it fails exactly when there are more buckets than max_length, because slicing a dict raises. Otherwise it passes the dict through unchanged. |
| `Decimal.NatToString` | train_test_csv_creation.py:38-41 | `str(n)` is a non-empty string of digits with no leading zero. |
| `Decimal.IntToString` | train_test_csv_creation.py:38-41 | `str(n)` starts with a digit or a minus sign. |
| `Decimal.NatToStringValue` | train_test_csv_creation.py:38-41 | The digits written for n spell n. |
| `Decimal.ParseIntRoundTrip` | train_test_csv_creation.py:38-41 | Reading back `str(n)` gives n and stops exactly where the number's text stops. |
| `Serialization.SequenceText` | train_test_csv_creation.py:40 | The sequence is bracketed, and no buckets gives `"[]"`. |
| `Serialization.RecordLine` | train_test_csv_creation.py:41 | `f'{icustay_id},"{padded_sequence}",{los}'`. That it splits back into its three fields is stated by `SequenceGrammar.RecordLineRoundTrip`. |
| `Serialization.OutputLine` | train_test_csv_creation.py:33-41 | The row FormatOutput yields for one stay's buckets. That it reads back as the stay, its buckets and its LOS is stated by `SequenceGrammar.LineRoundTrip`. |
| `Serialization.FormatOutput` | train_test_csv_creation.py:33-41 | The loop writes exactly `id,"[[off,(id,val),...],...]",los` with the buckets in dict order. |
| `Serialization.NoQuoteInSequence` | train_test_csv_creation.py:38-41 | The sequence text contains no double quote unless some value does. |
| `Serialization.SequenceHoldsValue` | train_test_csv_creation.py:36-40 | The sequence text is longer than any value it carries. |
| `SequenceGrammar.EntryRoundTrip` | train_test_csv_creation.py:38 | The text `(itemid,value)` reads back as that pair when the value has no `)`. |
| `SequenceGrammar.EntriesRoundTrip` | train_test_csv_creation.py:38 | A comma-joined list of pair texts reads back as exactly those pairs, in order. |
| `SequenceGrammar.BucketRoundTrip` | train_test_csv_creation.py:39 | `[time_diff,measures_str]` reads back as the offset and its pairs. |
| `SequenceGrammar.BucketsRoundTrip` | train_test_csv_creation.py:40 | A comma-joined list of bucket texts reads back as exactly those buckets, in order. |
| `SequenceGrammar.SequenceRoundTrip` | train_test_csv_creation.py:36-40 | The whole sequence text reads back as exactly the buckets, with nothing left over. |
| `SequenceGrammar.RecordLineRoundTrip` | train_test_csv_creation.py:41 | A row splits back into stay id, sequence and LOS when the sequence has no quote. |
| `SequenceGrammar.LineRoundTrip` | train_test_csv_creation.py:33-41 | A whole written row reads back as the stay, its buckets and its LOS. |
| `Pipeline.ProcessStay` | train_test_csv_creation.py:83-86 | One stay's path through SortValues, ConsolidateMeasures, PadSequences on the dict, and FormatOutput. It fails exactly when the stay's rows span more than max_length distinct minutes (`Pipeline.StayFailsIff`). When the whole job succeeds, its row reads back as the stay, its full uncut buckets and the LOS of its latest measure (`Pipeline.WrittenLine`). |
| `Pipeline.RunPipeline` | train_test_csv_creation.py:78-87 | The job as wired: nothing is written when any stay fails, otherwise one row per stay. Its meaning is stated by `Pipeline.PipelineFailsIff`, `Pipeline.PipelineWritesEveryStay` and `Pipeline.PipelineLineReadsBack`. |
| `Pipeline.ProcessStayBounded` | train_test_csv_creation.py:44-49 | One stay with PadSequences applied to the formatted sequence text. Its outcome is stated by `Pipeline.BoundedPipelineLines`: it never fails, and the sequence field is the full text cut to exactly min(its length, max_length) characters. |
| `Pipeline.RunPipelineBounded` | train_test_csv_creation.py:84-86 | The job with the corrected wiring. Its meaning is stated by `Pipeline.BoundedPipelineWrites` and `Pipeline.BoundedPipelineLines`. |
| `Pipeline.ProjectRowsMultiset` | train_test_csv_creation.py:80 | Each keyed pair occurs as often as the row it came from. |
| `Pipeline.GroupHoldsRows` | train_test_csv_creation.py:80-82 | After grouping, each measure occurs in its stay's list exactly as often as its row occurs in the input. |
| `Pipeline.GroupedStaysOfRows` | train_test_csv_creation.py:80-82 | There is one group per stay that has rows, and none is empty, so the `measures[0]` failure never happens in the job. |
| `Pipeline.SortedGroupRows` | train_test_csv_creation.py:80-83 | The sorted group of stay k is non-empty and sorted, and holds exactly the measures of k's rows. |
| `Pipeline.StayBucketCount` | train_test_csv_creation.py:80-85 | A stay's bucket count is the number of distinct whole minutes of its rows, counted from its earliest chart time. |
| `Pipeline.StayFailsIff` | train_test_csv_creation.py:84-86 | A stay's transform fails exactly when its rows span more than max_length distinct minutes from its earliest time. |
| `Pipeline.PipelineFailsIff` | train_test_csv_creation.py:78-87 | The job fails exactly when some stay's rows span more than max_length distinct minutes. |
| `Pipeline.PipelineWritesEveryStay` | train_test_csv_creation.py:78-87 | A job that succeeds writes exactly one row per stay of the input. |
| `Pipeline.StayEntriesOfGroup` | train_test_csv_creation.py:80-82 | The pairs of a stay's group are the pairs of its rows, in the order they reached the combiner. |
| `Pipeline.EntriesOfPermutation` | train_test_csv_creation.py:83 | Sorting the measures does not change the multiset of their pairs. |
| `Pipeline.AllEntriesOfItems` | train_test_csv_creation.py:37 | Iterating `items()` visits the pairs of the buckets in key order. |
| `Pipeline.StayItemsOrdered` | train_test_csv_creation.py:18-29 | The written buckets start at offset 0, and their offsets strictly increase. |
| `Pipeline.StayItemsFromRows` | train_test_csv_creation.py:80-84 | Every written bucket is non-empty, and each of its pairs comes from a row of that stay. |
| `Pipeline.StayItemsEntries` | train_test_csv_creation.py:80-84 | The written buckets hold exactly the pairs of the stay's rows, each as often as the rows carry it. |
| `Pipeline.RowInItsBucket` | train_test_csv_creation.py:22-29 | A measure's pair is in the written bucket for its whole minutes since t0. |
| `Pipeline.StayItemsPlaceRows` | train_test_csv_creation.py:80-84 | Every row of a stay has its pair in the bucket keyed by its whole minutes since the stay's earliest chart time. |
| `Pipeline.HoldsStayLos` | train_test_csv_creation.py:22-30 | The LOS left by the loop belongs to a row with the stay's latest chart time. |
| `Pipeline.StayLosLatest` | train_test_csv_creation.py:22-30 | The LOS written for a stay is that of one of its rows with the latest chart time. |
| `Pipeline.StayItemsReadable` | train_test_csv_creation.py:36-40 | With no `)` or `"` in any value, a stay's buckets meet the conditions for reading back. |
| `Pipeline.WrittenLine` | train_test_csv_creation.py:78-87 | The row written for stay k splits into k, the full sequence text of its buckets, and its LOS, and reads back as those buckets. |
| `Pipeline.PipelineLineReadsBack` | train_test_csv_creation.py:78-87 | Each written row reads back as follows: its stay id; buckets starting at 0 with strictly increasing offsets, holding exactly the stay's pairs, each row's pair in its minute's bucket; and the LOS of a latest row. |
| `Pipeline.StayTextHoldsRow` | train_test_csv_creation.py:36-40 | A stay's sequence text is longer than any of its rows' values. |
| `Pipeline.AsWrittenSequenceUnbounded` | train_test_csv_creation.py:84-86 | As wired, a successful job can write a sequence longer than max_length: a value at least max_length long is never cut. |
| `Pipeline.AsWrittenLongValueExample` | train_test_csv_creation.py:84-86 | One row whose value is 143210 characters: the job succeeds and writes a sequence longer than 143210 characters. |
| `Pipeline.SameTimeSucceeds` | train_test_csv_creation.py:84-86 | When all rows share one chart time, the job succeeds for any max_length of at least 1: no stay has more than one bucket to slice. |
| `Pipeline.SameGroups` | train_test_csv_creation.py:80-82 | Two orders of the same rows give the same stays, with the same multiset of measures per stay. |
| `Pipeline.GroupNoTies` | train_test_csv_creation.py:80-82 | Without equal-time rows within a stay, no group holds two different measures with one chart time. |
| `Pipeline.SameStayOutcome` | train_test_csv_creation.py:80-86 | Without ties, each stay's outcome is the same for any order of the rows. |
| `Pipeline.PipelineOrderInsensitive` | train_test_csv_creation.py:78-87 | Without equal-time rows within a stay, any reordering of the input gives the same output. |
| `Pipeline.TiesFollowArrivalOrder` | train_test_csv_creation.py:83 | Two rows of one stay at one time, reaching the combiner in the two possible orders, give different output rows. Tied rows are written in the order the combiner received them, which Beam leaves open. |
| `Pipeline.TwoRowsLine` | train_test_csv_creation.py:78-86 | Two rows of stay 7 at time 0 are written as one bucket at offset 0. It holds their pairs in the order they reached the combiner and carries the LOS of the one that came second. |
| `Pipeline.BoundedPipelineWrites` | train_test_csv_creation.py:84-86 | With the corrected wiring the job never fails, and it writes one row per stay. |
| `Pipeline.BoundedPipelineLines` | train_test_csv_creation.py:84-86 | With the corrected wiring, the job never fails. Each row's sequence field is a prefix of the full text exactly min(length of the full text, max_length) characters long, so it is the full text when that fits and is cut to max_length otherwise. |

## Left out

- `datav4.py` and `datav7.py` are not part of this model. They hold BigQuery queries, a Tkinter interface, plots and PDF export.
- Beam I/O and execution are not modelled: `PipelineOptions`, `ReadFromBigQuery`, `WriteToText`, the CSV header, sharding, the Dataflow runner and the two `run_pipeline` calls (lines 52-93). The input is a sequence of rows; the output is a map from stay to its row, or nothing when the job fails.
- `datetime.strptime` with its `%z` time zone is not modelled (lines 20 and 25). Chart times are integer seconds.
- The sort at line 83 compares the raw `CHARTTIME` values before parsing. The model orders them as integer seconds.
- `total_seconds() / 60` is floating-point division. The model divides integers exactly, truncating toward zero. Rounding of very large second counts is not modelled.
- CSV quoting by readers of the output is not modelled. The reader here needs values without `)` or `"` (`ReadableValues`). For other values the rows are written as the code writes them, but they are not shown to read back.
- The order in which Beam emits the stays' rows is not modelled. Rows are keyed by stay.
- Grouping.GroupByKey: fixes the order of each stay's measures to input order. Beam's CombinePerKey promises no order, so in the program, for rows of one stay with equal chart times, the order of their pairs and the LOS written are unspecified, even for one fixed input. `Pipeline.PipelineOrderInsensitive` still covers every order Beam can produce, because any per-stay order is the input order of some permutation of the rows.

## Findings

| source | as written | input that shows it | evidently intended | confidence | as-written member | corrected member |
|---|---|---|---|---|---|---|
| train_test_csv_creation.py:84-86 | PadSequences runs before FormatOutput, so it receives the bucket dict. `len` counts buckets, a dict with more than 143210 buckets makes `[:max_length]` raise, and the formatted row is never cut. | One row whose VALUE is 143210 characters long: the job succeeds, and the written sequence is longer than 143210 characters. A stay whose rows span 143211 distinct minutes fails the whole job (`Pipeline.PipelineFailsIff`). | Cut the formatted sequence text to max_length characters, as the stage's name and its `padded_sequence` variable say. | not executed | `Pipeline.AsWrittenLongValueExample` | `Pipeline.BoundedPipelineLines` |

Both halves are modelled:

- **As wired:** `RunPipeline` builds on `Padding.PadBuckets`. `Pipeline.AsWrittenSequenceUnbounded` shows that its rows are unbounded in general.
- **Corrected:** `RunPipelineBounded` applies `Padding.Pad` to the formatted sequence text. `Pipeline.BoundedPipelineWrites` and `Pipeline.BoundedPipelineLines` prove that it never fails, writes every stay, and keeps each sequence within max_length characters as a prefix of the full text.
