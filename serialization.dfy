/**
  FormatOutput (train_test_csv_creation.py:33-41): the buckets of a stay are
  written as [[offset,(itemid,value),...],...] and put in a CSV row
  id,"sequence",los.
*/
module Serialization {
  import opened Records
  import opened Decimal
  import opened Consolidation

  /** sep.join(parts). */
  function Join(sep: string, parts: seq<string>): string {
    if |parts| == 0 then ""
    else if |parts| == 1 then parts[0]
    else parts[0] + sep + Join(sep, parts[1..])
  }

  /** f"({itemid},{value})". */
  function EntryText(e: Entry): string {
    "(" + IntToString(e.itemId) + "," + e.value + ")"
  }

  /** ",".join of the pairs of one bucket. */
  function EntriesText(es: seq<Entry>): string {
    Join(",", seq(|es|, i requires 0 <= i < |es| => EntryText(es[i])))
  }

  /** f"[{time_diff},{measures_str}]". */
  function BucketText(timeDiff: int, es: seq<Entry>): string {
    "[" + IntToString(timeDiff) + "," + EntriesText(es) + "]"
  }

  function BucketTexts(items: seq<(int, seq<Entry>)>): seq<string> {
    seq(|items|, i requires 0 <= i < |items| => BucketText(items[i].0, items[i].1))
  }

  lemma BucketTextsAppend(items: seq<(int, seq<Entry>)>, x: (int, seq<Entry>))
    ensures BucketTexts(items + [x]) == BucketTexts(items) + [BucketText(x.0, x.1)]
  {
    var a, b := BucketTexts(items + [x]), BucketTexts(items) + [BucketText(x.0, x.1)];
    assert |a| == |b|;
    forall j | 0 <= j < |a| ensures a[j] == b[j] {
      if j < |items| {
        assert (items + [x])[j] == items[j];
      }
    }
  }

  lemma BucketTextsSnoc(items: seq<(int, seq<Entry>)>, i: nat)
    requires i < |items|
    ensures BucketTexts(items[..i + 1]) == BucketTexts(items[..i]) + [BucketText(items[i].0, items[i].1)]
  {
    assert items[..i + 1] == items[..i] + [items[i]];
    BucketTextsAppend(items[..i], items[i]);
  }

  /** "[" + ",".join(sequences) + "]": bracketed, and "[]" when there are no
      buckets. */
  function SequenceText(items: seq<(int, seq<Entry>)>): (s: string)
    ensures |s| >= 2 && s[0] == '[' && s[|s| - 1] == ']'
    ensures items == [] ==> s == "[]"
  {
    "[" + Join(",", BucketTexts(items)) + "]"
  }

  /** f'{icustay_id},"{padded_sequence}",{los}'. */
  function RecordLine(stay: StayId, sequence: string, los: string): string {
    IntToString(stay) + ",\"" + sequence + "\"," + los
  }

  /** The row FormatOutput yields for one stay. */
  function OutputLine(sb: StayBuckets): string
    requires sb.buckets.Valid()
  {
    RecordLine(sb.stay, SequenceText(sb.buckets.Items()), sb.los)
  }

  /** FormatOutput.process. */
  method FormatOutput(sb: StayBuckets) returns (line: string)
    requires sb.buckets.Valid()
    ensures line == OutputLine(sb)
  {
    var items := sb.buckets.Items();
    var sequences: seq<string> := [];
    for i := 0 to |items|
      invariant sequences == BucketTexts(items[..i])
    {
      var (timeDiff, measures) := items[i];
      var measuresStr := EntriesText(measures);
      BucketTextsSnoc(items, i);
      sequences := sequences + ["[" + IntToString(timeDiff) + "," + measuresStr + "]"];
    }
    assert items[..|items|] == items;
    var paddedSequence := "[" + Join(",", sequences) + "]";
    line := IntToString(sb.stay) + ",\"" + paddedSequence + "\"," + sb.los;
  }

  lemma {:induction false} JoinAvoids(sep: string, parts: seq<string>, c: char)
    requires c !in sep
    requires forall i :: 0 <= i < |parts| ==> c !in parts[i]
    ensures c !in Join(sep, parts)
  {
    if |parts| > 1 {
      JoinAvoids(sep, parts[1..], c);
    }
  }

  lemma {:induction false} JoinHolds(sep: string, parts: seq<string>, i: nat)
    requires i < |parts|
    ensures |Join(sep, parts)| >= |parts[i]|
  {
    if |parts| > 1 && i > 0 {
      JoinHolds(sep, parts[1..], i - 1);
    }
  }

  lemma NoQuoteInNumber(n: int)
    ensures '"' !in IntToString(n)
  {
    if n < 0 {
      assert IntToString(n) == "-" + NatToString(-n);
    }
  }

  /** The text of a pair has a quote only if its value has one. */
  lemma NoQuoteInEntries(es: seq<Entry>)
    requires forall j :: 0 <= j < |es| ==> '"' !in es[j].value
    ensures '"' !in EntriesText(es)
  {
    var texts := seq(|es|, i requires 0 <= i < |es| => EntryText(es[i]));
    forall j | 0 <= j < |es| ensures '"' !in texts[j] {
      NoQuoteInNumber(es[j].itemId);
    }
    JoinAvoids(",", texts, '"');
  }

  /** Unless a value holds a quote, the sequence text has none, so the
      quoted field of the row ends where the sequence ends. */
  lemma NoQuoteInSequence(items: seq<(int, seq<Entry>)>)
    requires forall i, j :: 0 <= i < |items| && 0 <= j < |items[i].1| ==> '"' !in items[i].1[j].value
    ensures '"' !in SequenceText(items)
  {
    var texts := BucketTexts(items);
    forall i | 0 <= i < |items| ensures '"' !in texts[i] {
      NoQuoteInNumber(items[i].0);
      NoQuoteInEntries(items[i].1);
    }
    JoinAvoids(",", texts, '"');
  }

  /** The sequence text is longer than any value it carries: nothing in
      FormatOutput shortens a value. */
  lemma SequenceHoldsValue(items: seq<(int, seq<Entry>)>, i: nat, j: nat)
    requires i < |items| && j < |items[i].1|
    ensures |SequenceText(items)| > |items[i].1[j].value|
  {
    var es := items[i].1;
    var texts := seq(|es|, k requires 0 <= k < |es| => EntryText(es[k]));
    JoinHolds(",", texts, j);
    JoinHolds(",", BucketTexts(items), i);
  }
}
