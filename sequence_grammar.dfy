/**
  The grammar of the sequence FormatOutput writes:

    sequence ::= "[" [ bucket ( "," bucket )* ] "]"
    bucket   ::= "[" int "," entry ( "," entry )* "]"
    entry    ::= "(" int "," value ")"

  with a value running up to the next ")". A reader for it, and the proof
  that reading back the text of well-formed buckets gives those buckets.
*/
module SequenceGrammar {
  import opened Wrappers
  import opened Records
  import opened Decimal
  import opened Serialization

  /** The position of the first c in s. */
  function IndexOf(s: string, c: char): (r: Option<nat>)
    ensures r.Some? ==> r.value < |s| && s[r.value] == c && c !in s[..r.value]
    ensures r.None? ==> c !in s
  {
    if s == [] then None
    else if s[0] == c then Some(0)
    else
      match IndexOf(s[1..], c)
      case None => None
      case Some(j) => assert s[..j + 1] == [s[0]] + s[1..][..j]; Some(j + 1)
  }

  function ParseEntry(s: string): (r: Option<(Entry, string)>)
    ensures r.Some? ==> |r.value.1| < |s|
  {
    if |s| == 0 || s[0] != '(' then None
    else
      match ParseInt(s[1..])
      case None => None
      case Some((id, rest)) =>
        if |rest| == 0 || rest[0] != ',' then None
        else
          var body := rest[1..];
          match IndexOf(body, ')')
          case None => None
          case Some(j) => Some((Entry(id, body[..j]), body[j + 1..]))
  }

  function ParseEntries(s: string): (r: Option<(seq<Entry>, string)>)
    ensures r.Some? ==> |r.value.1| < |s|
    decreases |s|
  {
    match ParseEntry(s)
    case None => None
    case Some((e, rest)) =>
      if |rest| > 0 && rest[0] == ',' then
        match ParseEntries(rest[1..])
        case None => None
        case Some((es, rest2)) => Some(([e] + es, rest2))
      else
        Some(([e], rest))
  }

  function ParseBucket(s: string): (r: Option<((int, seq<Entry>), string)>)
    ensures r.Some? ==> |r.value.1| < |s|
  {
    if |s| == 0 || s[0] != '[' then None
    else
      match ParseInt(s[1..])
      case None => None
      case Some((off, rest)) =>
        if |rest| == 0 || rest[0] != ',' then None
        else
          match ParseEntries(rest[1..])
          case None => None
          case Some((es, rest2)) =>
            if |rest2| == 0 || rest2[0] != ']' then None
            else Some(((off, es), rest2[1..]))
  }

  function ParseBuckets(s: string): (r: Option<(seq<(int, seq<Entry>)>, string)>)
    ensures r.Some? ==> |r.value.1| < |s|
    decreases |s|
  {
    match ParseBucket(s)
    case None => None
    case Some((b, rest)) =>
      if |rest| > 0 && rest[0] == ',' then
        match ParseBuckets(rest[1..])
        case None => None
        case Some((bs, rest2)) => Some(([b] + bs, rest2))
      else
        Some(([b], rest))
  }

  /** Reads a whole sequence; any text left over is an error. */
  function ParseSequence(s: string): Option<seq<(int, seq<Entry>)>> {
    if s == "[]" then Some([])
    else if |s| == 0 || s[0] != '[' then None
    else
      match ParseBuckets(s[1..])
      case None => None
      case Some((bs, rest)) => if rest == "]" then Some(bs) else None
  }

  /** A value the reader can find the end of. */
  predicate PlainValue(e: Entry) {
    ')' !in e.value
  }

  /** Buckets whose text reads back: every bucket has a pair (as every bucket
      ConsolidateMeasures opens does) and no value holds a ")". */
  ghost predicate WellFormed(items: seq<(int, seq<Entry>)>) {
    forall i :: 0 <= i < |items| ==>
      |items[i].1| > 0 && forall j :: 0 <= j < |items[i].1| ==> PlainValue(items[i].1[j])
  }

  /** Reading an entry, one field at a time. */
  lemma ParseEntryOf(s: string, t: string, id: int, u: string, v: string, rest: string)
    requires |s| > 0 && s[0] == '(' && s[1..] == t
    requires ParseInt(t) == Some((id, u))
    requires |u| > 0 && u[0] == ',' && u[1..] == v + [')'] + rest
    requires ')' !in v
    ensures ParseEntry(s) == Some((Entry(id, v), rest))
  {
    var body := u[1..];
    IndexOfAfter(v, ')', rest);
    assert body[..|v|] == v && body[|v| + 1..] == rest;
  }

  /** Where the fields of an entry's text lie. */
  lemma EntryShape(s: string, idText: string, v: string, rest: string)
    requires s == "(" + idText + "," + v + ")" + rest
    ensures |s| > 0 && s[0] == '(' && s[1..] == idText + ("," + v + ")" + rest)
    ensures var u := "," + v + ")" + rest; |u| > 0 && u[0] == ',' && u[1..] == v + [')'] + rest
  {
  }

  lemma EntryRoundTrip(e: Entry, rest: string)
    requires PlainValue(e)
    ensures ParseEntry(EntryText(e) + rest) == Some((e, rest))
  {
    var idText, u := IntToString(e.itemId), "," + e.value + ")" + rest;
    ParseIntRoundTrip(e.itemId, u);
    EntryShape(EntryText(e) + rest, idText, e.value, rest);
    ParseEntryOf(EntryText(e) + rest, idText + u, e.itemId, u, e.value, rest);
  }

  lemma IndexOfAfter(v: string, c: char, rest: string)
    requires c !in v
    ensures IndexOf(v + [c] + rest, c) == Some(|v|)
  {
    var s := v + [c] + rest;
    assert s[|v|] == c;
    assert s[..|v|] == v;
    assert forall j :: |v| < j <= |s| ==> s[..j][|v|] == c;
  }

  lemma ParseEntriesCons(h: string, t: string, rest: string, e: Entry, es: seq<Entry>)
    requires ParseEntry(h + ("," + (t + rest))) == Some((e, "," + (t + rest)))
    requires ParseEntries(t + rest) == Some((es, rest))
    ensures ParseEntries(h + "," + t + rest) == Some(([e] + es, rest))
  {
    JoinAssoc(h, t, rest);
    assert ("," + (t + rest))[1..] == t + rest;
  }

  lemma ParseEntriesLast(s: string, e: Entry, rest: string)
    requires ParseEntry(s) == Some((e, rest))
    requires rest == [] || rest[0] != ','
    ensures ParseEntries(s) == Some(([e], rest))
  {
  }

  lemma EntriesStep(texts: seq<string>, es: seq<Entry>, rest: string)
    requires |texts| == |es| > 1
    requires ParseEntry(texts[0] + ("," + (Join(",", texts[1..]) + rest))) ==
      Some((es[0], "," + (Join(",", texts[1..]) + rest)))
    requires ParseEntries(Join(",", texts[1..]) + rest) == Some((es[1..], rest))
    ensures ParseEntries(Join(",", texts) + rest) == Some((es, rest))
  {
    ParseEntriesCons(texts[0], Join(",", texts[1..]), rest, es[0], es[1..]);
    assert es == [es[0]] + es[1..];
  }

  /** Texts that each read back as one pair, joined by commas, read back
      as the list of those pairs. */
  lemma {:induction false} EntriesRoundTrip(texts: seq<string>, es: seq<Entry>, rest: string)
    requires |texts| == |es| > 0
    requires forall j, r :: 0 <= j < |texts| ==> ParseEntry(texts[j] + r) == Some((es[j], r))
    requires rest == [] || rest[0] != ','
    ensures ParseEntries(Join(",", texts) + rest) == Some((es, rest))
    decreases |texts|
  {
    if |texts| == 1 {
      assert Join(",", texts) == texts[0];
      ParseEntriesLast(texts[0] + rest, es[0], rest);
      assert es == [es[0]];
    } else {
      var t := Join(",", texts[1..]);
      var r := "," + (t + rest);
      assert ParseEntry(texts[0] + r) == Some((es[0], r));
      EntriesRoundTrip(texts[1..], es[1..], rest);
      EntriesStep(texts, es, rest);
    }
  }

  /** Regrouping a + "," + b + rest so that the separator leads the tail. */
  lemma JoinAssoc(a: string, b: string, rest: string)
    ensures a + "," + b + rest == a + ("," + (b + rest))
  {
  }

  /** Reading a bucket, one field at a time. */
  lemma ParseBucketOf(s: string, t: string, off: int, u: string, es: seq<Entry>, w: string)
    requires |s| > 0 && s[0] == '[' && s[1..] == t
    requires ParseInt(t) == Some((off, u))
    requires |u| > 0 && u[0] == ',' && ParseEntries(u[1..]) == Some((es, w))
    requires |w| > 0 && w[0] == ']'
    ensures ParseBucket(s) == Some(((off, es), w[1..]))
  {
  }

  /** Where the fields of a bucket's text lie. */
  lemma BucketShape(s: string, offText: string, body: string, rest: string)
    requires s == "[" + offText + "," + body + "]" + rest
    ensures |s| > 0 && s[0] == '[' && s[1..] == offText + ("," + body + "]" + rest)
    ensures var u := "," + body + "]" + rest; |u| > 0 && u[0] == ',' && u[1..] == body + ("]" + rest)
    ensures var w := "]" + rest; |w| > 0 && w[0] == ']' && w[1..] == rest
  {
  }

  lemma BucketRoundTrip(off: int, es: seq<Entry>, rest: string)
    requires |es| > 0 && forall j :: 0 <= j < |es| ==> PlainValue(es[j])
    ensures ParseBucket(BucketText(off, es) + rest) == Some(((off, es), rest))
  {
    var offText, body := IntToString(off), EntriesText(es);
    var u, w := "," + body + "]" + rest, "]" + rest;
    var texts := seq(|es|, i requires 0 <= i < |es| => EntryText(es[i]));
    forall j, r | 0 <= j < |texts| ensures ParseEntry(texts[j] + r) == Some((es[j], r)) {
      EntryRoundTrip(es[j], r);
    }
    EntriesRoundTrip(texts, es, w);
    ParseIntRoundTrip(off, u);
    BucketShape(BucketText(off, es) + rest, offText, body, rest);
    ParseBucketOf(BucketText(off, es) + rest, offText + u, off, u, es, w);
  }

  lemma ParseBucketsCons(h: string, t: string, rest: string, b: (int, seq<Entry>), bs: seq<(int, seq<Entry>)>)
    requires ParseBucket(h + ("," + (t + rest))) == Some((b, "," + (t + rest)))
    requires ParseBuckets(t + rest) == Some((bs, rest))
    ensures ParseBuckets(h + "," + t + rest) == Some(([b] + bs, rest))
  {
    JoinAssoc(h, t, rest);
    assert ("," + (t + rest))[1..] == t + rest;
  }

  lemma ParseBucketsLast(s: string, b: (int, seq<Entry>), rest: string)
    requires ParseBucket(s) == Some((b, rest))
    requires rest == [] || rest[0] != ','
    ensures ParseBuckets(s) == Some(([b], rest))
  {
  }

  lemma BucketsStep(texts: seq<string>, items: seq<(int, seq<Entry>)>, rest: string)
    requires |texts| == |items| > 1
    requires ParseBucket(texts[0] + ("," + (Join(",", texts[1..]) + rest))) ==
      Some((items[0], "," + (Join(",", texts[1..]) + rest)))
    requires ParseBuckets(Join(",", texts[1..]) + rest) == Some((items[1..], rest))
    ensures ParseBuckets(Join(",", texts) + rest) == Some((items, rest))
  {
    ParseBucketsCons(texts[0], Join(",", texts[1..]), rest, items[0], items[1..]);
    assert items == [items[0]] + items[1..];
  }

  /** Texts that each read back as one bucket, joined by commas, read back
      as the list of those buckets. */
  lemma {:induction false} BucketsRoundTrip(texts: seq<string>, items: seq<(int, seq<Entry>)>, rest: string)
    requires |texts| == |items| > 0
    requires forall i, r :: 0 <= i < |texts| ==> ParseBucket(texts[i] + r) == Some((items[i], r))
    requires rest == [] || rest[0] != ','
    ensures ParseBuckets(Join(",", texts) + rest) == Some((items, rest))
    decreases |texts|
  {
    if |texts| == 1 {
      assert Join(",", texts) == texts[0];
      ParseBucketsLast(texts[0] + rest, items[0], rest);
      assert items == [items[0]];
    } else {
      var t := Join(",", texts[1..]);
      var r := "," + (t + rest);
      assert ParseBucket(texts[0] + r) == Some((items[0], r));
      BucketsRoundTrip(texts[1..], items[1..], rest);
      BucketsStep(texts, items, rest);
    }
  }

  lemma ParseSequenceOf(s: string, body: string, items: seq<(int, seq<Entry>)>)
    requires s == "[" + body + "]" && |body| > 0
    requires ParseBuckets(body + "]") == Some((items, "]"))
    ensures ParseSequence(s) == Some(items)
  {
    assert s[0] == '[' && s[1..] == body + "]";
    assert |s| > 2;
  }

  /** The text of well-formed buckets reads back as exactly those buckets,
      in order, with nothing left over. */
  lemma SequenceRoundTrip(items: seq<(int, seq<Entry>)>)
    requires WellFormed(items)
    ensures ParseSequence(SequenceText(items)) == Some(items)
  {
    if items != [] {
      var texts := BucketTexts(items);
      var body := Join(",", texts);
      forall i, r | 0 <= i < |texts| ensures ParseBucket(texts[i] + r) == Some((items[i], r)) {
        BucketRoundTrip(items[i].0, items[i].1, r);
      }
      BucketsRoundTrip(texts, items, "]");
      JoinHolds(",", texts, 0);
      ParseSequenceOf(SequenceText(items), body, items);
    }
  }

  /** Reads a row id,"sequence",los: the sequence runs to the next quote. */
  function ParseRecordLine(line: string): Option<(StayId, string, string)> {
    match ParseInt(line)
    case None => None
    case Some((stay, rest)) =>
      if |rest| < 2 || rest[..2] != ",\"" then None
      else
        var body := rest[2..];
        match IndexOf(body, '"')
        case None => None
        case Some(q) =>
          var after := body[q + 1..];
          if |after| == 0 || after[0] != ',' then None
          else Some((stay, body[..q], after[1..]))
  }

  lemma ParseRecordLineOf(line: string, stay: StayId, sequence: string, los: string)
    requires ParseInt(line) == Some((stay, ",\"" + (sequence + ['"'] + ("," + los))))
    requires '"' !in sequence
    ensures ParseRecordLine(line) == Some((stay, sequence, los))
  {
    var body := sequence + ['"'] + ("," + los);
    var rest := ",\"" + body;
    assert rest[..2] == ",\"" && rest[2..] == body;
    IndexOfAfter(sequence, '"', "," + los);
    assert body[..|sequence|] == sequence;
    assert body[|sequence| + 1..] == "," + los;
    assert ("," + los)[1..] == los;
  }

  /** A row reads back as its stay, sequence and LOS when the sequence holds
      no quote; the LOS may hold anything. */
  lemma RecordLineRoundTrip(stay: StayId, sequence: string, los: string)
    requires '"' !in sequence
    ensures ParseRecordLine(RecordLine(stay, sequence, los)) == Some((stay, sequence, los))
  {
    var rest := ",\"" + (sequence + ['"'] + ("," + los));
    assert RecordLine(stay, sequence, los) == IntToString(stay) + rest;
    ParseIntRoundTrip(stay, rest);
    ParseRecordLineOf(RecordLine(stay, sequence, los), stay, sequence, los);
  }

  /** Reads a written row back into its stay, buckets and LOS. */
  function ReadLine(line: string): Option<(StayId, seq<(int, seq<Entry>)>, string)> {
    match ParseRecordLine(line)
    case None => None
    case Some((stay, sequence, los)) =>
      match ParseSequence(sequence)
      case None => None
      case Some(items) => Some((stay, items, los))
  }

  /** A row FormatOutput writes reads back as the stay, buckets and LOS it
      was written from, when no value holds a ")" or a quote. */
  lemma LineRoundTrip(stay: StayId, items: seq<(int, seq<Entry>)>, los: string)
    requires WellFormed(items)
    requires forall i, j :: 0 <= i < |items| && 0 <= j < |items[i].1| ==> '"' !in items[i].1[j].value
    ensures ReadLine(RecordLine(stay, SequenceText(items), los)) == Some((stay, items, los))
  {
    NoQuoteInSequence(items);
    RecordLineRoundTrip(stay, SequenceText(items), los);
    SequenceRoundTrip(items);
  }
}
