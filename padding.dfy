/**
  PadSequences (train_test_csv_creation.py:44-49): a sequence longer than
  max_length is cut to its first max_length elements.
*/
module Padding {
  import opened Wrappers
  import opened Records
  import opened Consolidation

  /** The default of max_length. */
  const MaxLength: nat := 143210

  /** s[:max_length] when len(s) > max_length, s otherwise, for a value that
      can be sliced (a str or a list). */
  function Pad<T>(s: seq<T>, maxLength: nat): (r: seq<T>)
    ensures |r| == if |s| <= maxLength then |s| else maxLength
    ensures r <= s
    ensures |s| <= maxLength ==> r == s
  {
    if |s| > maxLength then s[..maxLength] else s
  }

  /** Padding twice pads no further than padding once. */
  lemma PadIdempotent<T>(s: seq<T>, maxLength: nat)
    ensures Pad(Pad(s, maxLength), maxLength) == Pad(s, maxLength)
  {
  }

  /** PadSequences as wired: it receives the bucket dict of
      ConsolidateMeasures, so len counts buckets, and slicing a dict raises.
      Within the bound the element passes unchanged, exactly as Pad would
      leave its key list. */
  function PadBuckets(sb: StayBuckets, maxLength: nat): (r: Result<StayBuckets, StageError>)
    ensures r.Success? <==> |sb.buckets.keys| <= maxLength
    ensures r.Failure? ==> r.error == DictSliced
    ensures r.Success? ==> r.value == sb && Pad(sb.buckets.keys, maxLength) == sb.buckets.keys
  {
    if sb.buckets.Len() > maxLength then Failure(DictSliced) else Success(sb)
  }
}
